/** Schema migrations: applied in lexical order, each in its own transaction, restartable anywhere. */
module Migrate {
  import opened Prelude
  import opened Text

  datatype Entry = Entry(name: string, isDir: bool)

  predicate HasSuffix(s: string, suffix: string) {
    |s| >= |suffix| && s[|s| - |suffix|..] == suffix
  }

  function SqlFiles(entries: seq<Entry>): seq<string> {
    if entries == [] then []
    else
      var e := entries[|entries| - 1];
      SqlFiles(entries[..|entries| - 1]) + if e.isDir || !HasSuffix(e.name, ".sql") then [] else [e.name]
  }

  /** The names a run works through. */
  function Files(entries: seq<Entry>): seq<string> {
    Sort(SqlFiles(entries))
  }

  method ListFiles(entries: seq<Entry>) returns (files: seq<string>)
    ensures files == Files(entries)
  {
    files := [];
    for i := 0 to |entries|
      invariant files == SqlFiles(entries[..i])
    {
      var e := entries[i];
      assert entries[..i + 1][..i] == entries[..i];
      if e.isDir || !HasSuffix(e.name, ".sql") {
        continue;
      }
      files := files + [e.name];
    }
    assert entries[..|entries|] == entries;
    files := Sort(files);
  }

  /**
   * Which names a run works through: those of the entries that are no directory and whose last four
   * characters are ".sql"; each as often as such an entry has it; in ascending order.
   */
  lemma {:induction false} FilesExact(entries: seq<Entry>, name: string)
    ensures name in Files(entries) <==>
            (exists e :: e in entries && !e.isDir && e.name == name) && |name| >= 4 && name[|name| - 4..] == ".sql"
    ensures multiset(Files(entries))[name] ==
            |set i | 0 <= i < |entries| && !entries[i].isDir && entries[i].name == name
                     && |name| >= 4 && name[|name| - 4..] == ".sql"|
    ensures IsSorted(Files(entries))
  {
    SortSorts(SqlFiles(entries));
    SqlFilesCount(entries, name);
    hide SqlFiles;
    var of := Offers(entries, name);
    assert of == set i | 0 <= i < |entries| && !entries[i].isDir && entries[i].name == name
                         && |name| >= 4 && name[|name| - 4..] == ".sql";
    assert name in Files(entries) <==> multiset(Files(entries))[name] > 0;
    if e :| e in entries && !e.isDir && e.name == name && |name| >= 4 && name[|name| - 4..] == ".sql" {
      var i :| 0 <= i < |entries| && entries[i] == e;
      assert i in of;
    }
    if of != {} {
      var i :| i in of;
      assert entries[i] in entries;
    }
  }

  predicate Offered(e: Entry, name: string) {
    !e.isDir && e.name == name && HasSuffix(name, ".sql")
  }

  /** Where the name is offered. */
  function Offers(entries: seq<Entry>, name: string): set<int> {
    set i | 0 <= i < |entries| && Offered(entries[i], name)
  }

  lemma {:induction false} SqlFilesCount(entries: seq<Entry>, name: string)
    ensures multiset(SqlFiles(entries))[name] == |Offers(entries, name)|
  {
    if entries == [] {
      assert Offers(entries, name) == {};
    } else {
      var n := |entries| - 1;
      SqlFilesCount(entries[..n], name);
      OneMoreFile(SqlFiles(entries[..n]), entries[n], name);
      hide HasSuffix;
      OneMoreOffer(entries, name);
      hide Offers, Offered;
    }
  }

  lemma OneMoreFile(names: seq<string>, e: Entry, name: string)
    ensures multiset(names + if e.isDir || !HasSuffix(e.name, ".sql") then [] else [e.name])[name] ==
            multiset(names)[name] + if Offered(e, name) then 1 else 0
  {
    hide HasSuffix;
    assert names + [] == names;
  }

  lemma OneMoreOffer(entries: seq<Entry>, name: string)
    requires entries != []
    ensures var n := |entries| - 1;
      |Offers(entries, name)| == |Offers(entries[..n], name)| + if Offered(entries[n], name) then 1 else 0
  {
    hide Offered;
    var n := |entries| - 1;
    assert Offers(entries, name) == Offers(entries[..n], name) + if Offered(entries[n], name) then {n} else {};
  }

  /** The files whose names are not recorded, in order. */
  function Missing(files: seq<string>, recorded: set<string>): (r: seq<string>)
    ensures |r| <= |files|
  {
    if files == [] then []
    else (if files[0] in recorded then [] else [files[0]]) + Missing(files[1..], recorded)
  }

  /** A name is missing as often as it is listed, unless it is recorded. */
  lemma {:induction false} MissingExact(files: seq<string>, recorded: set<string>, name: string)
    ensures name in Missing(files, recorded) <==> name in files && name !in recorded
    ensures multiset(Missing(files, recorded))[name] == if name in recorded then 0 else multiset(files)[name]
  {
    if files != [] {
      MissingExact(files[1..], recorded, name);
      assert files == [files[0]] + files[1..];
    }
  }

  function Take(xs: seq<string>, n: nat): seq<string> {
    if n < |xs| then xs[..n] else xs
  }

  /** A file of that name is there, and its name ends in ".sql". */
  ghost predicate Listed(entries: seq<Entry>, name: string) {
    (exists e :: e in entries && !e.isDir && e.name == name) && |name| >= 4 && name[|name| - 4..] == ".sql"
  }

  class Database {
    /** The _migrations table. */
    var recorded: set<string>
    /** The files whose statements have taken effect, in the order they did. */
    var effects: seq<string>

    /** A file's statements and its record commit together. */
    ghost predicate Valid()
      reads this
    {
      recorded == SetOf(effects)
    }

    constructor ()
      ensures Valid() && effects == []
    {
      recorded, effects := {}, [];
    }

    /**
     * One start-up. commits bounds how many transactions get through before the process is cut
     * or a step fails; a transaction that does not commit leaves no trace.
     */
    method Migrate(entries: seq<Entry>, commits: nat) returns (completed: bool)
      requires Valid()
      modifies this
      ensures Valid()
      ensures var missing := Missing(Files(entries), old(recorded));
        effects == old(effects) + Take(missing, commits) && (completed <==> commits >= |missing|)
      ensures forall name :: name in effects ==> name in old(effects) || Listed(entries, name)
      ensures completed ==> forall name :: Listed(entries, name) ==> name in effects
    {
      hide Files, Missing, Take, Listed;
      var files := ListFiles(entries);
      var applied := recorded;
      var left := commits;
      ghost var done: seq<string> := [];
      assert files[0..] == files;
      var i := 0;
      while i < |files|
        invariant 0 <= i <= |files| && Valid()
        invariant 0 <= left && |done| + left == commits
        invariant effects == old(effects) + done
        invariant done + Missing(files[i..], applied) == Missing(files, applied)
      {
        var name := files[i];
        MissingStep(files, i, applied);
        if name !in applied {
          if left == 0 {
            TakeWhole(done, Missing(files[i..], applied), commits);
            AppliedAreListed(entries, old(effects), applied, commits);
            return false;
          }
          effects := effects + [name];
          recorded := recorded + {name};
          done := done + [name];
          left := left - 1;
        }
        i := i + 1;
      }
      NothingMissing(files[i..], applied);
      TakeWhole(done, [], commits);
      AppliedAreListed(entries, old(effects), applied, commits);
      completed := true;
    }
  }

  lemma MissingStep(files: seq<string>, i: nat, recorded: set<string>)
    requires i < |files|
    ensures files[i] in recorded ==> Missing(files[i..], recorded) == Missing(files[i + 1..], recorded)
    ensures files[i] !in recorded ==> Missing(files[i..], recorded) == [files[i]] + Missing(files[i + 1..], recorded)
  {
    assert files[i..][1..] == files[i + 1..];
  }

  /** What a run applies is listed; and a run that gets through leaves nothing listed unapplied. */
  lemma AppliedAreListed(entries: seq<Entry>, effects: seq<string>, recorded: set<string>, commits: nat)
    requires recorded == SetOf(effects)
    ensures var missing := Missing(Files(entries), recorded);
      var after := effects + Take(missing, commits);
      && (forall name :: name in after ==> name in effects || Listed(entries, name))
      && (commits >= |missing| ==> forall name :: Listed(entries, name) ==> name in after)
  {
    var missing := Missing(Files(entries), recorded);
    forall name
      ensures name in missing <==> name !in recorded && Listed(entries, name)
    {
      FilesExact(entries, name);
      MissingExact(Files(entries), recorded, name);
    }
    hide Files, Missing, Listed;
    forall name | name in Take(missing, commits)
      ensures name in missing
    {
    }
    forall name | Listed(entries, name) && commits >= |missing|
      ensures name in effects + Take(missing, commits)
    {
      assert name in effects || name in missing;
    }
  }

  lemma TakeWhole(done: seq<string>, rest: seq<string>, n: nat)
    requires |done| == n || (rest == [] && |done| <= n)
    ensures Take(done + rest, n) == done
  {
  }

  // ---- any number of interrupted runs ---------------------------------------------------

  /** What has taken effect after a series of runs over the same files, from an empty database. */
  function EffectsAfter(files: seq<string>, runs: seq<nat>): seq<string> {
    if runs == [] then []
    else
      var before := EffectsAfter(files, runs[..|runs| - 1]);
      before + Take(Missing(files, SetOf(before)), runs[|runs| - 1])
  }

  lemma {:induction false} NothingMissing(files: seq<string>, recorded: set<string>)
    requires forall f :: f in files ==> f in recorded
    ensures Missing(files, recorded) == []
  {
    if files != [] {
      NothingMissing(files[1..], recorded);
    }
  }

  lemma {:induction false} AllMissing(files: seq<string>, recorded: set<string>)
    requires forall f :: f in files ==> f !in recorded
    ensures Missing(files, recorded) == files
  {
    if files != [] {
      AllMissing(files[1..], recorded);
      assert files == [files[0]] + files[1..];
    }
  }

  lemma {:induction false} MissingAppend(xs: seq<string>, ys: seq<string>, recorded: set<string>)
    ensures Missing(xs + ys, recorded) == Missing(xs, recorded) + Missing(ys, recorded)
    decreases |xs|
  {
    if xs == [] {
      assert xs + ys == ys;
    } else {
      assert (xs + ys)[1..] == xs[1..] + ys;
      MissingAppend(xs[1..], ys, recorded);
    }
  }

  /** After the first k files, the rest is missing. */
  lemma MissingAfterPrefix(files: seq<string>, k: nat)
    requires Distinct(files) && k <= |files|
    ensures Missing(files, SetOf(files[..k])) == files[k..]
  {
    hide Missing;
    var done, rest := files[..k], files[k..];
    assert files == done + rest;
    RestUnrecorded(files, k);
    hide Distinct;
    MissingAppend(done, rest, SetOf(done));
    NothingMissing(done, SetOf(done));
    AllMissing(rest, SetOf(done));
  }

  lemma RestUnrecorded(files: seq<string>, k: nat)
    requires Distinct(files) && k <= |files|
    ensures forall f :: f in files[k..] ==> f !in SetOf(files[..k])
  {
    forall f | f in files[k..]
      ensures f !in SetOf(files[..k])
    {
      var i :| k <= i < |files| && files[i] == f;
    }
  }

  lemma PrefixGrows(files: seq<string>, k: nat, n: nat)
    requires Distinct(files) && k <= |files|
    ensures files[..k] + Take(Missing(files, SetOf(files[..k])), n) <= files
  {
    MissingAfterPrefix(files, k);
    hide *;
    PrefixOfRest(files, k, n);
  }

  lemma PrefixOfRest(files: seq<string>, k: nat, n: nat)
    requires k <= |files|
    ensures files[..k] + Take(files[k..], n) <= files
  {
    var e := if k + n < |files| then k + n else |files|;
    assert Take(files[k..], n) == files[k..e];
    assert files[..k] + files[k..e] == files[..e];
  }

  /** However the runs were cut, what has taken effect is a prefix of the sorted list. */
  lemma {:induction false} AlwaysAPrefix(files: seq<string>, runs: seq<nat>)
    requires Distinct(files)
    ensures EffectsAfter(files, runs) <= files
  {
    if runs != [] {
      var before := EffectsAfter(files, runs[..|runs| - 1]);
      hide Missing, Take, Distinct;
      AlwaysAPrefix(files, runs[..|runs| - 1]);
      assert before == files[..|before|];
      PrefixGrows(files, |before|, runs[|runs| - 1]);
    }
  }

  /** How many transactions a run after these needs, to get through. */
  function Outstanding(files: seq<string>, runs: seq<nat>): nat {
    |Missing(files, SetOf(EffectsAfter(files, runs)))|
  }

  /**
   * Interrupted migrations converge: any number of runs, cut or failed anywhere, followed by one
   * that completes, leaves every file applied exactly once and in lexical order, as a single
   * uninterrupted run does; a further run of any length changes nothing.
   */
  lemma MigrationsConverge(entries: seq<Entry>, runs: seq<nat>, last: nat, extra: nat)
    requires Distinct(SqlFiles(entries))
    ensures var files := Files(entries);
      && IsSorted(files) && Distinct(files)
      && EffectsAfter(files, [|files|]) == files
      && (last >= Outstanding(files, runs) <==> EffectsAfter(files, runs + [last]) == files)
      && (last >= Outstanding(files, runs) ==> EffectsAfter(files, runs + [last, extra]) == files)
  {
    hide EffectsAfter, Sort, SqlFiles, IsSorted, Outstanding;
    var files := Files(entries);
    SortSorts(SqlFiles(entries));
    SortDistinct(SqlFiles(entries));
    LastRunFinishesIff(files, runs, last);
    NoFewer(files);
    LastRunFinishesIff(files, [], |files|);
    assert [] + [|files|] == [|files|];
    if last >= Outstanding(files, runs) {
      FurtherRunChangesNothing(files, runs + [last], extra);
      assert runs + [last, extra] == (runs + [last]) + [extra];
    }
  }

  lemma NoFewer(files: seq<string>)
    ensures Outstanding(files, []) <= |files|
  {
  }

  /** A run finishes the job exactly when the method it models reports completion. */
  lemma LastRunFinishesIff(files: seq<string>, runs: seq<nat>, last: nat)
    requires Distinct(files)
    ensures EffectsAfter(files, runs + [last]) == files <==> last >= Outstanding(files, runs)
  {
    var before := EffectsAfter(files, runs);
    OneMoreRun(files, runs, last);
    hide EffectsAfter, Missing, Distinct;
    AlwaysAPrefix(files, runs);
    assert before == files[..|before|];
    MissingAfterPrefix(files, |before|);
    assert before + files[|before|..] == files;
  }

  lemma OneMoreRun(files: seq<string>, runs: seq<nat>, last: nat)
    ensures var before := EffectsAfter(files, runs);
      EffectsAfter(files, runs + [last]) == before + Take(Missing(files, SetOf(before)), last)
  {
    hide Missing;
    assert (runs + [last])[..|runs|] == runs;
  }

  lemma FurtherRunChangesNothing(files: seq<string>, runs: seq<nat>, extra: nat)
    requires EffectsAfter(files, runs) == files
    ensures EffectsAfter(files, runs + [extra]) == files
  {
    OneMoreRun(files, runs, extra);
    hide EffectsAfter, Missing;
    NothingMissing(files, SetOf(files));
    assert files + Take([], extra) == files;
  }
}
