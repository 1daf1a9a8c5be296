/**
 * The fragments of Go's strings, strconv and sort packages that the program relies on,
 * written out on sequences of Unicode characters.
 */
module Text {
  import opened Prelude

  // ---- white space and case -------------------------------------------------------------

  /** unicode.IsSpace */
  predicate IsSpace(c: char) {
    || '\t' <= c <= '\r' || c == ' '
    || c == '\U{0085}' || c == '\U{00A0}' || c == '\U{1680}'
    || '\U{2000}' <= c <= '\U{200A}'
    || c == '\U{2028}' || c == '\U{2029}' || c == '\U{202F}' || c == '\U{205F}' || c == '\U{3000}'
  }

  function TrimLeft(s: string): string
  {
    if s != [] && IsSpace(s[0]) then TrimLeft(s[1..]) else s
  }

  function TrimRight(s: string): string
  {
    if s != [] && IsSpace(s[|s| - 1]) then TrimRight(s[..|s| - 1]) else s
  }

  /** strings.TrimSpace */
  function TrimSpace(s: string): string {
    TrimRight(TrimLeft(s))
  }

  lemma {:induction false} TrimLeftExact(s: string) returns (n: nat)
    ensures n <= |s| && TrimLeft(s) == s[n..]
    ensures (forall k :: 0 <= k < n ==> IsSpace(s[k])) && (n < |s| ==> !IsSpace(s[n]))
  {
    n := 0;
    if s != [] && IsSpace(s[0]) {
      var m := TrimLeftExact(s[1..]);
      n := m + 1;
    }
  }

  lemma {:induction false} TrimRightExact(s: string) returns (n: nat)
    ensures n <= |s| && TrimRight(s) == s[..n]
    ensures (forall k :: n <= k < |s| ==> IsSpace(s[k])) && (n > 0 ==> !IsSpace(s[n - 1]))
  {
    n := |s|;
    if s != [] && IsSpace(s[|s| - 1]) {
      n := TrimRightExact(s[..|s| - 1]);
    }
  }

  /** What trimming leaves: a middle part without white space at its ends, and nothing but white space around it. */
  lemma TrimSpaceExact(s: string) returns (from: nat, to: nat)
    ensures from <= to <= |s| && TrimSpace(s) == s[from..to]
    ensures forall k :: 0 <= k < from || to <= k < |s| ==> IsSpace(s[k])
    ensures from < to ==> !IsSpace(s[from]) && !IsSpace(s[to - 1])
  {
    hide IsSpace;
    from := TrimLeftExact(s);
    var n := TrimRightExact(s[from..]);
    to := from + n;
  }

  /**
   * Lower case, for ASCII letters. No other character lower-cases to a hexadecimal digit,
   * to ':' or '-', or into or out of white space, so parsing a MAC cannot tell the difference.
   */
  function LowerChar(c: char): (r: char)
    ensures IsSpace(c) == IsSpace(r)
  {
    if 'A' <= c <= 'Z' then (c as int + 32) as char else c
  }

  function ToLower(s: string): (r: string)
    ensures |r| == |s| && forall i :: 0 <= i < |s| ==> r[i] == LowerChar(s[i])
  {
    seq(|s|, i requires 0 <= i < |s| => LowerChar(s[i]))
  }

  lemma {:induction false} TrimLeftLower(s: string)
    ensures TrimLeft(ToLower(s)) == ToLower(TrimLeft(s))
  {
    if s != [] && IsSpace(s[0]) {
      assert ToLower(s)[1..] == ToLower(s[1..]);
      TrimLeftLower(s[1..]);
    }
  }

  lemma {:induction false} TrimRightLower(s: string)
    ensures TrimRight(ToLower(s)) == ToLower(TrimRight(s))
  {
    if s != [] && IsSpace(s[|s| - 1]) {
      assert ToLower(s)[..|s| - 1] == ToLower(s[..|s| - 1]);
      TrimRightLower(s[..|s| - 1]);
    }
  }

  // ---- searching and splitting ----------------------------------------------------------

  /** strings.Contains */
  predicate Contains(s: string, sub: string) {
    sub <= s || (s != [] && Contains(s[1..], sub))
  }

  /** It occurs somewhere. */
  lemma {:induction false} ContainsExact(s: string, sub: string)
    ensures Contains(s, sub) <==> exists i :: 0 <= i <= |s| && sub <= s[i..]
  {
    assert s[0..] == s;
    if s != [] {
      ContainsExact(s[1..], sub);
      if i :| 0 <= i <= |s| && sub <= s[i..] {
        assert i > 0 ==> s[1..][i - 1..] == s[i..];
      }
      if i :| 0 <= i <= |s[1..]| && sub <= s[1..][i..] {
        assert s[i + 1..] == s[1..][i..];
      }
    }
  }

  /** strings.Split with a one-character separator. */
  function Split(s: string, sep: char): (parts: seq<string>)
    ensures |parts| >= 1
  {
    if s == [] then [[]]
    else
      var rest := Split(s[1..], sep);
      if s[0] == sep then [[]] + rest else [[s[0]] + rest[0]] + rest[1..]
  }

  /** Every character other than the separator survives in some part. */
  lemma {:induction false} SplitKeeps(s: string, sep: char, c: char)
    requires c in s && c != sep
    ensures exists p :: p in Split(s, sep) && c in p
  {
    var rest := Split(s[1..], sep);
    if s[0] == c {
      assert c in Split(s, sep)[0];
    } else {
      assert c in s[1..];
      SplitKeeps(s[1..], sep, c);
      var p :| p in rest && c in p;
      if s[0] == sep {
        assert p in Split(s, sep);
      } else if p == rest[0] {
        assert c in Split(s, sep)[0];
      } else {
        assert p in rest[1..];
        assert p in Split(s, sep);
      }
    }
  }

  lemma {:induction false} SplitOnePart(s: string, sep: char)
    requires sep !in s
    ensures Split(s, sep) == [s]
  {
    if s != [] {
      SplitOnePart(s[1..], sep);
      assert [s[0]] + s[1..] == s;
    }
  }

  lemma {:induction false} SplitAppend(s: string, sep: char, p: string)
    requires sep !in p
    ensures Split(s + [sep] + p, sep) == Split(s, sep) + [p]
  {
    var whole := s + [sep] + p;
    if s == [] {
      assert whole[1..] == p;
      SplitOnePart(p, sep);
    } else {
      assert whole[1..] == s[1..] + [sep] + p;
      SplitAppend(s[1..], sep, p);
    }
  }

  /** strings.Join with a one-character separator. */
  function Join(parts: seq<string>, sep: char): string
    requires parts != []
  {
    if |parts| == 1 then parts[0] else Join(parts[..|parts| - 1], sep) + [sep] + parts[|parts| - 1]
  }

  /** Splitting undoes joining, when no part has the separator in it. */
  lemma {:induction false} SplitJoin(parts: seq<string>, sep: char)
    requires parts != [] && forall i :: 0 <= i < |parts| ==> sep !in parts[i]
    ensures Split(Join(parts, sep), sep) == parts
  {
    if |parts| == 1 {
      SplitOnePart(parts[0], sep);
    } else {
      var front, last := parts[..|parts| - 1], parts[|parts| - 1];
      SplitJoin(front, sep);
      SplitAppend(Join(front, sep), sep, last);
    }
  }

  lemma {:induction false} JoinCons(p: string, parts: seq<string>, sep: char)
    requires parts != []
    ensures Join([p] + parts, sep) == p + [sep] + Join(parts, sep)
  {
    var whole := [p] + parts;
    assert whole[..|whole| - 1] == [p] + parts[..|parts| - 1];
    if |parts| == 1 {
      assert [p] + parts[..0] == [p];
    } else {
      JoinCons(p, parts[..|parts| - 1], sep);
    }
  }

  lemma {:induction false} JoinHead(c: char, parts: seq<string>, sep: char)
    requires parts != []
    ensures Join([[c] + parts[0]] + parts[1..], sep) == [c] + Join(parts, sep)
  {
    var whole := [[c] + parts[0]] + parts[1..];
    if |parts| == 1 {
      assert whole == [[c] + parts[0]];
    } else {
      var front := parts[..|parts| - 1];
      assert whole[..|whole| - 1] == [[c] + front[0]] + front[1..];
      JoinHead(c, front, sep);
    }
  }

  /** Joining undoes splitting, and no part of a split has the separator in it. */
  lemma {:induction false} JoinSplit(s: string, sep: char)
    ensures Join(Split(s, sep), sep) == s
    ensures forall p :: p in Split(s, sep) ==> sep !in p
  {
    if s != [] {
      JoinSplit(s[1..], sep);
      var rest := Split(s[1..], sep);
      assert s == [s[0]] + s[1..];
      if s[0] == sep {
        JoinCons([], rest, sep);
      } else {
        JoinHead(s[0], rest, sep);
      }
    }
  }

  lemma {:induction false} JoinMembers(parts: seq<string>, sep: char, c: char)
    requires parts != []
    ensures c in Join(parts, sep) <==> (c == sep && |parts| > 1) || exists i :: 0 <= i < |parts| && c in parts[i]
  {
    if |parts| > 1 {
      var front := parts[..|parts| - 1];
      JoinMembers(front, sep, c);
      assert forall i :: 0 <= i < |front| ==> front[i] == parts[i];
    }
  }

  function LowerAll(parts: seq<string>): (r: seq<string>)
    ensures |r| == |parts| && forall i :: 0 <= i < |parts| ==> r[i] == ToLower(parts[i])
  {
    seq(|parts|, i requires 0 <= i < |parts| => ToLower(parts[i]))
  }

  lemma LowerCons(c: char, s: string)
    ensures ToLower([c] + s) == [LowerChar(c)] + ToLower(s)
  {
  }

  lemma LowerAllCons(p: string, parts: seq<string>)
    ensures LowerAll([p] + parts) == [ToLower(p)] + LowerAll(parts)
  {
  }

  /** Lower-casing neither makes nor removes a separator. */
  lemma {:induction false} SplitLower(s: string, sep: char)
    requires sep == ':' || sep == '-'
    ensures Split(ToLower(s), sep) == LowerAll(Split(s, sep))
  {
    if s == [] {
    } else {
      var c, rest := s[0], Split(s[1..], sep);
      assert ToLower(s)[1..] == ToLower(s[1..]);
      SplitLower(s[1..], sep);
      assert LowerChar(c) == sep <==> c == sep;
      hide ToLower, LowerAll, LowerChar;
      if c == sep {
        LowerAllCons([], rest);
        assert ToLower([]) == [];
      } else {
        LowerCons(c, rest[0]);
        LowerAllCons([c] + rest[0], rest[1..]);
        assert rest == [rest[0]] + rest[1..];
        LowerAllCons(rest[0], rest[1..]);
      }
    }
  }

  // ---- lexical order and sorting --------------------------------------------------------

  /** Go's string <=: code-point order, which UTF-8 byte order agrees with. */
  predicate LexLe(a: string, b: string) {
    a == [] || (b != [] && (a[0] < b[0] || (a[0] == b[0] && LexLe(a[1..], b[1..]))))
  }

  /** One comes before another iff it is a beginning of it, or smaller where they first differ. */
  lemma {:induction false} LexLeExact(a: string, b: string)
    ensures LexLe(a, b) <==> a <= b || exists k :: 0 <= k < |a| && k < |b| && a[..k] == b[..k] && a[k] < b[k]
  {
    if a != [] && b != [] {
      var x, y := a[1..], b[1..];
      LexLeExact(x, y);
      assert a == [a[0]] + x && b == [b[0]] + y;
      if a[0] == b[0] {
        if k :| 0 <= k < |x| && k < |y| && x[..k] == y[..k] && x[k] < y[k] {
          assert a[..k + 1] == [a[0]] + x[..k] && b[..k + 1] == [b[0]] + y[..k];
        }
        if k :| 0 <= k < |a| && k < |b| && a[..k] == b[..k] && a[k] < b[k] {
          assert k > 0;
          assert x[..k - 1] == a[..k][1..] && y[..k - 1] == b[..k][1..];
          assert x[k - 1] < y[k - 1];
        }
      } else {
        assert a[..0] == b[..0];
        if k :| 0 <= k < |a| && k < |b| && a[..k] == b[..k] && a[k] < b[k] {
          assert k == 0;
        }
      }
    }
  }

  lemma {:induction false} LexTotal(a: string, b: string)
    ensures LexLe(a, b) || LexLe(b, a)
  {
    if a != [] && b != [] && a[0] == b[0] {
      LexTotal(a[1..], b[1..]);
    }
  }

  lemma {:induction false} LexTransitive(a: string, b: string, c: string)
    requires LexLe(a, b) && LexLe(b, c)
    ensures LexLe(a, c)
  {
    if a != [] && a[0] == b[0] && b[0] == c[0] {
      LexTransitive(a[1..], b[1..], c[1..]);
    }
  }

  lemma {:induction false} LexAntisymmetric(a: string, b: string)
    requires LexLe(a, b) && LexLe(b, a)
    ensures a == b
  {
    if a != [] {
      LexAntisymmetric(a[1..], b[1..]);
      assert a == [a[0]] + a[1..] && b == [b[0]] + b[1..];
    }
  }

  ghost predicate IsSorted(xs: seq<string>) {
    forall i, j :: 0 <= i < j < |xs| ==> LexLe(xs[i], xs[j])
  }

  lemma SortedHead(xs: seq<string>, y: string)
    requires IsSorted(xs) && y in xs
    ensures LexLe(xs[0], y)
  {
    var i :| 0 <= i < |xs| && xs[i] == y;
    if i == 0 {
      LexTotal(y, y);
    }
  }

  /** Insert x into a sorted list, after every smaller element. */
  function Insert(x: string, xs: seq<string>): (r: seq<string>)
    ensures multiset(r) == multiset(xs) + multiset{x}
    ensures |r| == |xs| + 1
  {
    if xs == [] then [x]
    else if LexLe(x, xs[0]) then [x] + xs
    else
      assert xs == [xs[0]] + xs[1..];
      [xs[0]] + Insert(x, xs[1..])
  }

  lemma {:induction false} InsertMembers(x: string, xs: seq<string>, y: string)
    ensures y in Insert(x, xs) <==> y == x || y in xs
  {
    assert y in Insert(x, xs) <==> y in multiset(Insert(x, xs));
  }

  lemma SortedCons(x: string, xs: seq<string>)
    requires IsSorted(xs) && forall y :: y in xs ==> LexLe(x, y)
    ensures IsSorted([x] + xs)
  {
    hide LexLe;
    var r := [x] + xs;
    forall i, j | 0 <= i < j < |r|
      ensures LexLe(r[i], r[j])
    {
      assert r[j] == xs[j - 1];
      if i > 0 {
        assert r[i] == xs[i - 1];
      }
    }
  }

  lemma {:induction false} InsertSorted(x: string, xs: seq<string>)
    requires IsSorted(xs)
    ensures IsSorted(Insert(x, xs))
  {
    hide LexLe;
    if xs == [] {
    } else if LexLe(x, xs[0]) {
      forall y | y in xs
        ensures LexLe(x, y)
      {
        SortedHead(xs, y);
        LexTransitive(x, xs[0], y);
      }
      SortedCons(x, xs);
    } else {
      InsertSorted(x, xs[1..]);
      forall y | y in Insert(x, xs[1..])
        ensures LexLe(xs[0], y)
      {
        InsertMembers(x, xs[1..], y);
        LexTotal(x, xs[0]);
        if y != x {
          SortedHead(xs, y);
        }
      }
      SortedCons(xs[0], Insert(x, xs[1..]));
    }
  }

  /** The ascending rearrangement of xs: what sort.Strings and sort.Slice leave behind. */
  function Sort(xs: seq<string>): (r: seq<string>)
    ensures multiset(r) == multiset(xs)
    ensures |r| == |xs|
  {
    if xs == [] then []
    else
      assert xs == xs[..|xs| - 1] + [xs[|xs| - 1]];
      Insert(xs[|xs| - 1], Sort(xs[..|xs| - 1]))
  }

  lemma {:induction false} SortSorts(xs: seq<string>)
    ensures IsSorted(Sort(xs))
    ensures forall x :: x in Sort(xs) <==> x in xs
  {
    if xs != [] {
      SortSorts(xs[..|xs| - 1]);
      InsertSorted(xs[|xs| - 1], Sort(xs[..|xs| - 1]));
    }
    forall x
      ensures x in Sort(xs) <==> x in xs
    {
      assert x in Sort(xs) <==> x in multiset(Sort(xs));
    }
  }

  lemma {:induction false} DistinctByCount(xs: seq<string>)
    ensures Distinct(xs) <==> forall x :: x in xs ==> multiset(xs)[x] == 1
  {
    if xs != [] {
      var front, last := xs[..|xs| - 1], xs[|xs| - 1];
      assert xs == front + [last];
      DistinctByCount(front);
      if Distinct(xs) {
        forall x | x in xs
          ensures multiset(xs)[x] == 1
        {
          if x == last {
            assert last !in front;
          }
        }
      } else {
        var i, j :| 0 <= i < j < |xs| && xs[i] == xs[j];
        if j == |xs| - 1 {
          assert front[i] == last && last in front;
          assert multiset(front)[last] >= 1;
          assert last in xs && multiset(xs)[last] != 1;
        } else {
          var x :| x in front && multiset(front)[x] != 1;
          assert multiset(xs)[x] >= multiset(front)[x] > 1;
          assert x in xs;
        }
      }
    }
  }

  lemma SortDistinct(xs: seq<string>)
    requires Distinct(xs)
    ensures Distinct(Sort(xs))
  {
    DistinctByCount(xs);
    DistinctByCount(Sort(xs));
    SortSorts(xs);
  }

  /** Swapping two distinct positions permutes a sequence. */
  lemma SwapPermutes(xs: seq<string>, i: nat, j: nat)
    requires i < j < |xs|
    ensures multiset(xs[i := xs[j]][j := xs[i]]) == multiset(xs)
  {
    var ys := xs[i := xs[j]][j := xs[i]];
    assert xs == xs[..i] + [xs[i]] + xs[i + 1..j] + [xs[j]] + xs[j + 1..];
    assert ys == xs[..i] + [xs[j]] + xs[i + 1..j] + [xs[i]] + xs[j + 1..];
  }

  lemma TailBag(xs: seq<string>)
    requires xs != []
    ensures multiset(xs) == multiset{xs[0]} + multiset(xs[1..])
  {
    assert xs == [xs[0]] + xs[1..];
  }

  lemma SameHead(xs: seq<string>, ys: seq<string>)
    requires IsSorted(xs) && IsSorted(ys) && xs != []
    requires multiset(xs) == multiset(ys)
    ensures ys != [] && xs[0] == ys[0]
  {
    assert xs[0] in multiset(ys);
    assert ys[0] in multiset(xs);
    SortedHead(xs, ys[0]);
    SortedHead(ys, xs[0]);
    LexAntisymmetric(xs[0], ys[0]);
  }

  /** A sorted list is determined by the bag of its elements. */
  lemma {:induction false} SortedUnique(xs: seq<string>, ys: seq<string>)
    requires IsSorted(xs) && IsSorted(ys)
    requires multiset(xs) == multiset(ys)
    ensures xs == ys
  {
    if xs == [] {
      assert |ys| == |multiset(ys)|;
    } else {
      SameHead(xs, ys);
      TailBag(xs);
      TailBag(ys);
      var xt, yt := xs[1..], ys[1..];
      assert multiset(xt) == multiset(xs) - multiset{xs[0]};
      assert multiset(yt) == multiset(ys) - multiset{ys[0]};
      SortedUnique(xt, yt);
      assert xs == [xs[0]] + xt;
      assert ys == [ys[0]] + yt;
    }
  }
}
