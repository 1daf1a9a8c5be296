/** The coordinator: required capabilities are split over an ordered list of backends. */
module Coordinator {
  import opened Prelude
  import opened Text
  import Registry
  import Policy

  type Capability = Registry.Capability

  const UNENFORCEABLE := "unenforceable"

  /** The part of a resolved policy one backend is responsible for. */
  datatype Slice = Slice(policy: Policy.ResolvedPolicy, caps: seq<Capability>)

  /** What a backend says about one capability. */
  datatype PerRule = PerRule(cap: Capability, outcome: string, error: string, note: string)

  /** One rule of the coordinator's answer. */
  datatype RuleOutcome = RuleOutcome(cap: Capability, backend: string, outcome: string, error: string, note: string)

  /** An enforcer as the coordinator sees it. report is what Apply answers; its effects are the backend's own. */
  datatype Backend = Backend(
    name: string, caps: set<Capability>,
    canHandle: Registry.Device -> bool,
    report: (Registry.DeviceId, Slice) -> seq<PerRule>)

  /** One call of Apply. */
  datatype Dispatch = Dispatch(backend: string, slice: Slice)

  // ---- sortCaps -------------------------------------------------------------------------

  lemma SwapKeepsBag(xs: seq<string>, i: nat, j: nat)
    requires i <= j < |xs|
    ensures multiset(xs[i := xs[j]][j := xs[i]]) == multiset(xs)
  {
    if i < j {
      SwapPermutes(xs, i, j);
    } else {
      assert xs[i := xs[j]][j := xs[i]] == xs;
    }
  }

  /** The first i elements are in order, and none of them comes after a later one. */
  ghost predicate SortedUpTo(xs: seq<string>, i: nat) {
    forall p, q :: 0 <= p < q < |xs| && p < i ==> LexLe(xs[p], xs[q])
  }

  lemma SwapInLeast(xs: seq<string>, i: nat, least: nat)
    requires i <= least < |xs| && SortedUpTo(xs, i)
    requires forall q :: i <= q < |xs| ==> LexLe(xs[least], xs[q])
    ensures SortedUpTo(xs[i := xs[least]][least := xs[i]], i + 1)
  {
  }

  /** sort.Slice on the slice's own array: any in-place sort leaves the one ascending rearrangement. */
  method SortCaps(a: array<Capability>)
    modifies a
    ensures a[..] == Sort(old(a[..]))
  {
    var n := a.Length;
    hide LexLe;
    for i := 0 to n
      invariant SortedUpTo(a[..], i)
      invariant multiset(a[..]) == multiset(old(a[..]))
    {
      var least := LeastFrom(a, i);
      ghost var was := a[..];
      SwapInLeast(was, i, least);
      SwapKeepsBag(was, i, least);
      a[i], a[least] := a[least], a[i];
      assert a[..] == was[i := was[least]][least := was[i]];
    }
    SortSorts(old(a[..]));
    SortedUnique(a[..], Sort(old(a[..])));
  }

  method LeastFrom(a: array<Capability>, i: nat) returns (least: nat)
    requires i < a.Length
    ensures i <= least < a.Length
    ensures forall q :: i <= q < a.Length ==> LexLe(a[least], a[q])
  {
    hide LexLe;
    least := i;
    LexTotal(a[i], a[i]);
    for q := i + 1 to a.Length
      invariant i <= least < a.Length
      invariant forall p :: i <= p < q ==> LexLe(a[least], a[p])
    {
      LexTotal(a[least], a[q]);
      if !LexLe(a[least], a[q]) {
        forall p | i <= p < q
          ensures LexLe(a[q], a[p])
        {
          LexTransitive(a[q], a[least], a[p]);
        }
        LexTotal(a[q], a[q]);
        least := q;
      }
    }
  }

  // ---- who gets what --------------------------------------------------------------------

  predicate Able(b: Backend, cap: Capability, dev: Registry.Device) {
    cap in b.caps && b.canHandle(dev)
  }

  /** The first backend, in registration order, that declares the capability and can handle the device. */
  function Pick(bs: seq<Backend>, cap: Capability, dev: Registry.Device): (r: Option<Backend>)
    ensures r.Some? ==> r.value in bs && Able(r.value, cap, dev)
    ensures r.None? ==> forall b :: b in bs ==> !Able(b, cap, dev)
  {
    if bs == [] then None
    else if Able(bs[0], cap, dev) then Some(bs[0])
    else Pick(bs[1..], cap, dev)
  }

  /** Nothing before the picked backend was able. */
  lemma {:induction false} PickIsFirst(bs: seq<Backend>, cap: Capability, dev: Registry.Device)
    ensures match Pick(bs, cap, dev)
      case Some(b) => exists i :: 0 <= i < |bs| && bs[i] == b && forall j :: 0 <= j < i ==> !Able(bs[j], cap, dev)
      case None => forall j :: 0 <= j < |bs| ==> !Able(bs[j], cap, dev)
  {
    if bs != [] && !Able(bs[0], cap, dev) {
      PickIsFirst(bs[1..], cap, dev);
      if Pick(bs, cap, dev).Some? {
        var i :| 0 <= i < |bs[1..]| && bs[1..][i] == Pick(bs, cap, dev).value
          && forall j :: 0 <= j < i ==> !Able(bs[1..][j], cap, dev);
        assert bs[i + 1] == Pick(bs, cap, dev).value;
        forall j | 0 <= j < i + 1
          ensures !Able(bs[j], cap, dev)
        {
          assert j > 0 ==> bs[j] == bs[1..][j - 1];
        }
      }
    }
  }

  predicate PicksName(bs: seq<Backend>, cap: Capability, dev: Registry.Device, name: string) {
    Pick(bs, cap, dev).Some? && Pick(bs, cap, dev).value.name == name
  }

  /** The capabilities assigned to a name, in order. */
  function Share(bs: seq<Backend>, dev: Registry.Device, needed: seq<Capability>, name: string): seq<Capability> {
    if needed == [] then []
    else
      var cap := needed[|needed| - 1];
      Share(bs, dev, needed[..|needed| - 1], name) + if PicksName(bs, cap, dev, name) then [cap] else []
  }

  function Unsatisfied(bs: seq<Backend>, dev: Registry.Device, needed: seq<Capability>): seq<Capability> {
    if needed == [] then []
    else
      var cap := needed[|needed| - 1];
      Unsatisfied(bs, dev, needed[..|needed| - 1]) + if Pick(bs, cap, dev).None? then [cap] else []
  }

  /** The names that got something, in the order they first did. */
  function Order(bs: seq<Backend>, dev: Registry.Device, needed: seq<Capability>): seq<string> {
    if needed == [] then []
    else
      var front := Order(bs, dev, needed[..|needed| - 1]);
      match Pick(bs, needed[|needed| - 1], dev)
      case Some(b) => if b.name in front then front else front + [b.name]
      case None => front
  }

  /** byName[name]: the last backend registered under the name. */
  function ByName(bs: seq<Backend>, name: string): Option<Backend> {
    if bs == [] then None
    else if bs[|bs| - 1].name == name then Some(bs[|bs| - 1])
    else ByName(bs[..|bs| - 1], name)
  }

  function Dispatches(bs: seq<Backend>, dev: Registry.Device, policy: Policy.ResolvedPolicy, needed: seq<Capability>,
                      names: seq<string>): (r: seq<Dispatch>)
    ensures |r| == |names|
    ensures forall i :: 0 <= i < |names| ==> r[i] == Dispatch(names[i], Slice(policy, Share(bs, dev, needed, names[i])))
  {
    seq(|names|, i requires 0 <= i < |names| => Dispatch(names[i], Slice(policy, Share(bs, dev, needed, names[i]))))
  }

  function Outcomes(name: string, rs: seq<PerRule>): (r: seq<RuleOutcome>)
    ensures |r| == |rs|
    ensures forall i :: 0 <= i < |rs| ==> r[i] == RuleOutcome(rs[i].cap, name, rs[i].outcome, rs[i].error, rs[i].note)
  {
    seq(|rs|, i requires 0 <= i < |rs| => RuleOutcome(rs[i].cap, name, rs[i].outcome, rs[i].error, rs[i].note))
  }

  /** What the backend registered under the dispatch's name reports. */
  function Reported(bs: seq<Backend>, id: Registry.DeviceId, d: Dispatch): seq<PerRule> {
    match ByName(bs, d.backend)
    case Some(b) => b.report(id, d.slice)
    case None => []
  }

  function DispatchedRules(bs: seq<Backend>, id: Registry.DeviceId, sent: seq<Dispatch>): seq<RuleOutcome> {
    if sent == [] then []
    else
      var d := sent[|sent| - 1];
      DispatchedRules(bs, id, sent[..|sent| - 1]) + Outcomes(d.backend, Reported(bs, id, d))
  }

  function Gap(cap: Capability): RuleOutcome {
    RuleOutcome(cap, "", UNENFORCEABLE, "", "no registered backend can apply this capability to this device")
  }

  function Gaps(caps: seq<Capability>): (r: seq<RuleOutcome>)
    ensures |r| == |caps| && forall i :: 0 <= i < |caps| ==> r[i] == Gap(caps[i])
  {
    seq(|caps|, i requires 0 <= i < |caps| => Gap(caps[i]))
  }

  // ---- Enforce --------------------------------------------------------------------------

  /** The three successive loops, for a device and its sorted needs. */
  method Split(bs: seq<Backend>, dev: Registry.Device, id: Registry.DeviceId, policy: Policy.ResolvedPolicy,
               needed: seq<Capability>)
    returns (rules: seq<RuleOutcome>, sent: seq<Dispatch>)
    ensures sent == Dispatches(bs, dev, policy, needed, Order(bs, dev, needed))
    ensures rules == DispatchedRules(bs, id, sent) + Gaps(Unsatisfied(bs, dev, needed))
  {
    hide Share, Order, Unsatisfied, ByName;
    var assignments, backendOrder, unsatisfied := Assign(bs, dev, needed);
    var byName := IndexByName(bs);
    rules, sent := [], [];
    for i := 0 to |backendOrder|
      invariant sent == Dispatches(bs, dev, policy, needed, backendOrder[..i])
      invariant rules == DispatchedRules(bs, id, sent)
    {
      var name := backendOrder[i];
      var d := Dispatch(name, Slice(policy, Lookup(assignments, name)));
      assert sent + [d] == Dispatches(bs, dev, policy, needed, backendOrder[..i + 1]);
      assert (sent + [d])[..i] == sent;
      sent := sent + [d];
      if name in byName {
        rules := rules + Outcomes(name, byName[name].report(id, d.slice));
      }
    }
    assert backendOrder[..|backendOrder|] == backendOrder;
    rules := rules + Gaps(unsatisfied);
  }

  method IndexByName(bs: seq<Backend>) returns (byName: map<string, Backend>)
    ensures forall name :: ByName(bs, name) == if name in byName then Some(byName[name]) else None
  {
    byName := map[];
    for i := 0 to |bs|
      invariant forall name :: ByName(bs[..i], name) == if name in byName then Some(byName[name]) else None
    {
      assert bs[..i + 1][..i] == bs[..i];
      byName := byName[bs[i].name := bs[i]];
    }
    assert bs[..|bs|] == bs;
  }

  function Lookup(assignments: map<string, seq<Capability>>, name: string): seq<Capability> {
    if name in assignments then assignments[name] else []
  }

  ghost predicate Assigned(bs: seq<Backend>, dev: Registry.Device, needed: seq<Capability>,
                           assignments: map<string, seq<Capability>>, backendOrder: seq<string>)
  {
    && (forall name :: name in assignments <==> name in backendOrder)
    && forall name :: Lookup(assignments, name) == Share(bs, dev, needed, name)
  }

  lemma AssignedMore(bs: seq<Backend>, dev: Registry.Device, needed: seq<Capability>, i: nat,
                     assignments: map<string, seq<Capability>>, backendOrder: seq<string>)
    requires i < |needed| && Assigned(bs, dev, needed[..i], assignments, backendOrder)
    ensures var cap := needed[i]; match Pick(bs, cap, dev)
      case None => Assigned(bs, dev, needed[..i + 1], assignments, backendOrder)
      case Some(b) => Assigned(bs, dev, needed[..i + 1], assignments[b.name := Lookup(assignments, b.name) + [cap]],
                               if b.name in backendOrder then backendOrder else backendOrder + [b.name])
  {
    hide Pick;
    var cap := needed[i];
    assert needed[..i + 1][..i] == needed[..i];
    match Pick(bs, cap, dev)
    case None =>
    case Some(b) =>
      var after := assignments[b.name := Lookup(assignments, b.name) + [cap]];
      forall name
        ensures Lookup(after, name) == Share(bs, dev, needed[..i + 1], name)
      {
        assert PicksName(bs, cap, dev, name) <==> name == b.name;
        assert Lookup(assignments, name) == Share(bs, dev, needed[..i], name);
      }
  }

  method Assign(bs: seq<Backend>, dev: Registry.Device, needed: seq<Capability>)
    returns (assignments: map<string, seq<Capability>>, backendOrder: seq<string>, unsatisfied: seq<Capability>)
    ensures backendOrder == Order(bs, dev, needed)
    ensures unsatisfied == Unsatisfied(bs, dev, needed)
    ensures Assigned(bs, dev, needed, assignments, backendOrder)
  {
    hide Pick, Share, Assigned;
    assignments, backendOrder, unsatisfied := map[], [], [];
    NothingAssigned(bs, dev, needed);
    for i := 0 to |needed|
      invariant backendOrder == Order(bs, dev, needed[..i])
      invariant unsatisfied == Unsatisfied(bs, dev, needed[..i])
      invariant Assigned(bs, dev, needed[..i], assignments, backendOrder)
    {
      var cap := needed[i];
      assert needed[..i + 1][..i] == needed[..i];
      AssignedMore(bs, dev, needed, i, assignments, backendOrder);
      var b := Pick(bs, cap, dev);
      if b.None? {
        unsatisfied := unsatisfied + [cap];
      } else {
        var name := b.value.name;
        if name !in backendOrder {
          backendOrder := backendOrder + [name];
        }
        assignments := assignments[name := Lookup(assignments, name) + [cap]];
      }
    }
    assert needed[..|needed|] == needed;
  }

  lemma NothingAssigned(bs: seq<Backend>, dev: Registry.Device, needed: seq<Capability>)
    ensures Assigned(bs, dev, needed[..0], map[], [])
  {
  }

  /** Enforce's answer: no rule at all when a lookup fails, else the split of the sorted needs. */
  ghost predicate Enforced(bs: seq<Backend>, r: Policy.Resolver, id: Registry.DeviceId, at: Time,
                           rules: seq<RuleOutcome>, sent: seq<Dispatch>, failed: bool)
  {
    exists resolved, unresolved :: Policy.Resolves(r, id, at, resolved, unresolved) &&
      match r.device(id)
      case Err(_) => failed && rules == [] && sent == []
      case Ok(dev) =>
        if unresolved then failed && rules == [] && sent == []
        else
          var needed := Sort(resolved.requiredCaps);
          && !failed
          && sent == Dispatches(bs, dev, resolved.(requiredCaps := needed), needed, Order(bs, dev, needed))
          && rules == DispatchedRules(bs, id, sent) + Gaps(Unsatisfied(bs, dev, needed))
  }

  method Enforce(bs: seq<Backend>, r: Policy.Resolver, id: Registry.DeviceId, at: Time)
    returns (rules: seq<RuleOutcome>, sent: seq<Dispatch>, failed: bool)
    ensures Enforced(bs, r, id, at, rules, sent, failed)
  {
    var dev := r.device(id);
    var resolved, unresolved := Policy.Resolve(r, id, at);
    if dev.Err? {
      return [], [], true;
    }
    if unresolved {
      return [], [], true;
    }
    // The sort happens in the resolved policy's own slice, so the policy passed on is sorted too.
    var caps := resolved.requiredCaps;
    var a := new Capability[|caps|](i requires 0 <= i < |caps| => caps[i]);
    assert a[..] == caps;
    SortCaps(a);
    var needed := a[..];
    rules, sent := Split(bs, dev.value, id, resolved.(requiredCaps := needed), needed);
    failed := false;
  }

  // ---- completeness ---------------------------------------------------------------------

  /** Every report covers exactly the capabilities of the slice, each once. */
  ghost predicate Faithful(bs: seq<Backend>) {
    forall b, id, slice :: b in bs ==> multiset(ReportedCaps(b.report(id, slice))) == multiset(slice.caps)
  }

  function CapsOf<R>(rs: seq<R>, cap: R -> Capability): (r: seq<Capability>)
    ensures |r| == |rs| && forall i :: 0 <= i < |rs| ==> r[i] == cap(rs[i])
  {
    seq(|rs|, i requires 0 <= i < |rs| => cap(rs[i]))
  }

  function ReportedCaps(rs: seq<PerRule>): seq<Capability> {
    CapsOf(rs, (r: PerRule) => r.cap)
  }

  function RuleCaps(rs: seq<RuleOutcome>): seq<Capability> {
    CapsOf(rs, (r: RuleOutcome) => r.cap)
  }

  function Names(bs: seq<Backend>): (r: seq<string>)
    ensures |r| == |bs| && forall i :: 0 <= i < |bs| ==> r[i] == bs[i].name
  {
    seq(|bs|, i requires 0 <= i < |bs| => bs[i].name)
  }

  lemma {:induction false} ByNameFinds(bs: seq<Backend>, b: Backend)
    requires Distinct(Names(bs)) && b in bs
    ensures ByName(bs, b.name) == Some(b)
  {
    var last := bs[|bs| - 1];
    if last != b {
      var front := bs[..|bs| - 1];
      assert bs == front + [last];
      var i :| 0 <= i < |front| && front[i] == b;
      assert Names(bs)[i] != Names(bs)[|front|];
      assert Names(front) == Names(bs)[..|front|];
      ByNameFinds(front, b);
    }
  }

  /** Some needed capability picks a backend of this name. */
  ghost predicate Wanted(bs: seq<Backend>, dev: Registry.Device, needed: seq<Capability>, name: string) {
    exists cap :: cap in needed && PicksName(bs, cap, dev, name)
  }

  lemma WantedMore(bs: seq<Backend>, dev: Registry.Device, front: seq<Capability>, cap: Capability, name: string)
    ensures Wanted(bs, dev, front + [cap], name) <==> Wanted(bs, dev, front, name) || PicksName(bs, cap, dev, name)
  {
    hide PicksName;
    if PicksName(bs, cap, dev, name) {
      assert cap in front + [cap];
    }
    if x :| x in front && PicksName(bs, x, dev, name) {
      assert x in front + [cap];
    }
  }

  /** A name gets its turn exactly when some needed capability picks it, and only once. */
  lemma {:induction false} OrderExact(bs: seq<Backend>, dev: Registry.Device, needed: seq<Capability>)
    ensures Distinct(Order(bs, dev, needed))
    ensures forall name :: name in Order(bs, dev, needed) <==> Wanted(bs, dev, needed, name)
  {
    hide Pick, Wanted;
    if needed == [] {
      forall name
        ensures !Wanted(bs, dev, needed, name)
      {
        NothingWanted(bs, dev, name);
      }
    } else {
      var front, cap := needed[..|needed| - 1], needed[|needed| - 1];
      assert needed == front + [cap];
      OrderExact(bs, dev, front);
      forall name
        ensures name in Order(bs, dev, needed) <==> Wanted(bs, dev, needed, name)
      {
        WantedMore(bs, dev, front, cap, name);
      }
    }
  }

  lemma NothingWanted(bs: seq<Backend>, dev: Registry.Device, name: string)
    ensures !Wanted(bs, dev, [], name)
  {
  }

  lemma {:induction false} ShareMembers(bs: seq<Backend>, dev: Registry.Device, needed: seq<Capability>, name: string)
    ensures forall cap :: cap in Share(bs, dev, needed, name) <==> cap in needed && PicksName(bs, cap, dev, name)
  {
    hide PicksName;
    if needed != [] {
      var front, cap := needed[..|needed| - 1], needed[|needed| - 1];
      assert needed == front + [cap];
      ShareMembers(bs, dev, front, name);
    }
  }

  /** All shares together, as a bag. */
  ghost function Shares(bs: seq<Backend>, dev: Registry.Device, needed: seq<Capability>,
                        names: seq<string>): multiset<Capability> {
    if names == [] then multiset{}
    else Shares(bs, dev, needed, names[..|names| - 1]) + multiset(Share(bs, dev, needed, names[|names| - 1]))
  }

  lemma {:induction false} SharesOfNothing(bs: seq<Backend>, dev: Registry.Device, names: seq<string>)
    ensures Shares(bs, dev, [], names) == multiset{}
  {
    if names != [] {
      SharesOfNothing(bs, dev, names[..|names| - 1]);
    }
  }

  lemma {:induction false} SharesOneMore(bs: seq<Backend>, dev: Registry.Device, needed: seq<Capability>,
                                         cap: Capability, names: seq<string>)
    requires Distinct(names)
    ensures Shares(bs, dev, needed + [cap], names) ==
            Shares(bs, dev, needed, names) +
            if exists name :: name in names && PicksName(bs, cap, dev, name) then multiset{cap} else multiset{}
    decreases |names|
  {
    hide Pick;
    if names != [] {
      var front, name := names[..|names| - 1], names[|names| - 1];
      assert names == front + [name];
      SharesOneMore(bs, dev, needed, cap, front);
      assert (needed + [cap])[..|needed|] == needed;
      if PicksName(bs, cap, dev, name) {
        forall other | other in front
          ensures !PicksName(bs, cap, dev, other)
        {
        }
      }
    }
  }

  /** Shares and gaps together are the needs. */
  lemma {:induction false} NothingLost(bs: seq<Backend>, dev: Registry.Device, needed: seq<Capability>,
                                       names: seq<string>)
    requires Distinct(names)
    requires forall cap :: cap in needed && Pick(bs, cap, dev).Some? ==> Pick(bs, cap, dev).value.name in names
    ensures Shares(bs, dev, needed, names) + multiset(Unsatisfied(bs, dev, needed)) == multiset(needed)
    decreases |needed|
  {
    hide Pick;
    if needed == [] {
      SharesOfNothing(bs, dev, names);
    } else {
      var front, cap := needed[..|needed| - 1], needed[|needed| - 1];
      assert needed == front + [cap];
      NothingLost(bs, dev, front, names);
      SharesOneMore(bs, dev, front, cap, names);
      if Pick(bs, cap, dev).Some? {
        assert PicksName(bs, cap, dev, Pick(bs, cap, dev).value.name);
      }
    }
  }

  lemma RuleCapsAppend(xs: seq<RuleOutcome>, name: string, rs: seq<PerRule>)
    ensures multiset(RuleCaps(xs + Outcomes(name, rs))) == multiset(RuleCaps(xs)) + multiset(ReportedCaps(rs))
  {
    assert RuleCaps(Outcomes(name, rs)) == ReportedCaps(rs);
    assert RuleCaps(xs + Outcomes(name, rs)) == RuleCaps(xs) + RuleCaps(Outcomes(name, rs));
  }

  lemma DispatchesPrefix(bs: seq<Backend>, dev: Registry.Device, policy: Policy.ResolvedPolicy,
                         needed: seq<Capability>, names: seq<string>)
    requires names != []
    ensures var n := |names| - 1;
      var sent := Dispatches(bs, dev, policy, needed, names);
      sent[..n] == Dispatches(bs, dev, policy, needed, names[..n]) && sent[n].backend == names[n]
      && sent[n].slice.caps == Share(bs, dev, needed, names[n])
  {
    hide Share;
  }

  lemma {:induction false} DispatchedBag(bs: seq<Backend>, dev: Registry.Device, id: Registry.DeviceId,
                                         policy: Policy.ResolvedPolicy, needed: seq<Capability>, names: seq<string>)
    requires Faithful(bs) && forall name :: name in names ==> ByName(bs, name).Some? && ByName(bs, name).value in bs
    ensures multiset(RuleCaps(DispatchedRules(bs, id, Dispatches(bs, dev, policy, needed, names)))) ==
      Shares(bs, dev, needed, names)
    decreases |names|
  {
    hide Share, ByName, ReportedCaps, RuleCaps, Outcomes, Dispatches;
    if names == [] {
      NoRuleCaps();
    } else {
      var n := |names| - 1;
      var sent := Dispatches(bs, dev, policy, needed, names);
      DispatchesPrefix(bs, dev, policy, needed, names);
      DispatchedBag(bs, dev, id, policy, needed, names[..n]);
      RuleCapsAppend(DispatchedRules(bs, id, sent[..n]), names[n], Reported(bs, id, sent[n]));
    }
  }

  lemma NoRuleCaps()
    ensures multiset(RuleCaps([])) == multiset{}
  {
  }

  lemma OrderedNamesExist(bs: seq<Backend>, dev: Registry.Device, needed: seq<Capability>)
    requires Distinct(Names(bs))
    ensures forall name :: name in Order(bs, dev, needed) ==>
      ByName(bs, name).Some? && ByName(bs, name).value in bs && ByName(bs, name).value.name == name
  {
    hide ByName, Pick, Order;
    OrderExact(bs, dev, needed);
    forall name | name in Order(bs, dev, needed)
      ensures ByName(bs, name).Some? && ByName(bs, name).value in bs && ByName(bs, name).value.name == name
    {
      var cap :| cap in needed && PicksName(bs, cap, dev, name);
      ByNameFinds(bs, Pick(bs, cap, dev).value);
    }
  }

  /** The rules of one Enforce. */
  ghost function Rules(bs: seq<Backend>, dev: Registry.Device, id: Registry.DeviceId, policy: Policy.ResolvedPolicy,
                       needed: seq<Capability>): seq<RuleOutcome> {
    DispatchedRules(bs, id, Dispatches(bs, dev, policy, needed, Order(bs, dev, needed)))
      + Gaps(Unsatisfied(bs, dev, needed))
  }

  /** Completeness: every needed capability is answered for exactly once. */
  lemma EveryNeedIsAnswered(bs: seq<Backend>, dev: Registry.Device, id: Registry.DeviceId,
                            policy: Policy.ResolvedPolicy, needed: seq<Capability>)
    requires Distinct(Names(bs)) && Faithful(bs)
    ensures multiset(RuleCaps(Rules(bs, dev, id, policy, needed))) == multiset(needed)
  {
    hide Order, Share, Shares, ByName, Pick, DispatchedRules, Unsatisfied;
    var names := Order(bs, dev, needed);
    OrderedNamesExist(bs, dev, needed);
    OrderExact(bs, dev, needed);
    DispatchedBag(bs, dev, id, policy, needed, names);
    forall cap | cap in needed && Pick(bs, cap, dev).Some?
      ensures Pick(bs, cap, dev).value.name in names
    {
      assert PicksName(bs, cap, dev, Pick(bs, cap, dev).value.name);
    }
    NothingLost(bs, dev, needed, names);
    var sent := DispatchedRules(bs, id, Dispatches(bs, dev, policy, needed, names));
    var gaps := Unsatisfied(bs, dev, needed);
    assert RuleCaps(Gaps(gaps)) == gaps;
    assert RuleCaps(sent + Gaps(gaps)) == RuleCaps(sent) + RuleCaps(Gaps(gaps));
  }

  /** A rule answers for its capability in the name of the backend that should. */
  ghost predicate RightBackend(bs: seq<Backend>, dev: Registry.Device, r: RuleOutcome) {
    match Pick(bs, r.cap, dev)
    case Some(b) => r.backend == b.name
    case None => r.backend == "" && r.outcome == UNENFORCEABLE
  }

  lemma {:induction false} DispatchedRight(bs: seq<Backend>, dev: Registry.Device, id: Registry.DeviceId,
                                           policy: Policy.ResolvedPolicy, needed: seq<Capability>, names: seq<string>)
    requires Faithful(bs) && forall name :: name in names ==> ByName(bs, name).Some? && ByName(bs, name).value in bs
    ensures forall r :: r in DispatchedRules(bs, id, Dispatches(bs, dev, policy, needed, names)) ==>
      PicksName(bs, r.cap, dev, r.backend)
    decreases |names|
  {
    hide Share, ByName, PicksName;
    if names != [] {
      var front, name := names[..|names| - 1], names[|names| - 1];
      var sent := Dispatches(bs, dev, policy, needed, names);
      assert sent[..|sent| - 1] == Dispatches(bs, dev, policy, needed, front);
      DispatchedRight(bs, dev, id, policy, needed, front);
      var d := Dispatch(name, Slice(policy, Share(bs, dev, needed, name)));
      var rs := Reported(bs, id, d);
      ShareMembers(bs, dev, needed, name);
      forall r | r in Outcomes(name, rs)
        ensures PicksName(bs, r.cap, dev, r.backend)
      {
        var i :| 0 <= i < |rs| && r == Outcomes(name, rs)[i];
        assert ReportedCaps(rs)[i] in multiset(ReportedCaps(rs));
        assert r.cap in multiset(d.slice.caps);
      }
    }
  }

  lemma {:induction false} UnsatisfiedMembers(bs: seq<Backend>, dev: Registry.Device, needed: seq<Capability>)
    ensures forall cap :: cap in Unsatisfied(bs, dev, needed) <==> cap in needed && Pick(bs, cap, dev).None?
  {
    hide Pick;
    if needed != [] {
      var front, cap := needed[..|needed| - 1], needed[|needed| - 1];
      assert needed == front + [cap];
      UnsatisfiedMembers(bs, dev, front);
    }
  }

  /**
   * Every rule names the first listed backend that declares the capability and can handle the
   * device, and says "unenforceable" under no name exactly when there is none.
   */
  lemma EveryRuleNamesItsBackend(bs: seq<Backend>, dev: Registry.Device, id: Registry.DeviceId,
                                 policy: Policy.ResolvedPolicy, needed: seq<Capability>)
    requires Distinct(Names(bs)) && Faithful(bs)
    ensures forall r :: r in Rules(bs, dev, id, policy, needed) ==> RightBackend(bs, dev, r)
  {
    hide Order, Share, ByName, Pick, DispatchedRules, Unsatisfied;
    OrderedNamesExist(bs, dev, needed);
    DispatchedRight(bs, dev, id, policy, needed, Order(bs, dev, needed));
    UnsatisfiedMembers(bs, dev, needed);
    var gaps := Unsatisfied(bs, dev, needed);
    forall r | r in Gaps(gaps)
      ensures RightBackend(bs, dev, r)
    {
      var i :| 0 <= i < |gaps| && r == Gaps(gaps)[i];
      assert gaps[i] in gaps;
    }
  }

  /** Each backend is applied at most once, never in vain, and with exactly the capabilities that pick it. */
  lemma EachBackendAppliedOnce(bs: seq<Backend>, dev: Registry.Device, policy: Policy.ResolvedPolicy,
                               needed: seq<Capability>)
    ensures var sent := Dispatches(bs, dev, policy, needed, Order(bs, dev, needed));
      && (forall i, j :: 0 <= i < j < |sent| ==> sent[i].backend != sent[j].backend)
      && forall d :: d in sent ==>
           d.slice.caps != [] &&
           forall cap :: cap in d.slice.caps <==> cap in needed && PicksName(bs, cap, dev, d.backend)
  {
    hide Order, Share, PicksName;
    OrderExact(bs, dev, needed);
    var names := Order(bs, dev, needed);
    var sent := Dispatches(bs, dev, policy, needed, names);
    forall d | d in sent
      ensures d.slice.caps != []
      ensures forall cap :: cap in d.slice.caps <==> cap in needed && PicksName(bs, cap, dev, d.backend)
    {
      var i :| 0 <= i < |sent| && sent[i] == d;
      assert names[i] in names;
      ShareMembers(bs, dev, needed, names[i]);
      var cap :| cap in needed && PicksName(bs, cap, dev, names[i]);
      assert cap in d.slice.caps;
    }
  }

  lemma ResolvesUnique(r: Policy.Resolver, id: Registry.DeviceId, at: Time, a: Policy.ResolvedPolicy, failedA: bool,
                       b: Policy.ResolvedPolicy, failedB: bool)
    requires Policy.Resolves(r, id, at, a, failedA) && Policy.Resolves(r, id, at, b, failedB)
    ensures a == b && failedA == failedB
  {
  }

  /**
   * Enforce as a whole: when the device and its policy resolve, the rules answer for exactly
   * the policy's required capabilities, each by the first backend able to, or by none.
   */
  lemma EnforceIsComplete(bs: seq<Backend>, r: Policy.Resolver, id: Registry.DeviceId, at: Time,
                          rules: seq<RuleOutcome>, sent: seq<Dispatch>, failed: bool,
                          dev: Registry.Device, resolved: Policy.ResolvedPolicy)
    requires Distinct(Names(bs)) && Faithful(bs)
    requires Enforced(bs, r, id, at, rules, sent, failed)
    requires r.device(id) == Ok(dev) && Policy.Resolves(r, id, at, resolved, false)
    ensures !failed
    ensures multiset(RuleCaps(rules)) == multiset(resolved.requiredCaps)
    ensures forall rule :: rule in rules ==> RightBackend(bs, dev, rule)
  {
    hide Policy.Resolves, RightBackend, Dispatches, DispatchedRules, Order, Unsatisfied, Sort, Distinct, Faithful;
    var again, unresolved :| Policy.Resolves(r, id, at, again, unresolved) &&
      match r.device(id)
      case Err(_) => failed && rules == [] && sent == []
      case Ok(d) =>
        if unresolved then failed && rules == [] && sent == []
        else
          var needed := Sort(again.requiredCaps);
          && !failed
          && sent == Dispatches(bs, d, again.(requiredCaps := needed), needed, Order(bs, d, needed))
          && rules == DispatchedRules(bs, id, sent) + Gaps(Unsatisfied(bs, d, needed));
    ResolvesUnique(r, id, at, again, unresolved, resolved, false);
    var needed := Sort(resolved.requiredCaps);
    var policy := resolved.(requiredCaps := needed);
    EveryNeedIsAnswered(bs, dev, id, policy, needed);
    EveryRuleNamesItsBackend(bs, dev, id, policy, needed);
  }

  // ---- order ----------------------------------------------------------------------------

  /** Backends are applied in the order of the first capability each of them gets. */
  lemma {:induction false} OrderIsFirstUse(bs: seq<Backend>, dev: Registry.Device, needed: seq<Capability>,
                                           i: nat, j: nat)
    requires i < j < |Order(bs, dev, needed)|
    ensures var names := Order(bs, dev, needed);
      exists k :: 0 <= k < |needed| && PicksName(bs, needed[k], dev, names[i])
        && forall l :: 0 <= l <= k ==> !PicksName(bs, needed[l], dev, names[j])
  {
    var n := |needed| - 1;
    var front := needed[..n];
    var names, before := Order(bs, dev, needed), Order(bs, dev, front);
    OrderExact(bs, dev, front);
    hide Pick;
    if j < |before| {
      OrderIsFirstUse(bs, dev, front, i, j);
      var k :| 0 <= k < n && PicksName(bs, front[k], dev, names[i])
        && forall l :: 0 <= l <= k ==> !PicksName(bs, front[l], dev, names[j]);
      assert forall l :: 0 <= l <= k ==> needed[l] == front[l];
    } else {
      assert names[i] in before && names[j] !in before;
      var cap :| cap in front && PicksName(bs, cap, dev, names[i]);
      var k :| 0 <= k < n && front[k] == cap;
      forall l | 0 <= l <= k
        ensures !PicksName(bs, needed[l], dev, names[j])
      {
        assert needed[l] == front[l] && front[l] in front;
      }
    }
  }

  /** Shares and the unsatisfied rest are taken capability by capability, in the order of the needs. */
  lemma {:induction false} SharesKeepOrder(bs: seq<Backend>, dev: Registry.Device, xs: seq<Capability>,
                                           ys: seq<Capability>, name: string)
    ensures Share(bs, dev, xs + ys, name) == Share(bs, dev, xs, name) + Share(bs, dev, ys, name)
    ensures Unsatisfied(bs, dev, xs + ys) == Unsatisfied(bs, dev, xs) + Unsatisfied(bs, dev, ys)
    decreases |ys|
  {
    hide Pick;
    if ys == [] {
      assert xs + ys == xs;
    } else {
      var front := ys[..|ys| - 1];
      assert (xs + ys)[..|xs + ys| - 1] == xs + front;
      SharesKeepOrder(bs, dev, xs, front, name);
    }
  }

  /** The rules follow the order of the calls. */
  lemma {:induction false} RulesKeepOrder(bs: seq<Backend>, id: Registry.DeviceId, xs: seq<Dispatch>,
                                          ys: seq<Dispatch>)
    ensures DispatchedRules(bs, id, xs + ys) == DispatchedRules(bs, id, xs) + DispatchedRules(bs, id, ys)
    decreases |ys|
  {
    hide Reported, Outcomes;
    if ys == [] {
      assert xs + ys == xs;
    } else {
      var front := ys[..|ys| - 1];
      assert (xs + ys)[..|xs + ys| - 1] == xs + front;
      RulesKeepOrder(bs, id, xs, front);
    }
  }

  /** A dispatch's rules repeat what its backend reports, item by item, under the backend's name. */
  lemma RulesRepeatReport(bs: seq<Backend>, id: Registry.DeviceId, b: Backend, slice: Slice)
    requires Distinct(Names(bs)) && b in bs
    ensures var rules, report := DispatchedRules(bs, id, [Dispatch(b.name, slice)]), b.report(id, slice);
      && |rules| == |report|
      && forall i :: 0 <= i < |rules| ==>
           && rules[i].cap == report[i].cap && rules[i].backend == b.name && rules[i].outcome == report[i].outcome
           && rules[i].error == report[i].error && rules[i].note == report[i].note
  {
    hide Distinct, ByName;
    ByNameFinds(bs, b);
    OneDispatch(bs, id, Dispatch(b.name, slice));
    hide DispatchedRules;
  }

  lemma OneDispatch(bs: seq<Backend>, id: Registry.DeviceId, d: Dispatch)
    ensures DispatchedRules(bs, id, [d]) == Outcomes(d.backend, Reported(bs, id, d))
  {
    hide Reported;
    var rest := [d][..0];
    assert rest == [];
    assert DispatchedRules(bs, id, rest) == [];
  }

  /** A gap is reported under no name, as unenforceable, without an error and with a note. */
  lemma GapsSaySo(caps: seq<Capability>, i: nat)
    requires i < |caps|
    ensures var rule := Gaps(caps)[i];
      && rule.cap == caps[i] && rule.backend == "" && rule.outcome == "unenforceable" && rule.error == ""
      && rule.note == "no registered backend can apply this capability to this device"
  {
  }
}
