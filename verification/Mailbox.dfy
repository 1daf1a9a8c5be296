/**
 * The agent backend's mailbox: one slot a device, filled by Apply, emptied by Revoke, and read
 * once by PullPending. Every operation on the shared map is atomic, so what concurrent handlers
 * can do is any sequence of operations.
 */
module Mailbox {
  import opened Prelude
  import opened Coordinator
  import Registry

  type DeviceId = Registry.DeviceId

  datatype Op = Apply(device: DeviceId, slice: Slice) | Revoke(device: DeviceId) | Pull(device: DeviceId)

  function Applied(pending: map<DeviceId, Slice>, op: Op): map<DeviceId, Slice> {
    match op
    case Apply(d, slice) => pending[d := slice]
    case Revoke(d) => pending - {d}
    case Pull(d) => pending - {d}
  }

  function Slot(pending: map<DeviceId, Slice>, d: DeviceId): Option<Slice> {
    if d in pending then Some(pending[d]) else None
  }

  /** The agent backend: it can handle a device that was issued a token. */
  predicate CanHandle(dev: Registry.Device) {
    dev.token.Some? && dev.token.value != ""
  }

  function Queued(caps: seq<Capability>): (r: seq<PerRule>)
    ensures |r| == |caps|
    ensures forall i :: 0 <= i < |caps| ==> r[i] == PerRule(caps[i], "applied", "", "queued for agent pickup")
  {
    seq(|caps|, i requires 0 <= i < |caps| => PerRule(caps[i], "applied", "", "queued for agent pickup"))
  }

  class AgentBackend {
    var pending: map<DeviceId, Slice>

    constructor ()
      ensures pending == map[]
    {
      pending := map[];
    }

    method Apply(device: DeviceId, slice: Slice) returns (r: seq<PerRule>)
      modifies this
      ensures pending == Applied(old(pending), Op.Apply(device, slice))
      ensures r == Queued(slice.caps)
    {
      pending := pending[device := slice];
      r := [];
      for i := 0 to |slice.caps|
        invariant r == Queued(slice.caps[..i])
      {
        r := r + [PerRule(slice.caps[i], "applied", "", "queued for agent pickup")];
      }
      assert slice.caps[..|slice.caps|] == slice.caps;
    }

    method Revoke(device: DeviceId)
      modifies this
      ensures pending == Applied(old(pending), Op.Revoke(device))
    {
      pending := pending - {device};
    }

    method PullPending(device: DeviceId) returns (r: Option<Slice>)
      modifies this
      ensures r == Slot(old(pending), device)
      ensures pending == Applied(old(pending), Pull(device))
    {
      r := Slot(pending, device);
      pending := pending - {device};
    }
  }

  // ---- histories ------------------------------------------------------------------------

  /** The map after a history of operations by any number of handlers. */
  function PendingAfter(h: seq<Op>): map<DeviceId, Slice> {
    if h == [] then map[] else Applied(PendingAfter(h[..|h| - 1]), h[|h| - 1])
  }

  /** What the pull at position i of the history returned. */
  function Answer(h: seq<Op>, i: nat): Option<Slice>
    requires i < |h|
  {
    Slot(PendingAfter(h[..i]), h[i].device)
  }

  /** Position j of the history is an Apply for d that nothing has replaced, revoked or pulled since. */
  ghost predicate Live(h: seq<Op>, d: DeviceId, j: int) {
    && 0 <= j < |h| && h[j].Apply? && h[j].device == d
    && forall k :: j < k < |h| ==> h[k].device != d
  }

  lemma {:induction false} SlotIsLatestApply(h: seq<Op>, d: DeviceId)
    ensures match Slot(PendingAfter(h), d)
      case Some(slice) => exists j :: Live(h, d, j) && h[j].slice == slice
      case None => forall j :: !Live(h, d, j)
  {
    if h != [] {
      var n := |h| - 1;
      var front := h[..n];
      SlotIsLatestApply(front, d);
      if h[n].device == d {
        if h[n].Apply? {
          assert Live(h, d, n);
        }
      } else {
        forall j
          ensures Live(h, d, j) <==> Live(front, d, j)
        {
          if Live(front, d, j) {
            assert forall k :: j < k < n ==> h[k] == front[k];
          }
          if Live(h, d, j) {
            assert h[j] == front[j];
          }
        }
        if Slot(PendingAfter(front), d).Some? {
          var j :| Live(front, d, j) && front[j].slice == Slot(PendingAfter(front), d).value;
          assert Live(h, d, j) && h[j].slice == front[j].slice;
        }
      }
    }
  }

  /** At most one Apply is live for a device. */
  lemma LiveUnique(h: seq<Op>, d: DeviceId, i: int, j: int)
    requires Live(h, d, i) && Live(h, d, j)
    ensures i == j
  {
  }

  /** A pull returns exactly the latest slice applied for its device and not pulled, replaced or revoked since. */
  lemma PullReturnsLatest(h: seq<Op>, i: nat, slice: Slice)
    requires i < |h| && h[i].Pull?
    ensures Answer(h, i) == Some(slice) <==> exists j :: Live(h[..i], h[i].device, j) && h[j].slice == slice
  {
    var before := h[..i];
    SlotIsLatestApply(before, h[i].device);
    if j :| Live(before, h[i].device, j) && h[j].slice == slice {
      var found := Slot(PendingAfter(before), h[i].device);
      assert found.Some?;
      var k :| Live(before, h[i].device, k) && before[k].slice == found.value;
      LiveUnique(before, h[i].device, j, k);
    }
    if Answer(h, i) == Some(slice) {
      var j :| Live(before, h[i].device, j) && before[j].slice == slice;
      assert h[j].slice == slice;
    }
  }

  /** No Apply is delivered twice: two pulls that return something return different ones. */
  lemma NoSecondDelivery(h: seq<Op>, i: nat, k: nat, j: int, l: int)
    requires i < k < |h| && h[i].Pull? && h[k].Pull?
    requires Live(h[..i], h[i].device, j) && Live(h[..k], h[k].device, l)
    ensures j != l
  {
    assert h[..k][i] == h[i];
    assert h[..i][j] == h[j] && h[..k][l] == h[l];
  }

  /** The history as one device sees it. */
  function Project(h: seq<Op>, d: DeviceId): seq<Op> {
    if h == [] then [] else Project(h[..|h| - 1], d) + if h[|h| - 1].device == d then [h[|h| - 1]] else []
  }

  /** Devices do not interfere: a device's slot depends on the operations on that device alone. */
  lemma {:induction false} DevicesIndependent(h: seq<Op>, d: DeviceId)
    ensures Slot(PendingAfter(h), d) == Slot(PendingAfter(Project(h, d)), d)
  {
    if h != [] {
      var front, op := h[..|h| - 1], h[|h| - 1];
      DevicesIndependent(front, d);
      if op.device == d {
        var p := Project(front, d);
        assert (p + [op])[..|p|] == p;
      } else {
        assert Project(h, d) == Project(front, d);
      }
    }
  }
}
