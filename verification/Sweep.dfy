/** The ping sweep: which addresses it visits, and how its goroutines are bounded and awaited. */
module Sweep {
  import opened Prelude

  // ---- enumerateIPs ---------------------------------------------------------------------

  const TWO_8 := 0x100
  const TWO_16 := 0x1_0000
  const TWO_24 := 0x100_0000
  const TWO_32 := 0x1_0000_0000

  /** An IPv4 address, most significant octet first. */
  datatype Quad = Quad(a: int, b: int, c: int, d: int)

  type Address = q: Quad | 0 <= q.a < 256 && 0 <= q.b < 256 && 0 <= q.c < 256 && 0 <= q.d < 256
    witness Quad(0, 0, 0, 0)

  function Value(q: Address): int {
    q.a * TWO_24 + q.b * TWO_16 + q.c * TWO_8 + q.d
  }

  /** byte(v>>24), byte(v>>16), byte(v>>8), byte(v) of a 32-bit v. */
  function FromValue(v: int): Address
    requires 0 <= v < TWO_32
  {
    Quad(v / TWO_24, (v / TWO_16) % 256, (v / TWO_8) % 256, v % 256)
  }

  lemma ValueRoundTrip(v: int)
    requires 0 <= v < TWO_32
    ensures Value(FromValue(v)) == v
  {
    assert v / TWO_16 == 256 * (v / TWO_24) + (v / TWO_16) % 256;
    assert v / TWO_8 == 256 * (v / TWO_16) + (v / TWO_8) % 256;
  }

  /** 1 << k */
  function Power(k: nat): (r: int)
    ensures r >= 1
  {
    if k == 0 then 1 else 2 * Power(k - 1)
  }

  /** A network: an address, and how many of how many mask bits are set. */
  datatype Network = Network(ip: Address, ones: int, bits: int)

  predicate Sweepable(n: Network) {
    n.bits == 32 && 22 <= n.ones <= 30
  }

  /** How many addresses share the network's prefix. */
  function Size(n: Network): int
    requires Sweepable(n)
  {
    Power(32 - n.ones)
  }

  /** The masked address. */
  function Base(n: Network): int
    requires Sweepable(n)
  {
    Value(n.ip) - Value(n.ip) % Size(n)
  }

  lemma SizeDivides(n: Network)
    requires Sweepable(n)
    ensures 4 <= Size(n) <= 1024 && TWO_32 % Size(n) == 0
  {
    assert Power(1) == 2 && Power(2) == 4 && Power(3) == 8 && Power(4) == 16 && Power(5) == 32;
    assert Power(6) == 64 && Power(7) == 128 && Power(8) == 256 && Power(9) == 512 && Power(10) == 1024;
  }

  lemma ValueBounds(q: Address)
    ensures 0 <= Value(q) < TWO_32
  {
  }

  /** The subnet ends at or before the end of the address space, so v += i never wraps. */
  lemma NoOverflow(n: Network)
    requires Sweepable(n)
    ensures 0 <= Base(n) && Base(n) + Size(n) <= TWO_32
  {
    hide Value, Size;
    SizeDivides(n);
    ValueBounds(n.ip);
    MultipleBelow(Value(n.ip), Size(n), TWO_32 / Size(n));
  }

  /** Distinct multiples of size are at least size apart. */
  lemma Spread(size: int, d: int)
    requires size > 0
    ensures d >= 1 ==> size * d >= size
    ensures d <= -1 ==> size * d <= -size
    decreases if d < 0 then -d else d
  {
    if d > 1 {
      Spread(size, d - 1);
      assert size * d == size * (d - 1) + size;
    } else if d < -1 {
      Spread(size, d + 1);
      assert size * d == size * (d + 1) - size;
    }
  }

  lemma MultipleBelow(v: int, size: int, count: int)
    requires size > 0 && 0 <= v < size * count
    ensures 0 <= v - v % size && v - v % size + size <= size * count
  {
    var q := v / size;
    assert v == size * q + v % size;
    assert size * (count - q) == size * count - size * q;
    Spread(size, count - q);
    assert count > q || size * (count - q) <= 0;
  }

  method EnumerateIPs(n: Network) returns (out: seq<Address>)
    ensures !Sweepable(n) ==> out == []
    ensures Sweepable(n) ==> |out| == Size(n) - 2
    ensures Sweepable(n) ==> forall k :: 0 <= k < |out| ==> Value(out[k]) == Base(n) + 1 + k
  {
    if n.bits != 32 || n.ones < 22 || n.ones > 30 {
      return [];
    }
    hide Value, Size, FromValue;
    var count := Size(n);
    var base := Base(n);
    SizeDivides(n);
    NoOverflow(n);
    out := [];
    for i := 1 to count - 1
      invariant |out| == i - 1
      invariant forall k :: 0 <= k < |out| ==> Value(out[k]) == base + 1 + k
    {
      var v := (base + i) % TWO_32;
      ValueRoundTrip(v);
      out := out + [FromValue(v)];
    }
  }

  /** Two addresses share a prefix when they agree above the host bits. */
  predicate SamePrefix(n: Network, q: Address)
    requires Sweepable(n)
  {
    Value(q) - Value(q) % Size(n) == Base(n)
  }

  lemma BlockMember(v: int, base: int, size: int)
    requires size > 0 && base % size == 0
    ensures v - v % size == base <==> base <= v < base + size
  {
    var q, p := v / size, base / size;
    assert v == size * q + v % size;
    assert base == size * p;
    assert size * (q - p) == size * q - size * p;
    Spread(size, q - p);
  }

  lemma BaseIsAligned(n: Network)
    requires Sweepable(n)
    ensures Base(n) % Size(n) == 0
  {
    hide Value, Size;
    SizeDivides(n);
    var v, size := Value(n.ip), Size(n);
    assert v - v % size == size * (v / size);
    AlignedMultiple(size, v / size);
  }

  lemma AlignedMultiple(size: int, q: int)
    requires size > 0
    ensures (size * q) % size == 0
  {
    var v := size * q;
    var r := v % size;
    assert v == size * (v / size) + r;
    assert size * (q - v / size) == r;
    Spread(size, q - v / size);
  }

  /**
   * The enumeration is exactly the subnet without its network and broadcast addresses, in
   * strictly increasing order.
   */
  lemma EnumerationExact(n: Network, out: seq<Address>, q: Address)
    requires Sweepable(n) && |out| == Size(n) - 2
    requires forall k :: 0 <= k < |out| ==> Value(out[k]) == Base(n) + 1 + k
    ensures (exists k :: 0 <= k < |out| && Value(out[k]) == Value(q)) <==>
            SamePrefix(n, q) && Value(q) != Base(n) && Value(q) != Base(n) + Size(n) - 1
    ensures forall i, j :: 0 <= i < j < |out| ==> Value(out[i]) < Value(out[j])
  {
    hide Value, Size, Base;
    SizeDivides(n);
    BaseIsAligned(n);
    BlockMember(Value(q), Base(n), Size(n));
    if SamePrefix(n, q) && Value(q) != Base(n) && Value(q) != Base(n) + Size(n) - 1 {
      var k := Value(q) - Base(n) - 1;
      assert Value(out[k]) == Value(q);
    }
  }

  /** How many addresses are enumerated, prefix by prefix: all of the subnet but two. */
  lemma SizeByPrefix(n: Network)
    requires Sweepable(n)
    ensures (n.ones == 22 ==> Size(n) == 1024) && (n.ones == 23 ==> Size(n) == 512) && (n.ones == 24 ==> Size(n) == 256)
    ensures (n.ones == 25 ==> Size(n) == 128) && (n.ones == 26 ==> Size(n) == 64) && (n.ones == 27 ==> Size(n) == 32)
    ensures (n.ones == 28 ==> Size(n) == 16) && (n.ones == 29 ==> Size(n) == 8) && (n.ones == 30 ==> Size(n) == 4)
  {
    assert Power(1) == 2 && Power(2) == 4 && Power(3) == 8 && Power(4) == 16 && Power(5) == 32;
    assert Power(6) == 64 && Power(7) == 128 && Power(8) == 256 && Power(9) == 512 && Power(10) == 1024;
  }

  /** Where a 32-bit value below a multiple of 2^16 lies, octet by octet. */
  lemma OctetsOf(q: Address, hi: int, low: int)
    requires 0 <= low < 65536 && Value(q) == 65536 * hi + low
    ensures 256 * q.a + q.b == hi && 256 * q.c + q.d == low
  {
  }

  lemma ShiftedMod(size: int, m: int, low: int)
    requires size > 0
    ensures (size * m + low) % size == low % size
  {
    var v := size * m + low;
    var d := v / size - m - low / size;
    assert v == size * (v / size) + v % size && low == size * (low / size) + low % size;
    assert size * d == size * (v / size) - size * m - size * (low / size);
    Spread(size, d);
  }

  lemma MaskedLow(hi: int, low: int, size: int, count: int)
    requires 0 <= low < 65536 && size > 0 && size * count == 65536
    ensures (65536 * hi + low) % size == low % size && low - low % size + size <= 65536
  {
    assert 65536 * hi == size * (count * hi);
    ShiftedMod(size, count * hi, low);
    MultipleBelow(low, size, count);
  }

  lemma SizeCount(n: Network)
    requires Sweepable(n)
    ensures Size(n) * (65536 / Size(n)) == 65536
  {
    SizeByPrefix(n);
    hide Size;
  }

  lemma BaseSplit(n: Network)
    requires Sweepable(n)
    ensures var low := 256 * n.ip.c + n.ip.d;
      && Base(n) == 65536 * (256 * n.ip.a + n.ip.b) + (low - low % Size(n)) && low - low % Size(n) + Size(n) <= 65536
  {
    SizeCount(n);
    SizeDivides(n);
    var hi, low, size := 256 * n.ip.a + n.ip.b, 256 * n.ip.c + n.ip.d, Size(n);
    assert Value(n.ip) == 65536 * hi + low;
    hide Value, Size;
    MaskedLow(hi, low, size, 65536 / size);
  }

  /**
   * The enumerated addresses, octet by octet: the first two octets are the network's; the last two,
   * read as one number, count up from the number after the network's own.
   */
  lemma EnumeratedOctets(n: Network, out: seq<Address>, k: nat)
    requires Sweepable(n) && |out| == Size(n) - 2
    requires forall i :: 0 <= i < |out| ==> Value(out[i]) == Base(n) + 1 + i
    requires k < |out|
    ensures out[k].a == n.ip.a && out[k].b == n.ip.b
    ensures var low, size := 256 * n.ip.c + n.ip.d, |out| + 2;
      256 * out[k].c + out[k].d == low - low % size + 1 + k
  {
    BaseSplit(n);
    SizeDivides(n);
    hide Size, Value, Base;
    var hi, low, size := 256 * n.ip.a + n.ip.b, 256 * n.ip.c + n.ip.d, Size(n);
    ModRange(low, size);
    OctetsOf(out[k], hi, low - low % size + 1 + k);
  }

  lemma ModRange(low: int, size: int)
    requires 0 <= low && size > 0
    ensures 0 <= low - low % size
  {
    assert low == size * (low / size) + low % size;
    MultipleBelow(low, size, low / size + 1);
  }

  /** The common case: the 254 hosts of a /24. */
  lemma EnumeratedSlash24(n: Network, out: seq<Address>, k: nat)
    requires Sweepable(n) && n.ones == 24 && |out| == Size(n) - 2
    requires forall i :: 0 <= i < |out| ==> Value(out[i]) == Base(n) + 1 + i
    requires k < |out|
    ensures |out| == 254 && out[k] == Quad(n.ip.a, n.ip.b, n.ip.c, k + 1)
  {
    SizeByPrefix(n);
    EnumeratedOctets(n, out, k);
    hide Size, Value, Base;
  }

  // ---- PingSweep ------------------------------------------------------------------------

  /** A goroutine: not started, pinging, ping over, slot given back, wait group told. */
  datatype Worker = Idle | Pinging | Pinged | Released | Done

  /** The sweep's own goroutine: at the select for address i, holding a slot, counted in, waiting, back. */
  datatype Sweeper = AtSelect(i: nat) | Holding(i: nat) | Added(i: nat) | Waiting | Returned | Cancelled

  datatype State = State(sweeper: Sweeper, workers: seq<Worker>, slots: int, waiting: int)

  datatype Event =
    | Acquire | Cancel | Add | Launch | LoopEnds | WaitEnds
    | PingEnds(j: nat) | Release(j: nat) | Finish(j: nat)

  function Slots(parallelism: int): int {
    if parallelism <= 0 then 32 else parallelism
  }

  function Start(n: nat): State {
    State(AtSelect(0), seq(n, i => Idle), 0, 0)
  }

  /** One atomic step of the sweep or of one of its goroutines. */
  predicate Step(limit: int, s: State, e: Event, s': State) {
    var n := |s.workers|;
    match e
    case Acquire =>
      s.sweeper.AtSelect? && s.sweeper.i < n && s.slots < limit &&
      s' == s.(sweeper := Holding(s.sweeper.i), slots := s.slots + 1)
    case Cancel => s.sweeper.AtSelect? && s.sweeper.i < n && s' == s.(sweeper := Cancelled)
    case Add => s.sweeper.Holding? && s' == s.(sweeper := Added(s.sweeper.i), waiting := s.waiting + 1)
    case Launch =>
      s.sweeper.Added? && s.sweeper.i < n &&
      s' == s.(sweeper := AtSelect(s.sweeper.i + 1), workers := s.workers[s.sweeper.i := Pinging])
    case LoopEnds => s.sweeper == AtSelect(n) && s' == s.(sweeper := Waiting)
    case WaitEnds => s.sweeper.Waiting? && s.waiting == 0 && s' == s.(sweeper := Returned)
    case PingEnds(j) => j < n && s.workers[j] == Pinging && s' == s.(workers := s.workers[j := Pinged])
    case Release(j) =>
      j < n && s.workers[j] == Pinged && s' == s.(workers := s.workers[j := Released], slots := s.slots - 1)
    case Finish(j) =>
      j < n && s.workers[j] == Released && s' == s.(workers := s.workers[j := Done], waiting := s.waiting - 1)
  }

  ghost predicate Execution(limit: int, n: nat, states: seq<State>, events: seq<Event>) {
    && |states| == |events| + 1
    && states[0] == Start(n)
    && forall i :: 0 <= i < |events| ==> Step(limit, states[i], events[i], states[i + 1])
  }

  function Weigh(workers: seq<Worker>, weight: Worker -> int): int {
    if workers == [] then 0 else Weigh(workers[..|workers| - 1], weight) + weight(workers[|workers| - 1])
  }

  lemma {:induction false} WeighUpdate(workers: seq<Worker>, weight: Worker -> int, j: nat, w: Worker)
    requires j < |workers|
    ensures Weigh(workers[j := w], weight) == Weigh(workers, weight) - weight(workers[j]) + weight(w)
  {
    var n := |workers| - 1;
    var updated := workers[j := w];
    if j < n {
      assert updated[..n] == workers[..n][j := w];
      WeighUpdate(workers[..n], weight, j, w);
    } else {
      assert updated[..n] == workers[..n];
    }
  }

  function InFlight(w: Worker): int {
    if w == Pinging then 1 else 0
  }

  function HoldsSlot(w: Worker): int {
    if w == Pinging || w == Pinged then 1 else 0
  }

  function Awaited(w: Worker): int {
    if w == Pinging || w == Pinged || w == Released then 1 else 0
  }

  /** The address the sweep will start next. */
  function NextUp(s: State): int {
    match s.sweeper
    case AtSelect(i) => i
    case Holding(i) => i
    case Added(i) => i
    case _ => |s.workers|
  }

  ghost predicate Inv(limit: int, s: State) {
    && s.slots == Weigh(s.workers, HoldsSlot) + (if s.sweeper.Holding? || s.sweeper.Added? then 1 else 0)
    && s.waiting == Weigh(s.workers, Awaited) + (if s.sweeper.Added? then 1 else 0)
    && s.slots <= limit
    && NextUp(s) <= |s.workers|
    && (s.sweeper.Holding? || s.sweeper.Added? ==> NextUp(s) < |s.workers|)
    && (!s.sweeper.Cancelled? ==> forall j :: 0 <= j < |s.workers| ==> (s.workers[j] == Idle <==> j >= NextUp(s)))
    && (s.sweeper.Returned? ==> s.waiting == 0)
  }

  lemma {:induction false} WeighIdle(n: nat, weight: Worker -> int)
    requires weight(Idle) == 0
    ensures Weigh(seq(n, i => Idle), weight) == 0
  {
    var ws: seq<Worker> := seq(n, i => Idle);
    if n > 0 {
      assert ws[..n - 1] == seq(n - 1, i => Idle);
      WeighIdle(n - 1, weight);
    }
  }

  lemma StartInv(limit: int, n: nat)
    requires limit > 0
    ensures Inv(limit, Start(n))
  {
    WeighIdle(n, HoldsSlot);
    WeighIdle(n, Awaited);
  }

  lemma StepInv(limit: int, s: State, e: Event, s': State)
    requires Inv(limit, s) && Step(limit, s, e, s')
    ensures Inv(limit, s') && |s'.workers| == |s.workers|
  {
    hide Weigh;
    match e
    case Launch =>
      WeighUpdate(s.workers, HoldsSlot, s.sweeper.i, Pinging);
      WeighUpdate(s.workers, Awaited, s.sweeper.i, Pinging);
    case PingEnds(j) =>
      WeighUpdate(s.workers, HoldsSlot, j, Pinged);
      WeighUpdate(s.workers, Awaited, j, Pinged);
    case Release(j) =>
      WeighUpdate(s.workers, HoldsSlot, j, Released);
      WeighUpdate(s.workers, Awaited, j, Released);
    case Finish(j) =>
      WeighUpdate(s.workers, HoldsSlot, j, Done);
      WeighUpdate(s.workers, Awaited, j, Done);
      WeighZero(s.workers, Awaited, j);
    case _ =>
  }

  lemma {:induction false} ExecutionInv(limit: int, n: nat, states: seq<State>, events: seq<Event>, i: nat)
    requires limit > 0 && Execution(limit, n, states, events) && i <= |events|
    ensures Inv(limit, states[i]) && |states[i].workers| == n
  {
    hide Inv, Step;
    if i == 0 {
      StartInv(limit, n);
    } else {
      ExecutionInv(limit, n, states, events, i - 1);
      StepInv(limit, states[i - 1], events[i - 1], states[i]);
    }
  }

  lemma {:induction false} WeighMonotone(workers: seq<Worker>, a: Worker -> int, b: Worker -> int)
    requires forall w :: a(w) <= b(w)
    ensures Weigh(workers, a) <= Weigh(workers, b)
  {
    if workers != [] {
      WeighMonotone(workers[..|workers| - 1], a, b);
    }
  }

  lemma {:induction false} WeighZero(workers: seq<Worker>, weight: Worker -> int, j: nat)
    requires (forall w :: weight(w) >= 0) && j < |workers| && weight(workers[j]) > 0
    ensures Weigh(workers, weight) > 0
  {
    var n := |workers| - 1;
    if j < n {
      WeighZero(workers[..n], weight, j);
    } else {
      WeighNonNegative(workers[..n], weight);
    }
  }

  lemma {:induction false} WeighNonNegative(workers: seq<Worker>, weight: Worker -> int)
    requires forall w :: weight(w) >= 0
    ensures Weigh(workers, weight) >= 0
  {
    if workers != [] {
      WeighNonNegative(workers[..|workers| - 1], weight);
    }
  }

  lemma {:induction false} InFlightCount(workers: seq<Worker>)
    ensures |set j | 0 <= j < |workers| && workers[j] == Pinging| == Weigh(workers, InFlight)
  {
    var at := set j | 0 <= j < |workers| && workers[j] == Pinging;
    if workers == [] {
      assert at == {};
    } else {
      var n := |workers| - 1;
      InFlightCount(workers[..n]);
      assert at == (set j | 0 <= j < n && workers[..n][j] == Pinging) + if workers[n] == Pinging then {n} else {};
    }
  }

  /**
   * In every interleaving at most parallelism pings are in flight, or 32 if that is not positive; and
   * when the sweep returns from its final wait, every address was started and every goroutine is over.
   */
  lemma SweepIsBounded(parallelism: int, n: nat, states: seq<State>, events: seq<Event>, i: nat)
    requires Execution(Slots(parallelism), n, states, events) && i <= |events|
    ensures |states[i].workers| == n
    ensures |set j | 0 <= j < n && states[i].workers[j] == Pinging| <= if parallelism > 0 then parallelism else 32
    ensures states[i].sweeper.Returned? ==> forall j :: 0 <= j < n ==> states[i].workers[j] == Done
  {
    hide Weigh;
    var s := states[i];
    ExecutionInv(Slots(parallelism), n, states, events, i);
    WeighMonotone(s.workers, InFlight, HoldsSlot);
    InFlightCount(s.workers);
    if s.sweeper.Returned? {
      forall j | 0 <= j < n
        ensures s.workers[j] == Done
      {
        if Awaited(s.workers[j]) > 0 {
          WeighZero(s.workers, Awaited, j);
        }
      }
    }
  }

  /** How often the first k events of an execution started address j. */
  function Starts(states: seq<State>, events: seq<Event>, k: nat, j: nat): nat
    requires |states| == |events| + 1 && k <= |events|
  {
    if k == 0 then 0
    else Starts(states, events, k - 1, j) + if events[k - 1].Launch? && states[k - 1].sweeper == Added(j) then 1 else 0
  }

  /** No address is started twice, even in a sweep that is cancelled. */
  lemma {:induction false} StartedAtMostOnce(limit: int, n: nat, states: seq<State>, events: seq<Event>, k: nat, j: nat)
    requires limit > 0 && Execution(limit, n, states, events) && k <= |events| && j < n
    ensures |states[k].workers| == n
    ensures Starts(states, events, k, j) == if states[k].workers[j] == Idle then 0 else 1
  {
    hide Inv, Step;
    ExecutionInv(limit, n, states, events, k);
    if k == 0 {
      assert states[0].workers[j] == Idle;
    } else {
      StartedAtMostOnce(limit, n, states, events, k - 1, j);
      ExecutionInv(limit, n, states, events, k - 1);
      OnlyLaunchStarts(limit, states[k - 1], events[k - 1], states[k], j);
    }
  }

  /** An address leaves Idle exactly when the sweep, having it counted in, launches it. */
  lemma OnlyLaunchStarts(limit: int, s: State, e: Event, s': State, j: nat)
    requires Inv(limit, s) && Step(limit, s, e, s') && j < |s.workers|
    ensures |s'.workers| == |s.workers|
    ensures e.Launch? && s.sweeper == Added(j) ==> s.workers[j] == Idle && s'.workers[j] != Idle
    ensures !(e.Launch? && s.sweeper == Added(j)) ==> (s'.workers[j] == Idle <==> s.workers[j] == Idle)
  {
    hide Weigh;
  }

  // ---- the sweep always comes to an end -------------------------------------------------

  predicate Over(s: State) {
    && (s.sweeper.Returned? || s.sweeper.Cancelled?)
    && forall j :: 0 <= j < |s.workers| ==> s.workers[j] == Idle || s.workers[j] == Done
  }

  lemma {:induction false} SomeWeight(workers: seq<Worker>, weight: Worker -> int) returns (j: nat)
    requires Weigh(workers, weight) > 0
    ensures j < |workers| && weight(workers[j]) > 0
  {
    var n := |workers| - 1;
    if weight(workers[n]) > 0 {
      j := n;
    } else {
      j := SomeWeight(workers[..n], weight);
    }
  }

  /** Until everything is over, some step is possible: a full semaphore is held by a goroutine that can go on. */
  lemma NeverStuck(limit: int, s: State) returns (e: Event, s': State)
    requires limit > 0 && Inv(limit, s) && !Over(s)
    ensures Step(limit, s, e, s')
  {
    hide Weigh;
    if j :| 0 <= j < |s.workers| && s.workers[j] != Idle && s.workers[j] != Done {
      e, s' := WorkerStep(limit, s, j);
    } else if s.sweeper.AtSelect? && s.sweeper.i < |s.workers| {
      if s.slots < limit {
        e, s' := Acquire, s.(sweeper := Holding(s.sweeper.i), slots := s.slots + 1);
      } else {
        var j := SomeWeight(s.workers, HoldsSlot);
        e, s' := WorkerStep(limit, s, j);
      }
    } else if s.sweeper.AtSelect? {
      e, s' := LoopEnds, s.(sweeper := Waiting);
    } else if s.sweeper.Holding? {
      e, s' := Add, s.(sweeper := Added(s.sweeper.i), waiting := s.waiting + 1);
    } else if s.sweeper.Added? {
      e, s' := Launch, s.(sweeper := AtSelect(s.sweeper.i + 1), workers := s.workers[s.sweeper.i := Pinging]);
    } else {
      if s.waiting > 0 {
        var j := SomeWeight(s.workers, Awaited);
        e, s' := WorkerStep(limit, s, j);
      } else {
        WeighNonNegative(s.workers, Awaited);
        e, s' := WaitEnds, s.(sweeper := Returned);
      }
    }
  }

  lemma WorkerStep(limit: int, s: State, j: nat) returns (e: Event, s': State)
    requires j < |s.workers| && s.workers[j] != Idle && s.workers[j] != Done
    ensures Step(limit, s, e, s')
  {
    match s.workers[j]
    case Pinging => e, s' := PingEnds(j), s.(workers := s.workers[j := Pinged]);
    case Pinged => e, s' := Release(j), s.(workers := s.workers[j := Released], slots := s.slots - 1);
    case Released => e, s' := Finish(j), s.(workers := s.workers[j := Done], waiting := s.waiting - 1);
  }

  function WorkerProgress(w: Worker): int {
    match w
    case Idle => 0
    case Pinging => 0
    case Pinged => 1
    case Released => 2
    case Done => 3
  }

  function Progress(s: State): int {
    var n := |s.workers|;
    Weigh(s.workers, WorkerProgress) +
    match s.sweeper
    case AtSelect(i) => 3 * i
    case Holding(i) => 3 * i + 1
    case Added(i) => 3 * i + 2
    case Waiting => 3 * n + 1
    case Returned => 3 * n + 2
    case Cancelled => 3 * n + 2
  }

  lemma StepProgresses(limit: int, s: State, e: Event, s': State)
    requires Inv(limit, s) && Step(limit, s, e, s')
    ensures Progress(s') > Progress(s)
  {
    hide Weigh;
    var j := if e.Launch? then s.sweeper.i else if e.PingEnds? || e.Release? || e.Finish? then e.j else 0;
    if j < |s.workers| {
      var w := if e.Launch? then Pinging else if e.PingEnds? then Pinged else if e.Release? then Released else Done;
      WeighUpdate(s.workers, WorkerProgress, j, w);
    }
  }

  lemma {:induction false} ProgressBound(workers: seq<Worker>)
    ensures 0 <= Weigh(workers, WorkerProgress) <= 3 * |workers|
  {
    if workers != [] {
      ProgressBound(workers[..|workers| - 1]);
    }
  }

  /** An execution over n addresses takes at most 6n + 2 steps, so with NeverStuck every sweep ends. */
  lemma {:induction false} ExecutionsAreShort(limit: int, n: nat, states: seq<State>, events: seq<Event>, k: nat)
    requires limit > 0 && Execution(limit, n, states, events) && k <= |events|
    ensures k <= Progress(states[k]) <= 6 * n + 2
  {
    hide Inv, Step;
    ExecutionInv(limit, n, states, events, k);
    ProgressBound(states[k].workers);
    SweeperBound(limit, states[k]);
    hide Progress;
    if k == 0 {
      StartProgress(n);
    } else {
      ExecutionsAreShort(limit, n, states, events, k - 1);
      ExecutionInv(limit, n, states, events, k - 1);
      StepProgresses(limit, states[k - 1], events[k - 1], states[k]);
    }
  }

  lemma SweeperBound(limit: int, s: State)
    requires Inv(limit, s)
    ensures NextUp(s) <= |s.workers| && (s.sweeper.Holding? || s.sweeper.Added? ==> NextUp(s) < |s.workers|)
  {
  }

  lemma StartProgress(n: nat)
    ensures Progress(Start(n)) == 0
  {
    WeighIdle(n, WorkerProgress);
  }
}
