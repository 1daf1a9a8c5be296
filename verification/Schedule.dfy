/**
 * Weekly schedules. The code looks at today's and yesterday's weekday and at wall-clock
 * minutes; the meaning is membership in circular windows over the 10080 minutes of a week.
 */
module Schedule {
  import opened Prelude

  const DAY_MINUTES := 1440
  const WEEK_MINUTES := 10080

  datatype Block = Block(kind: string, weekdays: seq<int>, start: string, end: string)

  datatype Schedule = Schedule(blocks: seq<Block>)

  /** What time.In(loc) tells about an instant. Sunday is 0. */
  datatype Local = Local(weekday: int, hour: int, minute: int, startOfDay: Time)

  type LocalTime = l: Local | 0 <= l.weekday < 7 && 0 <= l.hour < 24 && 0 <= l.minute < 60
    witness Local(0, 0, 0, 0)

  function MinuteOfDay(l: LocalTime): int {
    l.hour * 60 + l.minute
  }

  function MinuteOfWeek(l: LocalTime): int {
    l.weekday * DAY_MINUTES + MinuteOfDay(l)
  }

  // ---- "HH:MM" --------------------------------------------------------------------------

  function Digits(s: string): Option<nat> {
    if s == "" then Some(0)
    else
      var c := s[|s| - 1];
      match Digits(s[..|s| - 1])
      case Some(n) => if '0' <= c <= '9' then Some(10 * n + (c as int - '0' as int)) else None
      case None => None
  }

  /** strconv.Atoi, except that it has no upper limit; every caller rejects large values anyway. */
  function Atoi(s: string): Option<int> {
    var unsigned := if s != "" && (s[0] == '+' || s[0] == '-') then s[1..] else s;
    if unsigned == "" then None
    else match Digits(unsigned)
         case Some(n) => var k: int := n; Some(if s[0] == '-' then -k else k)
         case None => None
  }

  /** strings.SplitN(s, ":", 2), when it yields two parts. */
  function CutAtColon(s: string): Option<(string, string)> {
    if s == "" then None
    else if s[0] == ':' then Some(("", s[1..]))
    else match CutAtColon(s[1..])
         case Some(p) => Some(([s[0]] + p.0, p.1))
         case None => None
  }

  function ParseHM(s: string): (r: Option<int>)
    ensures r.Some? ==> 0 <= r.value < DAY_MINUTES
  {
    match CutAtColon(s)
    case None => None
    case Some(p) =>
      match (Atoi(p.0), Atoi(p.1))
      case (Some(h), Some(m)) => if h < 0 || h > 23 || m < 0 || m > 59 then None else Some(h * 60 + m)
      case _ => None
  }

  // ---- what a time of day means ---------------------------------------------------------

  /** How a number is written, without leading zeros. */
  function Decimal(n: nat): string {
    if n < 10 then [('0' as int + n) as char] else Decimal(n / 10) + [('0' as int + n % 10) as char]
  }

  /** Only strings of digits are numbers. */
  lemma {:induction false} DigitsIff(s: string)
    ensures Digits(s).Some? <==> forall c :: c in s ==> '0' <= c <= '9'
  {
    if s != "" {
      var front, c := s[..|s| - 1], s[|s| - 1];
      assert s == front + [c] && c in s;
      DigitsIff(front);
      assert forall x :: x in front ==> x in s;
    }
  }

  /** A written number reads as itself. */
  lemma {:induction false} DigitsReadDecimal(n: nat)
    ensures Digits(Decimal(n)) == Some(n)
  {
    if n < 10 {
      var c := ('0' as int + n) as char;
      assert [c][..0] == "";
      assert Digits([c]) == Some(n);
    } else {
      DigitsReadDecimal(n / 10);
      var c := ('0' as int + n % 10) as char;
      assert (Decimal(n / 10) + [c])[..|Decimal(n / 10)|] == Decimal(n / 10);
    }
  }

  /** Leading zeros do not matter. */
  lemma {:induction false} DigitsSkipZero(s: string)
    ensures Digits("0" + s) == Digits(s)
  {
    if s == "" {
      assert "0"[..0] == "";
      assert "0" + s == "0";
    } else {
      var front, c := s[..|s| - 1], s[|s| - 1];
      assert ("0" + s)[..|s|] == "0" + front;
      DigitsSkipZero(front);
    }
  }

  lemma AtoiUnsigned(s: string)
    requires s != "" && '0' <= s[0] <= '9' && Digits(s).Some?
    ensures Atoi(s).Some? && Atoi(s).value == Digits(s).value
    ensures Atoi("+" + s).Some? && Atoi("+" + s).value == Digits(s).value
    ensures Atoi("-" + s).Some? && Atoi("-" + s).value == 0 - Digits(s).value
  {
    hide Digits;
    assert ("+" + s)[1..] == s && ("-" + s)[1..] == s;
  }

  /** Reading back what was written, with either sign or none, and with or without a leading zero. */
  lemma AtoiReads(n: nat)
    ensures Atoi(Decimal(n)).Some? && Atoi(Decimal(n)).value == n
    ensures Atoi("0" + Decimal(n)).Some? && Atoi("0" + Decimal(n)).value == n
    ensures Atoi("+" + Decimal(n)).Some? && Atoi("+" + Decimal(n)).value == n
    ensures Atoi("-" + Decimal(n)).Some? && Atoi("-" + Decimal(n)).value == 0 - n
    ensures Atoi("") == None && Atoi("+") == None && Atoi("-") == None
  {
    DecimalIsDigits(n);
    DigitsReadDecimal(n);
    DigitsSkipZero(Decimal(n));
    hide Decimal, Digits;
    AtoiUnsigned(Decimal(n));
    AtoiUnsigned("0" + Decimal(n));
  }

  lemma {:induction false} DecimalIsDigits(n: nat)
    ensures Decimal(n) != "" && '0' <= Decimal(n)[0] <= '9'
  {
    if n >= 10 {
      DecimalIsDigits(n / 10);
    }
  }

  lemma {:induction false} CutAtFirstColon(s: string, i: nat)
    requires i < |s| && s[i] == ':' && ':' !in s[..i]
    ensures CutAtColon(s) == Some((s[..i], s[i + 1..]))
  {
    if i > 0 {
      assert s[0] in s[..i];
      assert s[1..][..i - 1] == s[..i][1..];
      CutAtFirstColon(s[1..], i - 1);
      assert [s[0]] + s[1..][..i - 1] == s[..i];
      assert s[1..][i..] == s[i + 1..];
    } else {
      assert s[..0] == "";
    }
  }

  lemma {:induction false} NoColonNoCut(s: string)
    requires ':' !in s
    ensures CutAtColon(s) == None
  {
    if s != "" {
      NoColonNoCut(s[1..]);
    }
  }

  /** What stands before the first colon is an hour, what follows it a minute; nothing else is a time of day. */
  lemma ParseHMExact(s: string, i: nat)
    requires i <= |s| && ':' !in s[..i] && (i < |s| ==> s[i] == ':')
    ensures i == |s| ==> ParseHM(s) == None
    ensures i < |s| ==>
      var h, m := Atoi(s[..i]), Atoi(s[i + 1..]);
      if h.Some? && m.Some? && 0 <= h.value < 24 && 0 <= m.value < 60 then ParseHM(s) == Some(60 * h.value + m.value)
      else ParseHM(s) == None
  {
    hide Atoi, CutAtColon;
    if i == |s| {
      assert s[..i] == s;
      NoColonNoCut(s);
    } else {
      CutAtFirstColon(s, i);
    }
  }

  // ---- evalSchedule ---------------------------------------------------------------------

  /** The body of the loop: whether this block ends it with "locked". */
  predicate BlockLocks(b: Block, wd: int, cur: int) {
    if b.kind != "blocked" && b.kind != "bedtime" then false
    else
      match (ParseHM(b.start), ParseHM(b.end))
      case (Some(start), Some(end)) =>
        if start == end then false
        else if start < end then wd in b.weekdays && start <= cur < end
        else (wd in b.weekdays && cur >= start) || ((wd + 6) % 7 in b.weekdays && cur < end)
      case _ => false
  }

  function EvalBlocks(blocks: seq<Block>, wd: int, cur: int): (bool, string) {
    if blocks == [] then (false, "")
    else if BlockLocks(blocks[0], wd, cur) then (true, "schedule")
    else EvalBlocks(blocks[1..], wd, cur)
  }

  function EvalSchedule(s: Option<Schedule>, at: LocalTime): (bool, string) {
    match s
    case None => (false, "")
    case Some(sched) => EvalBlocks(sched.blocks, at.weekday, MinuteOfDay(at))
  }

  // ---- the meaning ----------------------------------------------------------------------

  /** A block that can lock at all: the right kind, and times that parse. */
  predicate Effective(b: Block) {
    (b.kind == "blocked" || b.kind == "bedtime") && ParseHM(b.start).Some? && ParseHM(b.end).Some?
  }

  /** How many minutes the window lasts; it may run past midnight. */
  function Span(b: Block): (n: nat)
    requires Effective(b)
    ensures n < DAY_MINUTES
  {
    (ParseHM(b.end).value - ParseHM(b.start).value) % DAY_MINUTES
  }

  /** Going round the week. */
  function Turn(x: int): (r: int)
    ensures 0 <= r < WEEK_MINUTES
  {
    x % WEEK_MINUTES
  }

  /** Minute m of the week lies in the block's window that opens on weekday w. */
  predicate InWindow(b: Block, w: int, m: int)
    requires Effective(b)
  {
    Turn(m - DAY_MINUTES * w - ParseHM(b.start).value) < Span(b)
  }

  predicate Covers(b: Block, m: int) {
    Effective(b) && exists w :: 0 <= w < 7 && w in b.weekdays && InWindow(b, w, m)
  }

  /** Going round the week: the distance from a window's opening, day by day. */
  lemma CircularDistance(wd: int, w: int, cur: int, start: int)
    requires 0 <= wd < 7 && 0 <= w < 7 && 0 <= cur < DAY_MINUTES && 0 <= start < DAY_MINUTES
    ensures var d := (wd - w) % 7;
      Turn(DAY_MINUTES * wd + cur - DAY_MINUTES * w - start) ==
      DAY_MINUTES * d + cur - start + if d == 0 && cur < start then WEEK_MINUTES else 0
  {
    var d := (wd - w) % 7;
    assert d == wd - w || d == wd - w + 7;
  }

  lemma WindowByDay(b: Block, w: int, wd: int, cur: int)
    requires Effective(b) && 0 <= wd < 7 && 0 <= w < 7 && 0 <= cur < DAY_MINUTES
    ensures var start, end := ParseHM(b.start).value, ParseHM(b.end).value;
      InWindow(b, w, DAY_MINUTES * wd + cur) <==>
      || (w == wd && start <= cur && (end < start || cur < end))
      || (w == (wd + 6) % 7 && end < start && cur < end)
  {
    hide ParseHM, Turn;
    var start, end := ParseHM(b.start).value, ParseHM(b.end).value;
    CircularDistance(wd, w, cur, start);
    var d := (wd - w) % 7;
    assert d == 0 <==> w == wd;
    assert d == 1 <==> w == (wd + 6) % 7;
    assert Span(b) == if start <= end then end - start else end - start + DAY_MINUTES;
  }

  /** One block: today's and yesterday's weekday are all the code needs to look at. */
  lemma BlockIsCircular(b: Block, wd: int, cur: int)
    requires 0 <= wd < 7 && 0 <= cur < DAY_MINUTES
    ensures BlockLocks(b, wd, cur) <==> Covers(b, DAY_MINUTES * wd + cur)
  {
    if Effective(b) {
      hide ParseHM, InWindow;
      var m := DAY_MINUTES * wd + cur;
      forall w | 0 <= w < 7
        ensures var start, end := ParseHM(b.start).value, ParseHM(b.end).value;
          InWindow(b, w, m) <==>
          || (w == wd && start <= cur && (end < start || cur < end))
          || (w == (wd + 6) % 7 && end < start && cur < end)
      {
        WindowByDay(b, w, wd, cur);
      }
      assert InWindow(b, wd, m) || !InWindow(b, wd, m);
      assert InWindow(b, (wd + 6) % 7, m) || !InWindow(b, (wd + 6) % 7, m);
    }
  }

  ghost predicate AnyCovers(blocks: seq<Block>, m: int) {
    exists b :: b in blocks && Covers(b, m)
  }

  lemma AnyCoversSplit(blocks: seq<Block>, m: int)
    requires blocks != []
    ensures AnyCovers(blocks, m) <==> Covers(blocks[0], m) || AnyCovers(blocks[1..], m)
  {
    hide Covers;
    assert blocks == [blocks[0]] + blocks[1..];
  }

  lemma {:induction false} EvalBlocksFinds(blocks: seq<Block>, wd: int, cur: int)
    requires 0 <= wd < 7 && 0 <= cur < DAY_MINUTES
    ensures EvalBlocks(blocks, wd, cur) ==
            if AnyCovers(blocks, DAY_MINUTES * wd + cur) then (true, "schedule") else (false, "")
  {
    if blocks != [] {
      hide BlockLocks, Covers, AnyCovers;
      BlockIsCircular(blocks[0], wd, cur);
      EvalBlocksFinds(blocks[1..], wd, cur);
      AnyCoversSplit(blocks, DAY_MINUTES * wd + cur);
    }
  }

  /** Some block of the schedule covers the minute of the week. */
  ghost predicate Locked(s: Option<Schedule>, m: int) {
    s.Some? && AnyCovers(s.value.blocks, m)
  }

  /**
   * The schedule locks exactly when the current minute of the week lies in some window of some
   * effective block; the reason says so.
   */
  lemma EvalScheduleIsCircular(s: Option<Schedule>, at: LocalTime)
    ensures EvalSchedule(s, at) == if Locked(s, MinuteOfWeek(at)) then (true, "schedule") else (false, "")
  {
    hide EvalBlocks, Covers;
    if s.Some? {
      EvalBlocksFinds(s.value.blocks, at.weekday, MinuteOfDay(at));
    }
  }

  /**
   * A blocked or bedtime block, whose times parse as start and end, lists the real weekday w, and the
   * minutes passed at minute m of the week since its window opened are fewer than the window's.
   */
  ghost predicate WindowOpen(b: Block, w: int, m: int) {
    && (b.kind == "blocked" || b.kind == "bedtime")
    && w in b.weekdays && 0 <= w < 7
    && ParseHM(b.start).Some? && ParseHM(b.end).Some?
    && (m - 1440 * w - ParseHM(b.start).value) % 10080 < (ParseHM(b.end).value - ParseHM(b.start).value) % 1440
  }

  lemma CoversIffOpen(b: Block, m: int)
    ensures Covers(b, m) <==> exists w :: WindowOpen(b, w, m)
  {
    hide ParseHM;
    if Effective(b) {
      forall w
        ensures WindowOpen(b, w, m) <==> 0 <= w < 7 && w in b.weekdays && InWindow(b, w, m)
      {
      }
    }
  }

  /** The same in full: the schedule locks iff some window of some block is open, going round the week. */
  lemma EvalScheduleExact(s: Schedule, at: LocalTime, m: int)
    requires m == 1440 * at.weekday + 60 * at.hour + at.minute
    ensures EvalSchedule(Some(s), at).0 <==> exists b, w :: b in s.blocks && WindowOpen(b, w, m)
    ensures EvalSchedule(Some(s), at).1 == if EvalSchedule(Some(s), at).0 then "schedule" else ""
    ensures EvalSchedule(None, at) == (false, "")
  {
    assert EvalSchedule(None, at) == (false, "");
    EvalScheduleIsCircular(Some(s), at);
    assert m == MinuteOfWeek(at);
    hide EvalSchedule, Covers, WindowOpen;
    forall b
      ensures Covers(b, m) <==> exists w :: WindowOpen(b, w, m)
    {
      CoversIffOpen(b, m);
    }
  }

  /** The order of the blocks, and repeating one, make no difference. */
  lemma BlockOrderIrrelevant(s: Schedule, t: Schedule, at: LocalTime)
    requires forall b :: b in s.blocks <==> b in t.blocks
    ensures EvalSchedule(Some(s), at) == EvalSchedule(Some(t), at)
  {
    hide EvalSchedule, Covers;
    EvalScheduleIsCircular(Some(s), at);
    EvalScheduleIsCircular(Some(t), at);
  }

  // ---- how many minutes a week one block locks ------------------------------------------

  /** The n minutes that follow minute a, going round the week. */
  function Arc(a: int, n: nat): set<int> {
    set m | m in Interval(0, WEEK_MINUTES) && Turn(m - a) < n
  }

  lemma RoundTrip(m: int, a: int, n: nat)
    requires 0 <= m < WEEK_MINUTES && n < WEEK_MINUTES
    ensures Turn(m - a) == n <==> m == Turn(a + n)
  {
    var q, p := (m - a) / WEEK_MINUTES, (a + n) / WEEK_MINUTES;
    assert m - a == WEEK_MINUTES * q + Turn(m - a);
    assert a + n == WEEK_MINUTES * p + Turn(a + n);
  }

  lemma ArcMore(a: int, n: nat)
    requires n < WEEK_MINUTES
    ensures Arc(a, n + 1) == Arc(a, n) + {Turn(a + n)}
    ensures Turn(a + n) !in Arc(a, n)
  {
    hide Turn;
    forall m | m in Interval(0, WEEK_MINUTES)
      ensures Turn(m - a) == n <==> m == Turn(a + n)
    {
      RoundTrip(m, a, n);
    }
    assert Turn(a + n) in Interval(0, WEEK_MINUTES);
  }

  lemma {:induction false} ArcSize(a: int, n: nat)
    requires n <= WEEK_MINUTES
    ensures |Arc(a, n)| == n
  {
    hide Turn;
    if n == 0 {
      assert Arc(a, 0) == {};
    } else {
      ArcSize(a, n - 1);
      ArcMore(a, n - 1);
      hide Arc;
    }
  }

  /** No minute is less than a day after two points a whole number of days, but not of weeks, apart. */
  lemma DaysApart(x: int, y: int, k: int, n: nat)
    requires x - y == DAY_MINUTES * k && 0 < k < 7 && n < DAY_MINUTES
    ensures !(Turn(x) < n && Turn(y) < n)
  {
    var p, q := x / WEEK_MINUTES, y / WEEK_MINUTES;
    assert x == WEEK_MINUTES * p + Turn(x);
    assert y == WEEK_MINUTES * q + Turn(y);
  }

  /** Windows opening on different days of the week never overlap, however late they open. */
  lemma ArcsDisjoint(start: int, n: nat, v: int, w: int)
    requires n < DAY_MINUTES && 0 <= v < w < 7
    ensures Arc(DAY_MINUTES * v + start, n) !! Arc(DAY_MINUTES * w + start, n)
  {
    hide Turn;
    var a, b := DAY_MINUTES * v + start, DAY_MINUTES * w + start;
    forall m | m in Arc(a, n)
      ensures m !in Arc(b, n)
    {
      DaysApart(m - a, m - b, w - v, n);
    }
  }

  /** The minutes locked by the block's windows opening on the weekdays below n. */
  function LockedMinutes(b: Block, n: nat): set<int>
    requires Effective(b)
  {
    set m | m in Interval(0, WEEK_MINUTES) && exists w :: 0 <= w < n && w in b.weekdays && InWindow(b, w, m)
  }

  function ListedDays(b: Block, n: nat): set<int> {
    set w | w in Interval(0, n) && w in b.weekdays
  }

  lemma OneMoreDay(b: Block, n: nat)
    requires Effective(b) && n < 7
    ensures var arc := Arc(DAY_MINUTES * n + ParseHM(b.start).value, Span(b));
      LockedMinutes(b, n + 1) == LockedMinutes(b, n) + (if n in b.weekdays then arc else {})
      && LockedMinutes(b, n) !! arc
  {
    hide ParseHM, Turn;
    var start := ParseHM(b.start).value;
    var arc := Arc(DAY_MINUTES * n + start, Span(b));
    forall m | m in Interval(0, WEEK_MINUTES)
      ensures m in arc <==> InWindow(b, n, m)
    {
      assert m - (DAY_MINUTES * n + start) == m - DAY_MINUTES * n - start;
    }
    forall m
      ensures m in LockedMinutes(b, n + 1) <==> m in LockedMinutes(b, n) || (n in b.weekdays && m in arc)
      ensures !(m in LockedMinutes(b, n) && m in arc)
    {
      hide InWindow;
      if m in LockedMinutes(b, n) {
        var w :| 0 <= w < n && w in b.weekdays && InWindow(b, w, m);
        WindowIsArc(b, w, m);
        ArcsDisjoint(start, Span(b), w, n);
      }
    }
  }

  lemma WindowIsArc(b: Block, w: int, m: int)
    requires Effective(b) && m in Interval(0, WEEK_MINUTES)
    ensures InWindow(b, w, m) <==> m in Arc(DAY_MINUTES * w + ParseHM(b.start).value, Span(b))
  {
    hide ParseHM, Turn, Span;
    assert m - (DAY_MINUTES * w + ParseHM(b.start).value) == m - DAY_MINUTES * w - ParseHM(b.start).value;
  }

  lemma OneMoreListed(b: Block, n: nat)
    ensures ListedDays(b, n + 1) == ListedDays(b, n) + (if n in b.weekdays then {n} else {})
    ensures |ListedDays(b, n + 1)| == |ListedDays(b, n)| + if n in b.weekdays then 1 else 0
  {
    assert ListedDays(b, n + 1) == ListedDays(b, n) + (if n in b.weekdays then {n} else {});
  }

  lemma NoDays(b: Block)
    requires Effective(b)
    ensures LockedMinutes(b, 0) == {} && ListedDays(b, 0) == {}
  {
    hide ParseHM, InWindow;
    assert Interval(0, 0) == {};
    assert ListedDays(b, 0) <= Interval(0, 0);
  }

  lemma LockedOneMoreDay(b: Block, n: nat)
    requires Effective(b) && n < 7
    ensures |LockedMinutes(b, n + 1)| == |LockedMinutes(b, n)| + if n in b.weekdays then Span(b) else 0
  {
    hide ParseHM, InWindow, Arc, LockedMinutes, Span;
    var a := DAY_MINUTES * n + ParseHM(b.start).value;
    OneMoreDay(b, n);
    if n in b.weekdays {
      ArcSize(a, Span(b));
      DisjointSize(LockedMinutes(b, n), Arc(a, Span(b)));
    } else {
      assert LockedMinutes(b, n + 1) == LockedMinutes(b, n);
    }
  }

  lemma Distribute(k: nat, n: nat)
    ensures (k + 1) * n == k * n + n
  {
  }

  lemma {:induction false} LockedMinutesCount(b: Block, n: nat)
    requires Effective(b) && n <= 7
    ensures |LockedMinutes(b, n)| == |ListedDays(b, n)| * Span(b)
  {
    hide *;
    if n == 0 {
      NoDays(b);
    } else {
      LockedMinutesCount(b, n - 1);
      LockedOneMoreDay(b, n - 1);
      OneMoreListed(b, n - 1);
      Distribute(|ListedDays(b, n - 1)|, Span(b));
    }
  }

  /** One block locks exactly its span, once for each distinct real weekday it lists. */
  lemma WeeklyLockedMinutes(b: Block)
    requires Effective(b)
    ensures |set m | m in Interval(0, WEEK_MINUTES) && Covers(b, m)| == |ListedDays(b, 7)| * Span(b)
  {
    hide ParseHM, InWindow;
    LockedMinutesCount(b, 7);
    assert (set m | m in Interval(0, WEEK_MINUTES) && Covers(b, m)) == LockedMinutes(b, 7);
  }
}
