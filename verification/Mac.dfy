/**
 * MAC addresses: the scanner's canonical form and the registry's test for a
 * locally administered (randomized) address.
 */
module Mac {
  import opened Prelude
  import opened Text

  // ---- hexadecimal digits ---------------------------------------------------------------

  /** isHex: lower-case digits only. */
  predicate IsHex(c: char) {
    '0' <= c <= '9' || 'a' <= c <= 'f'
  }

  /** The digit strconv.ParseUint sees in base 16, either case. */
  function HexDigit(c: char): (r: Option<nat>)
    ensures r.Some? ==> r.value < 16
  {
    if '0' <= c <= '9' then Some(c as int - '0' as int)
    else if 'a' <= c <= 'f' then Some(c as int - 'a' as int + 10)
    else if 'A' <= c <= 'F' then Some(c as int - 'A' as int + 10)
    else None
  }

  function HexChar(n: nat): (c: char)
    requires n < 16
    ensures IsHex(c) && HexDigit(c) == Some(n)
  {
    if n < 10 then ('0' as int + n) as char else ('a' as int + n - 10) as char
  }

  // ---- the reference reading of a MAC ---------------------------------------------------

  type Octets = o: seq<nat> | forall i :: 0 <= i < |o| ==> o[i] < 256

  /** One or two lower-case hexadecimal digits. */
  function ParseOctet(p: string): (r: Option<nat>)
    ensures r.Some? ==> r.value < 256
  {
    if |p| == 1 && IsHex(p[0]) then HexDigit(p[0])
    else if |p| == 2 && IsHex(p[0]) && IsHex(p[1]) then
      Some(16 * HexDigit(p[0]).value + HexDigit(p[1]).value)
    else None
  }

  predicate AllOctets(parts: seq<string>) {
    forall i :: 0 <= i < |parts| ==> ParseOctet(parts[i]).Some?
  }

  function OctetValues(parts: seq<string>): (o: Octets)
    requires AllOctets(parts)
    ensures |o| == |parts|
    ensures forall i :: 0 <= i < |parts| ==> ParseOctet(parts[i]) == Some(o[i])
  {
    seq(|parts|, i requires 0 <= i < |parts| => ParseOctet(parts[i]).value)
  }

  function Separator(s: string): char {
    if ':' !in s && '-' in s then '-' else ':'
  }

  /** The six octets a spelling denotes, if it is a MAC at all. */
  function ParseMac(s: string): (r: Option<Octets>)
    ensures r.Some? ==> |r.value| == 6
  {
    var t := TrimSpace(ToLower(s));
    var parts := Split(t, Separator(t));
    if |parts| == 6 && AllOctets(parts) then Some(OctetValues(parts)) else None
  }

  function Digits(n: nat): (s: string)
    requires n < 256
    ensures |s| == 2 && ParseOctet(s) == Some(n)
    ensures forall c :: c in s ==> IsHex(c)
  {
    [HexChar(n / 16), HexChar(n % 16)]
  }

  /** Two lower-case digits an octet, joined by colons. */
  function PrintMac(o: Octets): (s: string)
    ensures forall c :: c in s ==> IsHex(c) || c == ':'
    ensures o != [] ==> s != []
    ensures |o| > 1 ==> ':' in s
  {
    if |o| == 0 then ""
    else if |o| == 1 then Digits(o[0])
    else PrintMac(o[..|o| - 1]) + [':'] + Digits(o[|o| - 1])
  }

  function DigitsAll(o: Octets): (parts: seq<string>)
    ensures |parts| == |o| && forall i :: 0 <= i < |o| ==> parts[i] == Digits(o[i])
  {
    seq(|o|, i requires 0 <= i < |o| => Digits(o[i]))
  }

  lemma {:induction false} SplitPrinted(o: Octets)
    requires o != []
    ensures Split(PrintMac(o), ':') == DigitsAll(o)
  {
    if |o| == 1 {
      SplitOnePart(Digits(o[0]), ':');
    } else {
      var front, last := o[..|o| - 1], o[|o| - 1];
      SplitPrinted(front);
      SplitAppend(PrintMac(front), ':', Digits(last));
      assert DigitsAll(o) == DigitsAll(front) + [Digits(last)];
    }
  }

  lemma PrintedIsClean(o: Octets)
    ensures TrimSpace(PrintMac(o)) == PrintMac(o) == ToLower(PrintMac(o))
  {
    var s := PrintMac(o);
    if s != [] {
      assert s[0] in s && s[|s| - 1] in s;
    }
    forall i | 0 <= i < |s|
      ensures LowerChar(s[i]) == s[i]
    {
      assert s[i] in s;
    }
  }

  /** Parsing what was printed gives the octets back. */
  lemma ParsePrinted(o: Octets)
    requires |o| == 6
    ensures ParseMac(PrintMac(o)) == Some(o)
  {
    PrintedIsClean(o);
    SplitPrinted(o);
    assert OctetValues(DigitsAll(o)) == o;
  }

  // ---- NormalizeMAC ---------------------------------------------------------------------

  /** The canonical spelling of s, or "" when s is not a MAC. */
  function Canonical(s: string): string {
    match ParseMac(s)
    case Some(o) => PrintMac(o)
    case None => ""
  }

  lemma {:induction false} ContainsChar(s: string, sub: string, c: char)
    requires Contains(s, sub) && c in sub
    ensures c in s
  {
    if !(sub <= s) {
      ContainsChar(s[1..], sub, c);
    }
  }

  /** An ARP entry marked "(incomplete)" never reads as a MAC. */
  lemma IncompleteIsNoMac(t: string, sep: char)
    requires Contains(t, "incomplete") && (sep == ':' || sep == '-')
    ensures !AllOctets(Split(t, sep))
  {
    assert "incomplete"[1] == 'n';
    ContainsChar(t, "incomplete", 'n');
    SplitKeeps(t, sep, 'n');
    var p :| p in Split(t, sep) && 'n' in p;
    assert ParseOctet(p).None?;
  }

  lemma PadOctet(p: string)
    requires ParseOctet(p).Some?
    ensures Digits(ParseOctet(p).value) == if |p| == 1 then ['0'] + p else p
  {
  }

  /** Printing one octet more: the separator, the padding, the digits. */
  lemma PrintNextOctet(parts: seq<string>, i: nat)
    requires i < |parts| && AllOctets(parts[..i]) && ParseOctet(parts[i]).Some?
    ensures AllOctets(parts[..i + 1])
    ensures PrintMac(OctetValues(parts[..i + 1])) ==
            PrintMac(OctetValues(parts[..i])) + (if i > 0 then [':'] else []) +
            (if |parts[i]| == 1 then ['0'] else []) + parts[i]
  {
    var o, n := OctetValues(parts[..i]), ParseOctet(parts[i]).value;
    assert OctetValues(parts[..i + 1]) == o + [n];
    assert (o + [n])[..i] == o;
    PadOctet(parts[i]);
  }

  lemma PrintNothing(parts: seq<string>)
    ensures AllOctets(parts[..0]) && PrintMac(OctetValues(parts[..0])) == ""
  {
  }

  /** strings.Builder output of a MAC's parts, or "" as soon as one part is no octet. */
  method PrintParts(parts: seq<string>) returns (r: string)
    ensures r == if AllOctets(parts) then PrintMac(OctetValues(parts)) else ""
  {
    hide PrintMac, OctetValues;
    PrintNothing(parts);
    r := "";
    for i := 0 to |parts|
      invariant AllOctets(parts[..i])
      invariant r == PrintMac(OctetValues(parts[..i]))
    {
      var p := parts[i];
      if |p| == 0 || |p| > 2 {
        return "";
      }
      for j := 0 to |p|
        invariant forall k :: 0 <= k < j ==> IsHex(p[k])
      {
        if !IsHex(p[j]) {
          return "";
        }
      }
      PrintNextOctet(parts, i);
      if i > 0 {
        r := r + [':'];
      }
      if |p| == 1 {
        r := r + ['0'];
      }
      r := r + p;
    }
    assert parts[..|parts|] == parts;
  }

  method NormalizeMAC(s: string) returns (r: string)
    ensures r == Canonical(s)
  {
    var t := TrimSpace(ToLower(s));
    var sep := ':';
    if ':' !in t && '-' in t {
      sep := '-';
    }
    if t == "" || Contains(t, "incomplete") {
      if t != "" {
        IncompleteIsNoMac(t, sep);
      }
      return "";
    }
    var parts := Split(t, sep);
    if |parts| != 6 {
      return "";
    }
    r := PrintParts(parts);
  }

  /** Normalizing twice is normalizing once, on every string. */
  lemma NormalizeIdempotent(s: string)
    ensures Canonical(Canonical(s)) == Canonical(s)
  {
    match ParseMac(s)
    case Some(o) => ParsePrinted(o);
    case None =>
      assert Split("", ':') == [""];
  }

  /** Two accepted spellings normalize alike exactly when they denote the same six octets. */
  lemma NormalizeDecidesIdentity(s: string, t: string)
    requires Canonical(s) != "" && Canonical(t) != ""
    ensures Canonical(s) == Canonical(t) <==> ParseMac(s) == ParseMac(t)
  {
    ParsePrinted(ParseMac(s).value);
    ParsePrinted(ParseMac(t).value);
  }

  // ---- IsRandomizedMAC ------------------------------------------------------------------

  /** strconv.ParseUint(p, 16, 8), without a bound on the number of digits. */
  function ParseHex(p: string): Option<nat> {
    if p == [] then Some(0)
    else match (ParseHex(p[..|p| - 1]), HexDigit(p[|p| - 1]))
         case (Some(hi), Some(lo)) => Some(16 * hi + lo)
         case _ => None
  }

  /** The locally administered bit of the first octet, as the registry reads it. */
  function IsRandomizedMAC(mac: string): bool {
    var t := TrimSpace(mac);
    if t == "" then false
    else
      var first := Split(t, Separator(t))[0];
      match ParseHex(first)
      case Some(b) => first != [] && b <= 255 && (b / 2) % 2 == 1
      case None => false
  }

  lemma HexDigitLower(c: char)
    ensures HexDigit(LowerChar(c)) == HexDigit(c)
  {
  }

  lemma {:induction false} ParseHexLower(p: string)
    ensures ParseHex(ToLower(p)) == ParseHex(p)
  {
    if p != [] {
      assert ToLower(p)[..|p| - 1] == ToLower(p[..|p| - 1]);
      ParseHexLower(p[..|p| - 1]);
      HexDigitLower(p[|p| - 1]);
    }
  }

  lemma ParseHexOctet(p: string)
    requires ParseOctet(p).Some?
    ensures ParseHex(p) == ParseOctet(p)
  {
    assert ParseHex(p[..0]) == Some(0);
    if |p| == 2 {
      assert p[..1][..0] == p[..0];
      assert ParseHex(p[..1]) == HexDigit(p[0]);
    }
  }

  lemma {:induction false} LowerKeepsMembers(s: string, c: char)
    requires c == ':' || c == '-'
    ensures c in ToLower(s) <==> c in s
  {
    var low := ToLower(s);
    if c in s {
      var i :| 0 <= i < |s| && s[i] == c;
      assert low[i] == c;
    }
    if c in low {
      var i :| 0 <= i < |s| && low[i] == c;
      assert s[i] == c;
    }
  }

  /** On an accepted spelling the registry reads the bit of the octet that was meant. */
  lemma RandomizedReadsOctet(s: string)
    requires ParseMac(s).Some?
    ensures IsRandomizedMAC(s) <==> (ParseMac(s).value[0] / 2) % 2 == 1
  {
    TrimLeftLower(s);
    TrimRightLower(TrimLeft(s));
    var t := TrimSpace(s);
    var low := ToLower(t);
    assert TrimSpace(ToLower(s)) == low;
    LowerKeepsMembers(t, ':');
    LowerKeepsMembers(t, '-');
    SplitLower(t, Separator(t));
    var first := Split(t, Separator(t))[0];
    assert t != "" by {
      assert Split("", ':') == [""];
    }
    assert Split(low, Separator(low))[0] == ToLower(first);
    ParseHexLower(first);
    ParseHexOctet(ToLower(first));
  }

  lemma RandomizedPrinted(o: Octets)
    requires |o| == 6
    ensures PrintMac(o) != "" && (IsRandomizedMAC(PrintMac(o)) <==> (o[0] / 2) % 2 == 1)
  {
    hide IsRandomizedMAC, ParseMac;
    ParsePrinted(o);
    RandomizedReadsOctet(PrintMac(o));
  }

  /** The scanner's spelling and the original are classified alike. */
  lemma NormalizeKeepsRandomized(s: string)
    requires Canonical(s) != ""
    ensures IsRandomizedMAC(Canonical(s)) == IsRandomizedMAC(s)
  {
    RandomizedReadsOctet(s);
    ParsePrinted(ParseMac(s).value);
    RandomizedReadsOctet(Canonical(s));
  }

  // ---- which spellings are MACs ---------------------------------------------------------

  /** The character is the hexadecimal digit n, in either case. */
  predicate IsDigit(c: char, n: nat) {
    n < 16 && (c == "0123456789abcdef"[n] || c == "0123456789ABCDEF"[n])
  }

  /** One or two digits that say n. */
  predicate SpellsOctet(p: string, n: nat) {
    || (|p| == 1 && IsDigit(p[0], n))
    || (|p| == 2 && IsDigit(p[0], n / 16) && IsDigit(p[1], n % 16))
  }

  lemma DigitExact(c: char, n: nat)
    ensures HexDigit(c) == Some(n) <==> IsDigit(c, n)
    ensures IsDigit(c, n) ==> IsHex(LowerChar(c)) && c != ':' && c != '-'
    ensures IsHex(LowerChar(c)) ==> HexDigit(LowerChar(c)) == HexDigit(c) && HexDigit(c).Some?
    ensures HexDigit(c).Some? ==> IsHex(LowerChar(c))
  {
  }

  lemma OctetSpelling(p: string, n: nat)
    ensures ParseOctet(ToLower(p)) == Some(n) <==> SpellsOctet(p, n)
    ensures SpellsOctet(p, n) ==> n < 256 && ':' !in p && '-' !in p
  {
    hide HexDigit, IsDigit, LowerChar, IsHex;
    if |p| == 1 {
      DigitExact(p[0], n);
    } else if |p| == 2 {
      DigitExact(p[0], n / 16);
      DigitExact(p[1], n % 16);
    }
  }

  /** The parts spell these octets, one each. */
  predicate SpellsOctets(parts: seq<string>, o: seq<nat>) {
    |parts| == |o| && forall i :: 0 <= i < |parts| ==> SpellsOctet(parts[i], o[i])
  }

  /** A MAC is printed as its octets joined by colons, two lower-case digits each. */
  lemma {:induction false} PrintedExact(o: Octets, parts: seq<string>)
    requires o != []
    requires |parts| == |o| && forall i :: 0 <= i < |parts| ==> TwoDigits(parts[i], o[i])
    ensures PrintMac(o) == Join(parts, ':')
  {
    hide TwoDigits;
    var n := |o| - 1;
    TwoDigitsExact(parts[n], o[n]);
    if n > 0 {
      PrintedExact(o[..n], parts[..n]);
    }
  }

  predicate TwoDigits(p: string, n: nat) {
    |p| == 2 && n < 256 && p[0] == "0123456789abcdef"[n / 16] && p[1] == "0123456789abcdef"[n % 16]
  }

  lemma TwoDigitsExact(p: string, n: nat)
    requires TwoDigits(p, n)
    ensures p == Digits(n)
  {
    DigitExact(p[0], n / 16);
    DigitExact(p[1], n % 16);
  }

  lemma PartsSpell(parts: seq<string>, o: Octets)
    ensures SpellsOctets(parts, o) <==>
            |parts| == |o| && AllOctets(LowerAll(parts)) && OctetValues(LowerAll(parts)) == o
  {
    hide SpellsOctet, ParseOctet, ToLower;
    var low := LowerAll(parts);
    if |parts| == |o| {
      forall i | 0 <= i < |parts|
        ensures ParseOctet(low[i]) == Some(o[i]) <==> SpellsOctet(parts[i], o[i])
      {
        OctetSpelling(parts[i], o[i]);
      }
    }
  }

  lemma ParsedParts(s: string)
    ensures var t := TrimSpace(s); var parts := Split(t, Separator(t)); var low := LowerAll(parts);
      ParseMac(s) == if |parts| == 6 && AllOctets(low) then Some(OctetValues(low)) else None
  {
    TrimLeftLower(s);
    TrimRightLower(TrimLeft(s));
    var t := TrimSpace(s);
    LowerKeepsMembers(t, ':');
    LowerKeepsMembers(t, '-');
    SplitLower(t, Separator(t));
  }

  lemma JoinedSeparator(parts: seq<string>, o: Octets, sep: char)
    requires |parts| == 6 && SpellsOctets(parts, o) && (sep == ':' || sep == '-')
    ensures Separator(Join(parts, sep)) == sep && Split(Join(parts, sep), sep) == parts
  {
    forall i | 0 <= i < |parts|
      ensures ':' !in parts[i] && '-' !in parts[i]
    {
      OctetSpelling(parts[i], o[i]);
    }
    hide SpellsOctets;
    JoinMembers(parts, sep, ':');
    JoinMembers(parts, sep, '-');
    SplitJoin(parts, sep);
  }

  /**
   * The spellings of a MAC: up to white space around them, its six octets joined by colons or by
   * hyphens, each in one or two hexadecimal digits of either case; and nothing else.
   */
  lemma MacSpellings(s: string, o: Octets)
    requires |o| == 6
    ensures ParseMac(s) == Some(o) <==>
            exists parts, sep ::
              (sep == ':' || sep == '-') && |parts| == 6 && SpellsOctets(parts, o) && TrimSpace(s) == Join(parts, sep)
  {
    ParsedParts(s);
    var t := TrimSpace(s);
    hide TrimSpace, ParseMac, SpellsOctets, Join, Split, AllOctets, OctetValues, LowerAll;
    var parts, sep := Split(t, Separator(t)), Separator(t);
    PartsSpell(parts, o);
    JoinSplit(t, sep);
    if parts', sep' :|
      (sep' == ':' || sep' == '-') && |parts'| == 6 && SpellsOctets(parts', o) && t == Join(parts', sep')
    {
      PartsSpell(parts', o);
      JoinedSeparator(parts', o, sep');
      assert parts' == parts;
    }
  }

  // ---- IsNonHostMAC ---------------------------------------------------------------------

  predicate HasPrefix(s: string, p: string) {
    p <= s
  }

  /** Broadcast, IPv4 multicast and IPv6 multicast addresses. */
  predicate IsNonHostMAC(mac: string) {
    || mac == "ff:ff:ff:ff:ff:ff"
    || HasPrefix(mac, "01:00:5e:")
    || HasPrefix(mac, "33:33:")
  }

  lemma PrintOne(n: nat)
    requires n < 256
    ensures PrintMac([n]) == Digits(n)
  {
  }

  lemma PrintMore(o: Octets, n: nat)
    requires n < 256 && o != []
    ensures PrintMac(o + [n]) == PrintMac(o) + ":" + Digits(n)
  {
    assert (o + [n])[..|o|] == o;
    hide Digits;
  }

  /** Printing is compositional. */
  lemma {:induction false} PrintConcat(o: Octets, p: Octets)
    requires o != [] && p != []
    ensures PrintMac(o + p) == PrintMac(o) + ":" + PrintMac(p)
  {
    var front, last := p[..|p| - 1], p[|p| - 1];
    assert o + p == o + front + [last] && p == front + [last];
    PrintMore(o + front, last);
    hide *;
    if front == [] {
      assert o + front == o;
      PrintOne(last);
    } else {
      PrintConcat(o, front);
      PrintMore(front, last);
      Regroup(PrintMac(o), PrintMac(front), Digits(last));
    }
  }

  lemma Regroup(a: string, b: string, c: string)
    ensures (a + ":" + b) + ":" + c == a + ":" + (b + ":" + c)
  {
  }

  lemma {:induction false} PrintedLength(o: Octets)
    requires o != []
    ensures |PrintMac(o)| == 3 * |o| - 1
  {
    if |o| > 1 {
      PrintedLength(o[..|o| - 1]);
    }
  }

  lemma PrintInjective(o: Octets, p: Octets)
    requires o != [] && p != [] && PrintMac(o) == PrintMac(p)
    ensures o == p
  {
    hide PrintMac;
    SplitPrinted(o);
    SplitPrinted(p);
    assert |o| == |DigitsAll(o)| == |DigitsAll(p)| == |p|;
    forall i | 0 <= i < |o|
      ensures o[i] == p[i]
    {
      assert DigitsAll(o)[i] == DigitsAll(p)[i];
    }
  }

  lemma PrefixByOctets(o: Octets, p: Octets)
    requires 0 < |p| < |o|
    ensures HasPrefix(PrintMac(o), PrintMac(p) + ":") <==> p <= o
  {
    hide PrintMac;
    var n := |p|;
    assert o[..n] + o[n..] == o;
    PrintConcat(o[..n], o[n..]);
    PrintedLength(p);
    PrintedLength(o[..n]);
    if HasPrefix(PrintMac(o), PrintMac(p) + ":") {
      assert PrintMac(p) + ":" == PrintMac(o)[..3 * n] == PrintMac(o[..n]) + ":";
      assert PrintMac(p) == (PrintMac(p) + ":")[..3 * n - 1] == PrintMac(o[..n]);
      PrintInjective(p, o[..n]);
    }
    if p <= o {
      assert p == o[..n];
    }
  }

  const BROADCAST: Octets := [255, 255, 255, 255, 255, 255]
  const IPV4_MULTICAST: Octets := [0x01, 0x00, 0x5e]
  const IPV6_MULTICAST: Octets := [0x33, 0x33]

  lemma HalfBroadcast()
    ensures PrintMac([255, 255, 255]) == "ff:ff:ff"
  {
    assert Digits(255) == "ff";
    hide PrintMac, Digits;
    PrintOne(255);
    PrintMore([255], 255);
    assert [255] + [255] == [255, 255];
    PrintMore([255, 255], 255);
    assert [255, 255] + [255] == [255, 255, 255];
  }

  lemma PrintedBroadcast()
    ensures PrintMac(BROADCAST) == "ff:ff:ff:ff:ff:ff"
  {
    hide PrintMac;
    HalfBroadcast();
    PrintConcat([255, 255, 255], [255, 255, 255]);
    assert [255, 255, 255] + [255, 255, 255] == BROADCAST;
  }

  lemma PrintedIPv4Multicast()
    ensures PrintMac(IPV4_MULTICAST) + ":" == "01:00:5e:"
  {
    assert Digits(1) == "01" && Digits(0) == "00" && Digits(0x5e) == "5e";
    hide PrintMac, Digits;
    PrintOne(1);
    PrintMore([1], 0);
    assert [1] + [0] == [1, 0];
    PrintMore([1, 0], 0x5e);
    assert [1, 0] + [0x5e] == IPV4_MULTICAST;
  }

  lemma PrintedIPv6Multicast()
    ensures PrintMac(IPV6_MULTICAST) + ":" == "33:33:"
  {
    assert Digits(0x33) == "33";
    hide PrintMac, Digits;
    PrintOne(0x33);
    PrintMore([0x33], 0x33);
    assert [0x33] + [0x33] == IPV6_MULTICAST;
  }

  /** On a canonical MAC the text comparison is a comparison of octets. */
  lemma NonHostByOctets(o: Octets)
    requires |o| == 6
    ensures IsNonHostMAC(PrintMac(o)) <==> o == BROADCAST || IPV4_MULTICAST <= o || IPV6_MULTICAST <= o
  {
    PrintedBroadcast();
    PrintedIPv4Multicast();
    PrintedIPv6Multicast();
    hide PrintMac;
    PrefixByOctets(o, IPV4_MULTICAST);
    PrefixByOctets(o, IPV6_MULTICAST);
    if PrintMac(o) == PrintMac(BROADCAST) {
      PrintInjective(o, BROADCAST);
    }
  }
}
