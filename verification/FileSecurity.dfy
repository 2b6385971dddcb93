/** Classification of IP addresses (src/file-security.ts). */
module FileSecurity {
  import opened Common

  // ---------------------------------------------------------------------------
  // IPv4
  // ---------------------------------------------------------------------------

  type Octet = n: int | 0 <= n < 256

  /** The tests of `isPrivateIpv4` on four octets. */
  predicate IsPrivateIpv4(a: Octet, b: Octet, c: Octet, d: Octet) {
    || a == 0
    || a == 10
    || a == 127
    || (a == 172 && b >= 16 && b <= 31)
    || (a == 192 && b == 168)
    || (a == 169 && b == 254)
    || (a == 192 && b == 0 && c == 0)
    || (a == 192 && b == 0 && c == 2)
    || (a == 198 && b == 51 && c == 100)
    || (a == 203 && b == 0 && c == 113)
    || (a >= 224 && a <= 239)
    || a >= 240
  }

  /** An address block in CIDR notation; `size` is two to the number of host bits. */
  datatype Block = Block(base: nat, size: nat)

  predicate InBlock(address: nat, block: Block)
    requires block.size > 0
  {
    address / block.size == block.base / block.size
  }

  function Address(a: Octet, b: Octet, c: Octet, d: Octet): nat { ((a * 256 + b) * 256 + c) * 256 + d }

  const SLASH_4 := 0x1000_0000
  const SLASH_8 := 0x100_0000
  const SLASH_10 := 0x40_0000
  const SLASH_12 := 0x10_0000
  const SLASH_16 := 0x1_0000
  const SLASH_24 := 0x100

  /** The blocks that the source lists. */
  function PrivateBlocks(): (bs: seq<Block>)
    ensures forall b :: b in bs ==> b.size > 0
  {
    [ Block(Address(0, 0, 0, 0), SLASH_8),
      Block(Address(10, 0, 0, 0), SLASH_8),
      Block(Address(127, 0, 0, 0), SLASH_8),
      Block(Address(172, 16, 0, 0), SLASH_12),
      Block(Address(192, 168, 0, 0), SLASH_16),
      Block(Address(169, 254, 0, 0), SLASH_16),
      Block(Address(192, 0, 0, 0), SLASH_24),
      Block(Address(192, 0, 2, 0), SLASH_24),
      Block(Address(198, 51, 100, 0), SLASH_24),
      Block(Address(203, 0, 113, 0), SLASH_24),
      Block(Address(224, 0, 0, 0), SLASH_4),
      Block(Address(240, 0, 0, 0), SLASH_4) ]
  }

  lemma OctetsOfAddress(a: Octet, b: Octet, c: Octet, d: Octet)
    ensures var v := Address(a, b, c, d);
      && v / SLASH_24 == (a * 256 + b) * 256 + c
      && v / SLASH_16 == a * 256 + b
      && v / SLASH_12 == a * 16 + b / 16
      && v / SLASH_10 == a * 4 + b / 64
      && v / SLASH_8 == a
      && v / SLASH_4 == a / 16
  {
    var v := Address(a, b, c, d);
    assert v == (a * 256 + b) * SLASH_16 + (c * 256 + d);
    assert b == 16 * (b / 16) + b % 16 && b == 64 * (b / 64) + b % 64 && a == 16 * (a / 16) + a % 16;
  }

  lemma InSlash8(a: Octet, b: Octet, c: Octet, d: Octet, p: Octet)
    ensures In(Address(a, b, c, d), p, 0, 0, SLASH_8) <==> a == p
  {
    OctetsOfAddress(a, b, c, d);
    OctetsOfAddress(p, 0, 0, 0);
  }

  lemma InSlash16(a: Octet, b: Octet, c: Octet, d: Octet, p: Octet, q: Octet)
    ensures In(Address(a, b, c, d), p, q, 0, SLASH_16) <==> a == p && b == q
  {
    OctetsOfAddress(a, b, c, d);
    OctetsOfAddress(p, q, 0, 0);
  }

  lemma SameLastOctet(x: nat, c: Octet, y: nat, r: Octet)
    ensures x * 256 + c == y * 256 + r <==> x == y && c == r
  {
  }

  lemma InSlash24(a: Octet, b: Octet, c: Octet, d: Octet, p: Octet, q: Octet, r: Octet)
    ensures In(Address(a, b, c, d), p, q, r, SLASH_24) <==> a == p && b == q && c == r
  {
    OctetsOfAddress(a, b, c, d);
    OctetsOfAddress(p, q, r, 0);
    SameLastOctet(a, b, p, q);
    SameLastOctet(a * 256 + b, c, p * 256 + q, r);
  }

  lemma InSlash12(a: Octet, b: Octet, c: Octet, d: Octet)
    ensures In(Address(a, b, c, d), 172, 16, 0, SLASH_12) <==> a == 172 && 16 <= b <= 31
  {
    OctetsOfAddress(a, b, c, d);
    OctetsOfAddress(172, 16, 0, 0);
  }

  lemma InSlash4(a: Octet, b: Octet, c: Octet, d: Octet, p: Octet)
    requires p % 16 == 0
    ensures In(Address(a, b, c, d), p, 0, 0, SLASH_4) <==> p <= a < p + 16
  {
    OctetsOfAddress(a, b, c, d);
    OctetsOfAddress(p, 0, 0, 0);
  }

  /** The octet tests decide exactly membership of the 32-bit address in one of the listed blocks. */
  lemma PrivateIffInListedBlock(a: Octet, b: Octet, c: Octet, d: Octet)
    ensures IsPrivateIpv4(a, b, c, d) <==> InPrivateIpv4Block(Address(a, b, c, d))
  {
    InSlash8(a, b, c, d, 0);
    InSlash8(a, b, c, d, 10);
    InSlash8(a, b, c, d, 127);
    InSlash12(a, b, c, d);
    InSlash16(a, b, c, d, 192, 168);
    InSlash16(a, b, c, d, 169, 254);
    InSlash24(a, b, c, d, 192, 0, 0);
    InSlash24(a, b, c, d, 192, 0, 2);
    InSlash24(a, b, c, d, 198, 51, 100);
    InSlash24(a, b, c, d, 203, 0, 113);
    InSlash4(a, b, c, d, 224);
    InSlash4(a, b, c, d, 240);
    ListedBlocks(Address(a, b, c, d));
  }

  predicate In(v: nat, a: Octet, b: Octet, c: Octet, size: nat)
    requires size > 0
  {
    InBlock(v, Block(Address(a, b, c, 0), size))
  }

  /** In one of the listed blocks. */
  predicate InPrivateIpv4Block(v: nat) { AmongFirst(v, |PrivateBlocks()|) }

  predicate AmongFirst(v: nat, n: nat)
    requires n <= |PrivateBlocks()|
  {
    exists i :: 0 <= i < n && InBlock(v, PrivateBlocks()[i])
  }

  lemma OneMore(v: nat, n: nat)
    requires n < |PrivateBlocks()|
    ensures AmongFirst(v, n + 1) <==> AmongFirst(v, n) || InBlock(v, PrivateBlocks()[n])
  {
  }

  lemma ListedBlocks(v: nat)
    ensures AmongFirst(v, |PrivateBlocks()|) <==>
      In(v, 0, 0, 0, SLASH_8) || In(v, 10, 0, 0, SLASH_8) || In(v, 127, 0, 0, SLASH_8) || In(v, 172, 16, 0, SLASH_12)
      || In(v, 192, 168, 0, SLASH_16) || In(v, 169, 254, 0, SLASH_16) || In(v, 192, 0, 0, SLASH_24)
      || In(v, 192, 0, 2, SLASH_24) || In(v, 198, 51, 100, SLASH_24) || In(v, 203, 0, 113, SLASH_24)
      || In(v, 224, 0, 0, SLASH_4) || In(v, 240, 0, 0, SLASH_4)
  {
    FirstSixBlocks(v);
    OneMore(v, 6);
    OneMore(v, 7);
    OneMore(v, 8);
    OneMore(v, 9);
    OneMore(v, 10);
    OneMore(v, 11);
  }

  lemma FirstSixBlocks(v: nat)
    ensures AmongFirst(v, 6) <==>
      In(v, 0, 0, 0, SLASH_8) || In(v, 10, 0, 0, SLASH_8) || In(v, 127, 0, 0, SLASH_8) || In(v, 172, 16, 0, SLASH_12)
      || In(v, 192, 168, 0, SLASH_16) || In(v, 169, 254, 0, SLASH_16)
  {
    OneMore(v, 0);
    OneMore(v, 1);
    OneMore(v, 2);
    OneMore(v, 3);
    OneMore(v, 4);
    OneMore(v, 5);
  }

  /** The gap left on purpose: nothing in 100.64.0.0/10 counts as private. */
  lemma SharedAddressSpaceIsPublic(a: Octet, b: Octet, c: Octet, d: Octet)
    requires InBlock(Address(a, b, c, d), Block(Address(100, 64, 0, 0), SLASH_10))
    ensures a == 100 && 64 <= b < 128 && !IsPrivateIpv4(a, b, c, d)
  {
    OctetsOfAddress(a, b, c, d);
    OctetsOfAddress(100, 64, 0, 0);
  }

  // ---------------------------------------------------------------------------
  // IPv6 text
  // ---------------------------------------------------------------------------

  function SplitColon(s: string): (parts: seq<string>)
    ensures |parts| >= 1
  {
    if s == [] then [""]
    else
      var rest := SplitColon(s[1..]);
      if s[0] == ':' then [""] + rest else [[s[0]] + rest[0]] + rest[1..]
  }

  /** The first position of `::`, or -1. */
  function DoubleColonAt(s: string): (i: int)
    ensures i == -1 || (0 <= i < |s| - 1 && s[i] == ':' && s[i + 1] == ':')
    ensures forall j :: 0 <= j < (if i < 0 then |s| - 1 else i) ==> !(s[j] == ':' && s[j + 1] == ':')
  {
    if |s| < 2 then -1
    else if s[0] == ':' && s[1] == ':' then 0
    else var i := DoubleColonAt(s[1..]); if i < 0 then -1 else i + 1
  }

  function SplitDoubleColon(s: string): (parts: seq<string>)
    decreases |s|
  {
    var i := DoubleColonAt(s);
    if i < 0 then [s] else [s[..i]] + SplitDoubleColon(s[i + 2..])
  }

  function Zeros(n: nat): seq<string> { seq(n, _ => "0") }

  function Lower(s: string): string { seq(|s|, i requires 0 <= i < |s| => LowerChar(s[i])) }

  /** `padStart(4, "0").toLowerCase()` */
  function PadLower(s: string): string {
    Lower(if |s| < 4 then seq(4 - |s|, _ => '0') + s else s)
  }

  function Join(parts: seq<string>): string {
    if parts == [] then ""
    else if |parts| == 1 then parts[0]
    else parts[0] + ":" + Join(parts[1..])
  }

  function MapPad(parts: seq<string>): seq<string> { seq(|parts|, i requires 0 <= i < |parts| => PadLower(parts[i])) }

  /** The groups on one side of a `::`. */
  function Side(half: string): seq<string> { if half != "" then SplitColon(half) else [] }

  /** The groups of the address; the array constructor throws if more than eight of them stand
      around a `::`. */
  function Segments(ip: string): Option<seq<string>> {
    var halves := SplitDoubleColon(ip);
    if |halves| == 2 then
      var left, right := Side(halves[0]), Side(halves[1]);
      if |left| + |right| > 8 then None
      else Some(left + Zeros(8 - |left| - |right|) + right)
    else Some(SplitColon(ip))
  }

  function NormalizeIpv6(ip: string): Option<string> {
    match Segments(ip)
    case None => None
    case Some(segments) => Some(Join(MapPad(segments)))
  }

  // ---------------------------------------------------------------------------
  // Spellings of an address (section 2.2 of RFC 4291, forms 1 and 2)
  // ---------------------------------------------------------------------------

  predicate IsHexDigit(c: char) { '0' <= c <= '9' || 'a' <= c <= 'f' || 'A' <= c <= 'F' }

  function DigitValue(c: char): (v: nat)
    requires IsHexDigit(c)
    ensures v < 16
  {
    if '0' <= c <= '9' then (c - '0') as int
    else if 'a' <= c <= 'f' then (c - 'a') as int + 10
    else (c - 'A') as int + 10
  }

  function HexChar(v: nat): char
    requires v < 16
  {
    if v < 10 then '0' + v as char else 'a' + (v - 10) as char
  }

  predicate IsGroup(s: string) { 1 <= |s| <= 4 && forall c :: c in s ==> IsHexDigit(c) }

  function GroupValue(s: string): nat
    requires forall c :: c in s ==> IsHexDigit(c)
  {
    if s == [] then 0 else GroupValue(s[..|s| - 1]) * 16 + DigitValue(s[|s| - 1])
  }

  type Word = n: int | 0 <= n < 0x1_0000

  /** Four lower-case digits. */
  function Hex4(v: Word): string {
    [HexChar(v / 4096), HexChar(v / 256 % 16), HexChar(v / 16 % 16), HexChar(v % 16)]
  }

  /** Eight groups, or fewer with one `::` that stands for the missing zeros. */
  datatype Spelling = Full(groups: seq<string>) | Compressed(left: seq<string>, right: seq<string>)

  ghost predicate AllGroups(gs: seq<string>) { forall g :: g in gs ==> IsGroup(g) }

  ghost predicate Valid(sp: Spelling) {
    match sp
    case Full(gs) => |gs| == 8 && AllGroups(gs)
    case Compressed(left, right) => |left| + |right| <= 8 && AllGroups(left) && AllGroups(right)
  }

  function Text(sp: Spelling): string {
    match sp
    case Full(gs) => Join(gs)
    case Compressed(left, right) => Join(left) + "::" + Join(right)
  }

  /** All eight groups, written out. */
  function Expanded(sp: Spelling): seq<string>
    requires sp.Compressed? ==> |sp.left| + |sp.right| <= 8
  {
    match sp
    case Full(gs) => gs
    case Compressed(left, right) => left + Zeros(8 - |left| - |right|) + right
  }

  lemma ExpandedIsGroups(sp: Spelling)
    requires Valid(sp)
    ensures |Expanded(sp)| == 8 && AllGroups(Expanded(sp))
  {
    if sp.Compressed? {
      var zeros := Zeros(8 - |sp.left| - |sp.right|);
      forall g | g in zeros ensures IsGroup(g) {
        var i :| 0 <= i < |zeros| && zeros[i] == g;
        assert g == "0" && g[0] == '0';
      }
    }
  }

  ghost function Value(gs: seq<string>, i: nat): nat
    requires i < |gs| && AllGroups(gs)
  {
    assert gs[i] in gs;
    GroupValue(gs[i])
  }

  function FourDigits(a: nat, b: nat, c: nat, d: nat): nat { ((a * 16 + b) * 16 + c) * 16 + d }

  lemma Hex4OfDigits(a: nat, b: nat, c: nat, d: nat)
    requires a < 16 && b < 16 && c < 16 && d < 16
    ensures FourDigits(a, b, c, d) < 0x1_0000
    ensures Hex4(FourDigits(a, b, c, d)) == [HexChar(a), HexChar(b), HexChar(c), HexChar(d)]
  {
    LastDigit((a * 16 + b) * 16 + c, d);
    LastDigit(a * 16 + b, c);
    LastDigit(a, b);
  }

  lemma LastDigit(q: nat, d: nat)
    requires d < 16
    ensures var v := q * 16 + d;
      v / 16 == q && v % 16 == d && v / 256 == q / 16 && v / 4096 == q / 256
  {
  }

  lemma DigitRoundTrip(c: char)
    requires IsHexDigit(c)
    ensures HexChar(DigitValue(c)) == LowerChar(c)
  {
  }

  lemma FourCharValue(g: string)
    requires |g| == 4 && forall c :: c in g ==> IsHexDigit(c)
    ensures g[0] in g && g[1] in g && g[2] in g && g[3] in g
    ensures GroupValue(g) == FourDigits(DigitValue(g[0]), DigitValue(g[1]), DigitValue(g[2]), DigitValue(g[3]))
  {
    var a, b, c := g[..1], g[..2], g[..3];
    assert c[..2] == b && b[..1] == a && a[..0] == [];
    assert GroupValue(a) == DigitValue(g[0]);
    assert GroupValue(b) == GroupValue(a) * 16 + DigitValue(g[1]);
    assert GroupValue(c) == GroupValue(b) * 16 + DigitValue(g[2]);
  }

  lemma FourCharGroup(g: string)
    requires |g| == 4 && forall c :: c in g ==> IsHexDigit(c)
    ensures GroupValue(g) < 0x1_0000 && Lower(g) == Hex4(GroupValue(g))
  {
    FourCharValue(g);
    Hex4OfDigits(DigitValue(g[0]), DigitValue(g[1]), DigitValue(g[2]), DigitValue(g[3]));
    LowerOfFour(g);
  }

  lemma LowerOfFour(g: string)
    requires |g| == 4 && IsHexDigit(g[0]) && IsHexDigit(g[1]) && IsHexDigit(g[2]) && IsHexDigit(g[3])
    ensures Lower(g) ==
      [HexChar(DigitValue(g[0])), HexChar(DigitValue(g[1])), HexChar(DigitValue(g[2])), HexChar(DigitValue(g[3]))]
  {
    DigitRoundTrip(g[0]);
    DigitRoundTrip(g[1]);
    DigitRoundTrip(g[2]);
    DigitRoundTrip(g[3]);
  }

  lemma LeadingZero(g: string)
    requires forall c :: c in g ==> IsHexDigit(c)
    ensures (forall c :: c in ['0'] + g ==> IsHexDigit(c)) && GroupValue(['0'] + g) == GroupValue(g)
  {
    var z := ['0'] + g;
    if g == [] {
      assert z[..0] == [];
    } else {
      assert z[..|z| - 1] == ['0'] + g[..|g| - 1];
      LeadingZero(g[..|g| - 1]);
    }
  }

  lemma LeadingZeros(g: string, n: nat)
    requires forall c :: c in g ==> IsHexDigit(c)
    ensures var p := seq(n, _ => '0') + g;
      (forall c :: c in p ==> IsHexDigit(c)) && GroupValue(p) == GroupValue(g)
  {
    if n == 0 {
      assert seq(0, _ => '0') + g == g;
    } else {
      LeadingZeros(g, n - 1);
      var p := seq(n - 1, _ => '0') + g;
      LeadingZero(p);
      assert seq(n, _ => '0') + g == ['0'] + p;
    }
  }

  /** Padding and lower-casing a group writes its value with four digits. */
  lemma GroupIsCanonical(g: string)
    requires IsGroup(g)
    ensures GroupValue(g) < 0x1_0000 && PadLower(g) == Hex4(GroupValue(g))
  {
    var p := seq(4 - |g|, _ => '0') + g;
    LeadingZeros(g, 4 - |g|);
    FourCharGroup(p);
    if |g| == 4 { assert p == g; }
  }

  /** The address that a spelling stands for. */
  ghost function Values(sp: Spelling): (vs: seq<Word>)
    requires Valid(sp)
    ensures |vs| == 8
  {
    ExpandedIsGroups(sp);
    WordsOf(Expanded(sp))
  }

  ghost function WordsOf(gs: seq<string>): (vs: seq<Word>)
    requires AllGroups(gs)
    ensures |vs| == |gs|
  {
    if gs == [] then []
    else
      assert gs[0] in gs && forall g :: g in gs[1..] ==> g in gs;
      GroupIsCanonical(gs[0]);
      [GroupValue(gs[0])] + WordsOf(gs[1..])
  }

  function HexAll(vs: seq<Word>): seq<string> {
    if vs == [] then [] else [Hex4(vs[0])] + HexAll(vs[1..])
  }

  lemma MapPadIsHexAll(gs: seq<string>)
    requires AllGroups(gs)
    ensures MapPad(gs) == HexAll(WordsOf(gs))
  {
    if gs != [] {
      assert gs[0] in gs && forall g :: g in gs[1..] ==> g in gs;
      GroupIsCanonical(gs[0]);
      MapPadIsHexAll(gs[1..]);
      assert MapPad(gs) == [PadLower(gs[0])] + MapPad(gs[1..]);
      assert WordsOf(gs)[1..] == WordsOf(gs[1..]);
    }
  }

  // ---------------------------------------------------------------------------
  // Splitting undoes joining
  // ---------------------------------------------------------------------------

  lemma GroupHasNoColon(g: string)
    requires IsGroup(g)
    ensures g != [] && ':' !in g
  {
    assert !IsHexDigit(':');
  }

  lemma SplitGroupColon(g: string, rest: string)
    requires ':' !in g
    ensures SplitColon(g) == [g]
    ensures SplitColon(g + ":" + rest) == [g] + SplitColon(rest)
  {
    var s := g + ":" + rest;
    if g == [] {
      assert s[0] == ':' && s[1..] == rest;
    } else {
      assert s[1..] == g[1..] + ":" + rest && s[0] == g[0];
      SplitGroupColon(g[1..], rest);
      assert [g[0]] + g[1..] == g;
    }
  }

  lemma {:induction false} SplitUndoesJoin(gs: seq<string>)
    requires AllGroups(gs) && gs != []
    ensures SplitColon(Join(gs)) == gs
  {
    var g, rest := gs[0], gs[1..];
    assert g in gs && forall h :: h in rest ==> h in gs;
    GroupHasNoColon(g);
    if |gs| == 1 {
      SplitGroupColon(g, "");
    } else {
      var t := Join(rest);
      SplitGroupColon(g, t);
      SplitUndoesJoin(rest);
      assert Join(gs) == g + ":" + t;
    }
  }

  ghost predicate NoDoubleColon(s: string) {
    forall i :: 0 <= i < |s| - 1 ==> !(s[i] == ':' && s[i + 1] == ':')
  }

  lemma JoinHasNoDoubleColon(gs: seq<string>)
    requires AllGroups(gs)
    ensures var s := Join(gs);
      NoDoubleColon(s) && (gs != [] ==> s != "" && s[0] != ':' && s[|s| - 1] != ':')
  {
    if gs != [] {
      assert gs[0] in gs && forall g :: g in gs[1..] ==> g in gs;
      GroupHasNoColon(gs[0]);
      assert forall i :: 0 <= i < |gs[0]| ==> gs[0][i] in gs[0];
      if |gs| > 1 {
        JoinHasNoDoubleColon(gs[1..]);
        JoinStep(gs[0], Join(gs[1..]));
      }
    }
  }

  lemma JoinStep(g: string, rest: string)
    requires g != "" && (forall i :: 0 <= i < |g| ==> g[i] != ':')
    requires rest != "" && NoDoubleColon(rest) && rest[0] != ':' && rest[|rest| - 1] != ':'
    ensures var s := g + ":" + rest;
      NoDoubleColon(s) && s[0] != ':' && s[|s| - 1] != ':'
  {
    var s := g + ":" + rest;
    assert forall i :: 0 <= i < |g| ==> s[i] == g[i];
    assert forall i :: 0 <= i < |rest| ==> s[|g| + 1 + i] == rest[i];
    forall i | 0 <= i < |s| - 1 ensures !(s[i] == ':' && s[i + 1] == ':') {
      if i > |g| { assert s[i] == rest[i - |g| - 1] && s[i + 1] == rest[i - |g|]; }
    }
  }

  lemma SplitAroundDoubleColon(left: string, right: string)
    requires NoDoubleColon(left) && NoDoubleColon(right)
    requires left != "" ==> left[|left| - 1] != ':'
    ensures SplitDoubleColon(left + "::" + right) == [left, right]
  {
    var s := left + "::" + right;
    assert forall i :: 0 <= i < |left| ==> s[i] == left[i];
    assert s[|left|] == ':' && s[|left| + 1] == ':';
    assert DoubleColonAt(s) == |left|;
    assert s[..|left|] == left && s[|left| + 2..] == right;
    assert DoubleColonAt(right) == -1;
    assert SplitDoubleColon(right) == [right];
  }

  // ---------------------------------------------------------------------------
  // The theorem
  // ---------------------------------------------------------------------------

  lemma SplitSide(gs: seq<string>)
    requires AllGroups(gs)
    ensures Side(Join(gs)) == gs
  {
    JoinHasNoDoubleColon(gs);
    if gs != [] { SplitUndoesJoin(gs); }
  }

  lemma TwoHalves(ip: string, l: string, r: string, left: seq<string>, right: seq<string>)
    requires SplitDoubleColon(ip) == [l, r] && Side(l) == left && Side(r) == right
    requires |left| + |right| <= 8
    ensures Segments(ip) == Some(left + Zeros(8 - |left| - |right|) + right)
  {
  }

  lemma SplitJoined(left: seq<string>, right: seq<string>)
    requires AllGroups(left) && AllGroups(right)
    ensures SplitDoubleColon(Join(left) + "::" + Join(right)) == [Join(left), Join(right)]
  {
    JoinHasNoDoubleColon(left);
    JoinHasNoDoubleColon(right);
    SplitAroundDoubleColon(Join(left), Join(right));
  }

  lemma CompressedExpands(left: seq<string>, right: seq<string>)
    requires |left| + |right| <= 8 && AllGroups(left) && AllGroups(right)
    ensures Segments(Join(left) + "::" + Join(right)) == Some(left + Zeros(8 - |left| - |right|) + right)
  {
    SplitJoined(left, right);
    SplitSide(left);
    SplitSide(right);
    TwoHalves(Join(left) + "::" + Join(right), Join(left), Join(right), left, right);
  }

  lemma FullExpands(gs: seq<string>)
    requires |gs| == 8 && AllGroups(gs)
    ensures Segments(Join(gs)) == Some(gs)
  {
    JoinHasNoDoubleColon(gs);
    assert SplitDoubleColon(Join(gs)) == [Join(gs)];
    SplitUndoesJoin(gs);
  }

  lemma SegmentsOfSpelling(sp: Spelling)
    requires Valid(sp)
    ensures Segments(Text(sp)) == Some(Expanded(sp))
  {
    match sp {
      case Full(gs) => FullExpands(gs);
      case Compressed(left, right) => CompressedExpands(left, right);
    }
  }

  /** Every spelling of an address, with or without `::`, with leading zeros or without, in
      either letter case, normalises to the same text: the eight groups of the address with
      four lower-case digits each. */
  lemma SpellingsNormalizeAlike(sp: Spelling)
    requires Valid(sp)
    ensures NormalizeIpv6(Text(sp)) == Some(Join(HexAll(Values(sp))))
  {
    SegmentsOfSpelling(sp);
    ExpandedIsGroups(sp);
    MapPadIsHexAll(Expanded(sp));
  }

  // ---------------------------------------------------------------------------
  // The verdict on IPv6 text
  // ---------------------------------------------------------------------------

  /** The hexadecimal digits that `s` starts with. */
  function HexPrefix(s: string): (p: string)
    ensures forall c :: c in p ==> IsHexDigit(c)
  {
    if s == [] || !IsHexDigit(s[0]) then [] else [s[0]] + HexPrefix(s[1..])
  }

  /** `parseInt(s, 16)`; no digits gives NaN, which the bit operations read as zero. */
  function ParseHex(s: string): nat { GroupValue(HexPrefix(s)) }

  /** `v & mask` for a mask that clears the bits below `size`, a power of two. */
  function ClearLow(v: nat, size: nat): nat
    requires size > 0
  {
    v - v % size
  }

  const LOOPBACK := "0000:0000:0000:0000:0000:0000:0000:0001"
  const UNSPECIFIED := "0000:0000:0000:0000:0000:0000:0000:0000"
  const MAPPED_PREFIX := "0000:0000:0000:0000:0000:ffff:"

  /** The verdict on the two groups that hold an embedded IPv4 address. */
  predicate IsPrivateTail(tail: string) {
    var parts := SplitColon(tail);
    var hi, lo := ParseHex(parts[0]), if |parts| > 1 then ParseHex(parts[1]) else 0;
    IsPrivateIpv4(hi / 256 % 256, hi % 256, lo / 256 % 256, lo % 256)
  }

  predicate IsPrivateText(normalized: string) {
    if normalized == LOOPBACK || normalized == UNSPECIFIED then true
    else
      var first := ParseHex(if |normalized| <= 4 then normalized else normalized[..4]);
      if ClearLow(first, 0x200) == 0xfc00 || ClearLow(first, 0x40) == 0xfe80 then true
      else if |MAPPED_PREFIX| <= |normalized| && normalized[..|MAPPED_PREFIX|] == MAPPED_PREFIX then
        IsPrivateTail(normalized[30..])
      else false
  }

  function IsPrivateIpv6(ip: string): Option<bool> {
    match NormalizeIpv6(ip)
    case None => None
    case Some(normalized) => Some(IsPrivateText(normalized))
  }

  // What the verdict should be, in terms of the 128-bit address.

  const WORD := 0x1_0000
  const TWO_32 := 0x1_0000_0000
  const TWO_112 := 0x1_0000_0000_0000_0000_0000_0000_0000

  function Address32(hi: Word, lo: Word): nat { hi * WORD + lo }

  function Address96(vs: seq<Word>): nat
    requires |vs| >= 6
  {
    ((((vs[0] * WORD + vs[1]) * WORD + vs[2]) * WORD + vs[3]) * WORD + vs[4]) * WORD + vs[5]
  }

  function Address128(vs: seq<Word>): nat
    requires |vs| == 8
  {
    Address96(vs) * TWO_32 + Address32(vs[6], vs[7])
  }

  function UniqueLocal(): (b: Block) ensures b.size > 0 { Block(0xfc00 * TWO_112, 0x200 * TWO_112) }
  function LinkLocal(): (b: Block) ensures b.size > 0 { Block(0xfe80 * TWO_112, 0x40 * TWO_112) }
  function MappedIpv4(): (b: Block) ensures b.size > 0 { Block(0xffff * TWO_32, TWO_32) }

  /** ::, ::1, fc00::/7, fe80::/10, and what IPv4 says in ::ffff:0:0/96. */
  ghost predicate PrivateAddress(v: nat) {
    || v == 0
    || v == 1
    || InBlock(v, UniqueLocal())
    || InBlock(v, LinkLocal())
    || (InBlock(v, MappedIpv4()) && InPrivateIpv4Block(v % TWO_32))
  }

  lemma TailIsIpv4(hi: Word, lo: Word)
    ensures IsPrivateIpv4(hi / 256 % 256, hi % 256, lo / 256 % 256, lo % 256)
      <==> InPrivateIpv4Block(Address32(hi, lo))
  {
    var a, b, c, d := hi / 256 % 256, hi % 256, lo / 256 % 256, lo % 256;
    assert hi == a * 256 + b && lo == c * 256 + d;
    assert Address(a, b, c, d) == Address32(hi, lo);
    PrivateIffInListedBlock(a, b, c, d);
  }

  lemma TimesPositive(k: nat, size: nat)
    requires k > 0
    ensures k * size >= size
  {
    assert k * size == (k - 1) * size + size;
  }

  lemma NonZeroMultiple(d: int, size: nat)
    requires d != 0
    ensures d * size >= size || d * size <= 0 - size
  {
    if d > 0 {
      TimesPositive(d, size);
    } else {
      TimesPositive(0 - d, size);
      assert d * size == 0 - (0 - d) * size;
    }
  }

  lemma HighPart(q: nat, r: nat, size: nat)
    requires r < size
    ensures (q * size + r) / size == q && (q * size + r) % size == r
  {
    var v := q * size + r;
    var d := v / size - q;
    assert v == (v / size) * size + v % size;
    assert d * size == (v / size) * size - q * size == r - v % size;
    if d != 0 { NonZeroMultiple(d, size); }
  }

  /** The address without its first group. */
  function Low112(vs: seq<Word>): (r: nat)
    requires |vs| == 8
    ensures r < TWO_112
  {
    ((((vs[1] * WORD + vs[2]) * WORD + vs[3]) * WORD + vs[4]) * WORD + vs[5]) * TWO_32 + Address32(vs[6], vs[7])
  }

  /** Membership of a block that fixes the upper bits of the first group. */
  lemma InTopBlock(vs: seq<Word>, base: Word, size: nat)
    requires |vs| == 8 && size > 0 && base % size == 0
    ensures TWO_112 * size > 0
    ensures InBlock(Address128(vs), Block(base * TWO_112, size * TWO_112)) <==> ClearLow(vs[0], size) == base
  {
    assert Address128(vs) == vs[0] * TWO_112 + Low112(vs);
    UpperBits(vs[0], Low112(vs), size);
    UpperBits(base, 0, size);
    SameUpperBits(vs[0], base, size);
  }

  lemma UpperBits(v: nat, r: nat, size: nat)
    requires r < TWO_112 && size > 0
    ensures size * TWO_112 > 0 && (v * TWO_112 + r) / (size * TWO_112) == v / size
  {
    var q, m := v / size, v % size;
    assert v == q * size + m;
    assert m * TWO_112 + r < size * TWO_112;
    assert v * TWO_112 + r == q * (size * TWO_112) + (m * TWO_112 + r);
    HighPart(q, m * TWO_112 + r, size * TWO_112);
  }

  lemma SameUpperBits(v: nat, base: nat, size: nat)
    requires size > 0 && base % size == 0
    ensures v / size == base / size <==> ClearLow(v, size) == base
  {
    assert v == (v / size) * size + v % size;
    assert base == (base / size) * size;
    if ClearLow(v, size) == base { HighPart(base / size, v % size, size); }
  }

  lemma InMappedBlock(vs: seq<Word>)
    requires |vs| == 8
    ensures InBlock(Address128(vs), MappedIpv4()) <==> vs[..6] == [0, 0, 0, 0, 0, 0xffff]
    ensures Address128(vs) % TWO_32 == Address32(vs[6], vs[7])
  {
    HighPart(Address96(vs), Address32(vs[6], vs[7]), TWO_32);
    HighPart(0xffff, 0, TWO_32);
    assert Address96(vs) == 0xffff <==> vs[0] == 0 && vs[1] == 0 && vs[2] == 0 && vs[3] == 0 && vs[4] == 0 && vs[5] == 0xffff;
    assert vs[..6] == [vs[0], vs[1], vs[2], vs[3], vs[4], vs[5]];
  }

  lemma SmallAddress(vs: seq<Word>, last: Word)
    requires |vs| == 8
    ensures Address128(vs) == last <==> vs == [0, 0, 0, 0, 0, 0, 0, last]
  {
  }

  // The tests on canonical text are tests on its eight words.

  lemma HexDigitOf(n: nat)
    requires n < 16
    ensures IsHexDigit(HexChar(n)) && DigitValue(HexChar(n)) == n
  {
  }

  lemma WordOfDigits(v: Word)
    ensures v / 4096 < 16 && v == FourDigits(v / 4096, v / 256 % 16, v / 16 % 16, v % 16)
  {
    var q := v / 16;
    assert v == 16 * q + v % 16 && v / 256 == q / 16;
    var r := q / 16;
    assert q == 16 * r + q % 16 && v / 4096 == r / 16 && r == 16 * (r / 16) + r % 16;
  }

  lemma HexOfWord(v: Word)
    ensures IsGroup(Hex4(v)) && GroupValue(Hex4(v)) == v
  {
    WordOfDigits(v);
    HexDigitOf(v / 4096);
    HexDigitOf(v / 256 % 16);
    HexDigitOf(v / 16 % 16);
    HexDigitOf(v % 16);
    FourCharValue(Hex4(v));
  }

  lemma HexAllFacts(vs: seq<Word>)
    ensures |HexAll(vs)| == |vs| && AllGroups(HexAll(vs)) && WordsOf(HexAll(vs)) == vs
  {
    if vs != [] {
      HexOfWord(vs[0]);
      HexAllFacts(vs[1..]);
    }
  }

  function Canonical(vs: seq<Word>): string { Join(HexAll(vs)) }

  /** Distinct addresses have distinct canonical texts. */
  lemma CanonicalIsInjective(vs: seq<Word>, ws: seq<Word>)
    requires vs != [] && ws != [] && Canonical(vs) == Canonical(ws)
    ensures vs == ws
  {
    HexAllFacts(vs);
    HexAllFacts(ws);
    SplitUndoesJoin(HexAll(vs));
    SplitUndoesJoin(HexAll(ws));
  }

  lemma CanonicalStep(vs: seq<Word>)
    requires vs != []
    ensures Canonical(vs) == if |vs| == 1 then Hex4(vs[0]) else Hex4(vs[0]) + ":" + Canonical(vs[1..])
  {
    HexAllFacts(vs[1..]);
    assert HexAll(vs)[1..] == HexAll(vs[1..]);
  }

  lemma {:induction false} CanonicalSplits(vs: seq<Word>, k: nat)
    requires 0 < k < |vs|
    ensures Canonical(vs) == Canonical(vs[..k]) + ":" + Canonical(vs[k..])
    ensures |Canonical(vs[..k])| == 5 * k - 1
    decreases k
  {
    var g, tail := Hex4(vs[0]), Canonical(vs[k..]);
    CanonicalStep(vs);
    CanonicalStep(vs[..k]);
    if k > 1 {
      CanonicalSplits(vs[1..], k - 1);
      assert vs[..k][1..] == vs[1..][..k - 1] && vs[1..][k - 1..] == vs[k..];
      Reassociate(g, Canonical(vs[1..][..k - 1]), tail);
    }
  }

  lemma Reassociate(a: string, b: string, c: string)
    ensures a + ":" + (b + ":" + c) == (a + ":" + b) + ":" + c
  {
  }

  lemma HexPrefixOfDigits(s: string, rest: string)
    requires forall c :: c in s ==> IsHexDigit(c)
    requires rest == [] || !IsHexDigit(rest[0])
    ensures HexPrefix(s + rest) == s
  {
    if s == [] {
      assert s + rest == rest;
    } else {
      assert (s + rest)[1..] == s[1..] + rest;
      HexPrefixOfDigits(s[1..], rest);
    }
  }

  lemma ParseHexOfWord(v: Word)
    ensures ParseHex(Hex4(v)) == v
  {
    HexOfWord(v);
    HexPrefixOfDigits(Hex4(v), []);
    assert Hex4(v) + [] == Hex4(v);
  }

  lemma HexConstants()
    ensures Hex4(0) == "0000" && Hex4(1) == "0001" && Hex4(0xffff) == "ffff"
  {
  }

  lemma ConstantTexts()
    ensures LOOPBACK == Canonical([0, 0, 0, 0, 0, 0, 0, 1])
    ensures UNSPECIFIED == Canonical([0, 0, 0, 0, 0, 0, 0, 0])
    ensures MAPPED_PREFIX == Canonical([0, 0, 0, 0, 0, 0xffff]) + ":"
  {
    LastWord(1);
    LastWord(0);
    LiteralTexts();
    MappedPrefixText();
  }

  const SEVEN_ZEROS := "0000:0000:0000:0000:0000:0000:0000:"

  lemma LiteralTexts()
    ensures LOOPBACK == SEVEN_ZEROS + Hex4(1) && UNSPECIFIED == SEVEN_ZEROS + Hex4(0)
  {
    HexConstants();
  }

  lemma LastWord(v: Word)
    ensures Canonical([0, 0, 0, 0, 0, 0, 0, v]) == SEVEN_ZEROS + Hex4(v)
  {
    SevenZeros(v);
    SevenZerosText(Hex4(v));
  }

  lemma SevenZerosText(g: string)
    ensures "0000:0000:0000:0000:0000:" + ("0000:" + ("0000:" + g)) == SEVEN_ZEROS + g
  {
  }

  lemma MappedPrefixText()
    ensures MAPPED_PREFIX == Canonical([0, 0, 0, 0, 0, 0xffff]) + ":"
  {
    HexConstants();
    SingleText(0xffff);
    FiveZeros([0xffff]);
    assert [0, 0, 0, 0, 0] + [0xffff] == [0, 0, 0, 0, 0, 0xffff];
    assert Canonical([0, 0, 0, 0, 0, 0xffff]) == "0000:0000:0000:0000:0000:" + "ffff";
  }

  lemma SingleText(v: Word)
    ensures Canonical([v]) == Hex4(v)
  {
    CanonicalStep([v]);
  }

  lemma SevenZeros(v: Word)
    ensures Canonical([0, 0, 0, 0, 0, 0, 0, v]) == "0000:0000:0000:0000:0000:" + ("0000:" + ("0000:" + Hex4(v)))
  {
    HexConstants();
    FiveZeros([0, 0, v]);
    CanonicalCons(0, [0, v]);
    CanonicalCons(0, [v]);
    SingleText(v);
    assert [0] + [v] == [0, v] && [0] + [0, v] == [0, 0, v];
    assert [0, 0, 0, 0, 0] + [0, 0, v] == [0, 0, 0, 0, 0, 0, 0, v];
  }

  lemma CanonicalCons(v: Word, vs: seq<Word>)
    requires vs != []
    ensures Canonical([v] + vs) == Hex4(v) + ":" + Canonical(vs)
  {
    CanonicalStep([v] + vs);
    assert ([v] + vs)[1..] == vs;
  }

  lemma ZeroText(vs: seq<Word>)
    requires vs != []
    ensures Canonical([0] + vs) == "0000:" + Canonical(vs)
  {
    HexConstants();
    CanonicalCons(0, vs);
    assert "0000" + ":" == "0000:";
  }

  lemma FiveZeros(vs: seq<Word>)
    requires vs != []
    ensures Canonical([0, 0, 0, 0, 0] + vs) == "0000:0000:0000:0000:0000:" + Canonical(vs)
  {
    var v1 := [0] + vs;
    var v2 := [0] + v1;
    var v3 := [0] + v2;
    var v4 := [0] + v3;
    ZeroText(vs);
    ZeroText(v1);
    ZeroText(v2);
    ZeroText(v3);
    ZeroText(v4);
    assert [0, 0, 0, 0, 0] + vs == [0] + v4;
    var t := Canonical(vs);
    FiveTexts(t);
  }

  lemma FiveTexts(t: string)
    ensures "0000:" + ("0000:" + ("0000:" + ("0000:" + ("0000:" + t)))) == "0000:0000:0000:0000:0000:" + t
  {
  }

  lemma TailText(hi: Word, lo: Word)
    ensures SplitColon(Canonical([hi, lo])) == [Hex4(hi), Hex4(lo)]
  {
    var vs := [hi, lo];
    assert vs[1..] == [lo];
    assert HexAll(vs) == [Hex4(hi)] + HexAll([lo]) == [Hex4(hi), Hex4(lo)];
    HexAllFacts(vs);
    SplitUndoesJoin(HexAll(vs));
  }

  lemma TailVerdict(hi: Word, lo: Word)
    ensures IsPrivateTail(Canonical([hi, lo])) <==> InPrivateIpv4Block(Address32(hi, lo))
  {
    TailText(hi, lo);
    ParseHexOfWord(hi);
    ParseHexOfWord(lo);
    TailIsIpv4(hi, lo);
  }

  lemma FirstGroup(vs: seq<Word>)
    requires |vs| == 8
    ensures |Canonical(vs)| == 39 && ParseHex(Canonical(vs)[..4]) == vs[0]
  {
    CanonicalSplits(vs, 1);
    CanonicalSplits(vs, 7);
    CanonicalStep(vs[..1]);
    CanonicalStep(vs[7..]);
    assert Canonical(vs)[..4] == Hex4(vs[0]);
    ParseHexOfWord(vs[0]);
  }

  lemma MappedText(vs: seq<Word>)
    requires |vs| == 8
    ensures |Canonical(vs)| == 39
    ensures Canonical(vs)[..30] == MAPPED_PREFIX <==> vs[..6] == [0, 0, 0, 0, 0, 0xffff]
    ensures Canonical(vs)[30..] == Canonical([vs[6], vs[7]])
  {
    FirstGroup(vs);
    CanonicalSplits(vs, 6);
    var head, tail := Canonical(vs[..6]), Canonical(vs[6..]);
    assert Canonical(vs) == head + ":" + tail && |head| == 29;
    assert vs[6..] == [vs[6], vs[7]];
    assert Canonical(vs)[..30] == head + ":";
    ConstantTexts();
    if head + ":" == MAPPED_PREFIX {
      assert head == (head + ":")[..29] == Canonical([0, 0, 0, 0, 0, 0xffff]);
      CanonicalIsInjective(vs[..6], [0, 0, 0, 0, 0, 0xffff]);
    }
  }

  lemma ConstantVerdict(vs: seq<Word>)
    requires |vs| == 8
    ensures Canonical(vs) == LOOPBACK <==> Address128(vs) == 1
    ensures Canonical(vs) == UNSPECIFIED <==> Address128(vs) == 0
  {
    ConstantTexts();
    SmallAddress(vs, 0);
    SmallAddress(vs, 1);
    if Canonical(vs) == LOOPBACK { CanonicalIsInjective(vs, [0, 0, 0, 0, 0, 0, 0, 1]); }
    if Canonical(vs) == UNSPECIFIED { CanonicalIsInjective(vs, [0, 0, 0, 0, 0, 0, 0, 0]); }
  }

  lemma CanonicalVerdict(vs: seq<Word>)
    requires |vs| == 8
    ensures IsPrivateText(Canonical(vs)) <==> PrivateAddress(Address128(vs))
  {
    ConstantVerdict(vs);
    FirstGroup(vs);
    InTopBlock(vs, 0xfc00, 0x200);
    InTopBlock(vs, 0xfe80, 0x40);
    MappedText(vs);
    InMappedBlock(vs);
    TailVerdict(vs[6], vs[7]);
  }

  /** For every spelling in forms 1 and 2 the verdict depends only on the address, and it is
      membership in the listed blocks; an IPv4-mapped address spelled so gets the verdict of its
      embedded IPv4 address. */
  lemma VerdictIsBlockMembership(sp: Spelling)
    requires Valid(sp)
    ensures IsPrivateIpv6(Text(sp)).Some?
    ensures IsPrivateIpv6(Text(sp)).value <==> PrivateAddress(Address128(Values(sp)))
  {
    SpellingsNormalizeAlike(sp);
    CanonicalVerdict(Values(sp));
  }
}
