/**
 IPv6 text expansion (section 2.2 of RFC 4291) and private-range classification
 for webhook destinations, which must fail closed.
 */
module Ipv6 {
  import opened Prelude
  import opened Text

  type Groups = seq<nat>

  // ---------------------------------------------------------------- the parser

  predicate HexDigit(c: char) {
    '0' <= c <= '9' || 'a' <= c <= 'f'
  }

  function HexValue(c: char): nat
    requires HexDigit(c)
  {
    if '0' <= c <= '9' then c as nat - '0' as nat else 10 + (c as nat - 'a' as nat)
  }

  predicate IsGroupText(t: string) {
    1 <= |t| <= 4 && forall i :: 0 <= i < |t| ==> HexDigit(t[i])
  }

  function ParseHex(t: string): nat
    requires forall i :: 0 <= i < |t| ==> HexDigit(t[i])
  {
    if t == [] then 0 else 16 * ParseHex(t[..|t| - 1]) + HexValue(t[|t| - 1])
  }

  function ParseGroups(parts: seq<string>): Option<Groups> {
    if parts == [] then Some([])
    else if !IsGroupText(parts[|parts| - 1]) then None
    else
      match ParseGroups(parts[..|parts| - 1])
      case None => None
      case Some(groups) => Some(groups + [ParseHex(parts[|parts| - 1])])
  }

  /** expand */
  function Expand(side: string): Option<Groups> {
    if side == "" then Some([]) else ParseGroups(Split(side, ':'))
  }

  /** Where the first "::" starts. */
  function FirstDouble(s: string): (r: Option<nat>)
    ensures r.Some? ==> r.value + 2 <= |s|
  {
    if |s| < 2 then None
    else if s[0] == ':' && s[1] == ':' then Some(0)
    else match FirstDouble(s[1..]) case None => None case Some(k) => Some(k + 1)
  }

  function LastColon(s: string): (r: Option<nat>)
    ensures r.Some? ==> r.value < |s|
  {
    if s == [] then None
    else if s[|s| - 1] == ':' then Some(|s| - 1)
    else LastColon(s[..|s| - 1])
  }

  predicate IsNumberText(t: string) {
    t != [] && forall c :: c in t ==> IsDecimal(c)
  }

  /** \d+\.\d+\.\d+\.\d+ */
  predicate IsQuadText(t: string) {
    var parts := Split(t, '.');
    |parts| == 4 && forall i :: 0 <= i < 4 ==> IsNumberText(parts[i])
  }

  datatype Head = Plain(text: string) | Quad(head: string, tail: Groups) | Bad

  /** A trailing dotted quad becomes the last two groups; one colon left before it is dropped. */
  function TakeQuad(ip: string): (r: Head)
    ensures r.Plain? ==> r.text == ip
  {
    match LastColon(ip)
    case None => Plain(ip)
    case Some(k) =>
      var head, quad := ip[..k], ip[k + 1..];
      if !IsQuadText(quad) then Plain(ip)
      else
        var parts := Split(quad, '.');
        var a, b, c, d := ReadNat(parts[0]), ReadNat(parts[1]), ReadNat(parts[2]), ReadNat(parts[3]);
        if a > 255 || b > 255 || c > 255 || d > 255 then Bad
        else
          var trailing := head != [] && head[|head| - 1] == ':' && !(|head| >= 2 && head[|head| - 2] == ':');
          Quad(if trailing then head[..|head| - 1] else head, [256 * a + b, 256 * c + d])
  }

  function Zeros(n: nat): Groups {
    seq(n, _ => 0)
  }

  function ExpandHead(head: string, tail: Groups): Option<Groups> {
    match FirstDouble(head)
    case None => (
      match Expand(head)
      case None => None
      case Some(flat) => if |flat + tail| == 8 then Some(flat + tail) else None)
    case Some(k) =>
      var left, right := head[..k], head[k + 2..];
      if FirstDouble(right).Some? || Expand(left).None? || Expand(right).None? then None
      else
        var l, r := Expand(left).value, Expand(right).value;
        if |l| + |r| + |tail| > 8 then None else Some(l + Zeros(8 - |tail| - |l| - |r|) + r + tail)
  }

  function Canonicalize(ip: string): Option<Groups> {
    if '%' in ip then None
    else
      match TakeQuad(ip)
      case Bad => None
      case Plain(text) => ExpandHead(text, [])
      case Quad(head, tail) => ExpandHead(head, tail)
  }

  lemma {:induction false} BadPartSpoils(parts: seq<string>, i: nat)
    requires i < |parts| && !IsGroupText(parts[i])
    ensures ParseGroups(parts) == None
    decreases |parts|
  {
    if i < |parts| - 1 { BadPartSpoils(parts[..|parts| - 1], i); }
  }

  method ExpandSide(side: string) returns (r: Option<Groups>)
    ensures r == Expand(side)
  {
    if side == "" { return Some([]); }
    var parts := Split(side, ':');
    var groups: Groups := [];
    for i := 0 to |parts|
      invariant ParseGroups(parts[..i]) == Some(groups)
    {
      if !IsGroupText(parts[i]) {
        BadPartSpoils(parts, i);
        return None;
      }
      assert parts[..i + 1][..i] == parts[..i];
      groups := groups + [ParseHex(parts[i])];
    }
    assert parts[..|parts|] == parts;
    return Some(groups);
  }

  method CanonicalizeIpv6(ip: string) returns (r: Option<Groups>)
    ensures r == Canonicalize(ip)
  {
    hide TakeQuad, FirstDouble, Expand;
    if '%' in ip { return None; }
    var head, tail: Groups := ip, [];
    var taken := TakeQuad(ip);
    if taken.Bad? { return None; }
    if taken.Quad? { head, tail := taken.head, taken.tail; }
    assert Canonicalize(ip) == ExpandHead(head, tail);
    var double := FirstDouble(head);
    if double.None? {
      var flat := ExpandSide(head);
      assert FirstDouble(head) == None && flat == Expand(head);
      if flat.None? { return None; }
      var groups := flat.value + tail;
      return if |groups| == 8 then Some(groups) else None;
    }
    var rest := head[double.value + 2..];
    if FirstDouble(rest).Some? { return None; }
    var left := ExpandSide(head[..double.value]);
    var right := ExpandSide(rest);
    if left.None? || right.None? { return None; }
    var fill := 8 - |tail| - |left.value| - |right.value|;
    if fill < 0 { return None; }
    return Some(left.value + Zeros(fill) + right.value + tail);
  }

  // ------------------------------------------------------------- the classifier

  predicate PrivateOctets(a: nat, b: nat) {
    a == 10 || (a == 172 && 16 <= b <= 31) || (a == 192 && b == 168) || a == 127 || (a == 169 && b == 254) || a == 0
  }

  /** isPrivateIpv4: anything but four numbers below 256 is private. */
  predicate IsPrivateIpv4(ip: string) {
    if !IsQuadText(ip) then true
    else
      var parts := Split(ip, '.');
      var a, b, c, d := ReadNat(parts[0]), ReadNat(parts[1]), ReadNat(parts[2]), ReadNat(parts[3]);
      a > 255 || b > 255 || c > 255 || d > 255 || PrivateOctets(a, b)
  }

  function ShowQuad(a: nat, b: nat, c: nat, d: nat): string {
    Join([ShowNat(a), ShowNat(b), ShowNat(c), ShowNat(d)], '.')
  }

  predicate IsMapped(g: Groups)
    requires |g| == 8
  {
    g[0] == g[1] == g[2] == g[3] == g[4] == 0 && g[5] == 0xffff
  }

  predicate IsPrivateIpv6(g: Groups)
    requires |g| == 8
  {
    if g == [0, 0, 0, 0, 0, 0, 0, 1] then true
    else if IsMapped(g) then IsPrivateIpv4(ShowQuad(g[6] / 256, g[6] % 256, g[7] / 256, g[7] % 256))
    else g[0] / 0x200 == 0xfc00 / 0x200 || g[0] / 0x40 == 0xfe80 / 0x40
  }

  /** isPrivateAddress, for text that is IPv6 */
  predicate IsPrivateIpv6Text(ip: string) {
    match Canonicalize(ip)
    case None => true
    case Some(g) => |g| != 8 || IsPrivateIpv6(g)
  }

  // ------------------------------------------------------------------ group texts

  ghost predicate GroupTexts(texts: seq<string>) {
    forall i :: 0 <= i < |texts| ==> IsGroupText(texts[i])
  }

  function Values(texts: seq<string>): (r: Groups)
    requires forall i :: 0 <= i < |texts| ==> IsGroupText(texts[i])
    ensures |r| == |texts|
  {
    if texts == [] then []
    else
      assert IsGroupText(texts[|texts| - 1]);
      Values(texts[..|texts| - 1]) + [ParseHex(texts[|texts| - 1])]
  }

  lemma {:induction false} ParsedGroups(texts: seq<string>)
    requires GroupTexts(texts)
    ensures ParseGroups(texts) == Some(Values(texts))
  {
    if texts != [] { ParsedGroups(texts[..|texts| - 1]); }
  }

  ghost predicate DoubleAt(s: string, i: int) {
    0 <= i < |s| - 1 && s[i] == ':' && s[i + 1] == ':'
  }

  lemma {:induction false} FirstDoubleIsFirst(s: string)
    ensures match FirstDouble(s)
      case None => forall i :: !DoubleAt(s, i)
      case Some(k) => DoubleAt(s, k) && forall i :: i < k ==> !DoubleAt(s, i)
  {
    if |s| >= 2 && !DoubleAt(s, 0) {
      FirstDoubleIsFirst(s[1..]);
      forall i
        ensures DoubleAt(s, i) <==> DoubleAt(s[1..], i - 1)
      {
      }
    }
  }

  lemma FirstDoubleFound(s: string, k: nat)
    requires DoubleAt(s, k) && forall i :: i < k ==> !DoubleAt(s, i)
    ensures FirstDouble(s) == Some(k)
  {
    FirstDoubleIsFirst(s);
  }

  /** No "::" inside, no colon at either end. */
  ghost predicate Clean(s: string) {
    (forall i :: !DoubleAt(s, i)) && (s != [] ==> s[0] != ':' && s[|s| - 1] != ':')
  }

  lemma GroupTextFree(t: string, c: char)
    requires IsGroupText(t) && !HexDigit(c)
    ensures c !in t
  {
  }

  lemma {:induction false} JoinedClean(texts: seq<string>)
    requires GroupTexts(texts)
    ensures Clean(Join(texts, ':')) && (Join(texts, ':') == [] <==> texts == [])
    ensures '.' !in Join(texts, ':') && '%' !in Join(texts, ':')
  {
    if texts != [] {
      var t := texts[0];
      GroupTextFree(t, ':');
      GroupTextFree(t, '.');
      GroupTextFree(t, '%');
      assert t[0] in t && t[|t| - 1] in t;
      if |texts| == 1 {
        forall i
          ensures !DoubleAt(t, i)
        {
          if 0 <= i < |t| { assert t[i] in t; }
        }
      } else {
        JoinedClean(texts[1..]);
        CleanConcat(t, Join(texts[1..], ':'));
      }
    }
  }

  lemma CleanConcat(t: string, rest: string)
    requires ':' !in t && t != [] && Clean(rest) && rest != []
    ensures Clean(t + [':'] + rest)
  {
    var s := t + [':'] + rest;
    assert t[0] in t;
    forall i
      ensures !DoubleAt(s, i)
    {
      if 0 <= i < |t| {
        assert s[i] == t[i] && t[i] in t;
      } else if |t| < i < |s| - 1 {
        assert !DoubleAt(rest, i - |t| - 1);
        assert s[i] == rest[i - |t| - 1] && s[i + 1] == rest[i - |t|];
      }
    }
  }

  lemma ExpandedJoin(texts: seq<string>)
    requires GroupTexts(texts)
    ensures Expand(Join(texts, ':')) == Some(Values(texts))
  {
    hide ParseGroups;
    hide Values;
    JoinedClean(texts);
    ParsedGroups(texts);
    if texts != [] {
      forall p | p in texts
        ensures ':' !in p
      {
        GroupTextFree(p, ':');
      }
      SplitJoin(texts, ':');
    }
  }

  lemma DoubleBetween(l: string, r: string)
    requires Clean(l)
    ensures var head := l + "::" + r;
      FirstDouble(head) == Some(|l|) && head[..|l|] == l && head[|l| + 2..] == r
  {
    var head := l + "::" + r;
    forall i | i < |l|
      ensures !DoubleAt(head, i)
    {
      assert !DoubleAt(l, i);
      if 0 <= i < |l| - 1 { assert head[i] == l[i] && head[i + 1] == l[i + 1]; }
      if i == |l| - 1 && i >= 0 { assert head[i] == l[i]; }
    }
    assert head[|l|] == ':' && head[|l| + 1] == ':';
    FirstDoubleFound(head, |l|);
  }

  /** Hexadecimal sides around one "::", in front of `tail`. */
  lemma {:induction false} CompressedHead(left: seq<string>, right: seq<string>, tail: Groups)
    requires GroupTexts(left) && GroupTexts(right) && |left| + |right| + |tail| <= 8
    ensures ExpandHead(Join(left, ':') + "::" + Join(right, ':'), tail)
         == Some(Values(left) + Zeros(8 - |left| - |right| - |tail|) + Values(right) + tail)
  {
    hide Expand;
    hide FirstDouble;
    hide Values;
    hide Join;
    JoinedClean(left);
    JoinedClean(right);
    DoubleBetween(Join(left, ':'), Join(right, ':'));
    FirstDoubleIsFirst(Join(right, ':'));
    hide Clean;
    hide DoubleAt;
    ExpandedJoin(left);
    ExpandedJoin(right);
  }

  lemma FullHead(texts: seq<string>, tail: Groups)
    requires GroupTexts(texts)
    ensures ExpandHead(Join(texts, ':'), tail) == if |texts| + |tail| == 8 then Some(Values(texts) + tail) else None
  {
    JoinedClean(texts);
    FirstDoubleIsFirst(Join(texts, ':'));
    ExpandedJoin(texts);
    hide Expand;
    hide FirstDouble;
    hide Values;
  }

  // ------------------------------------------------------- with a dotted quad

  /** Decimal texts of four octets. */
  ghost predicate OctetTexts(octets: seq<string>) {
    |octets| == 4 && forall i :: 0 <= i < 4 ==> IsNumberText(octets[i]) && ReadNat(octets[i]) <= 255
  }

  function QuadGroups(octets: seq<string>): Groups
    requires |octets| == 4 && forall i :: 0 <= i < 4 ==> IsNumberText(octets[i])
  {
    assert IsNumberText(octets[0]) && IsNumberText(octets[1]) && IsNumberText(octets[2]) && IsNumberText(octets[3]);
    [256 * ReadNat(octets[0]) + ReadNat(octets[1]), 256 * ReadNat(octets[2]) + ReadNat(octets[3])]
  }

  lemma NumberTextFree(t: string, c: char)
    requires IsNumberText(t) && !IsDecimal(c)
    ensures c !in t
  {
  }

  lemma {:induction false} LastColonFound(head: string, tail: string)
    requires ':' !in tail
    ensures LastColon(head + [':'] + tail) == Some(|head|)
    decreases |tail|
  {
    var s := head + [':'] + tail;
    if tail != [] {
      assert s[|s| - 1] == tail[|tail| - 1] && tail[|tail| - 1] in tail;
      assert s[..|s| - 1] == head + [':'] + tail[..|tail| - 1];
      LastColonFound(head, tail[..|tail| - 1]);
    }
  }

  lemma QuadRead(octets: seq<string>)
    requires OctetTexts(octets)
    ensures var quad := Join(octets, '.');
      IsQuadText(quad) && Split(quad, '.') == octets && ':' !in quad && '%' !in quad
  {
    forall p | p in octets
      ensures '.' !in p && ':' !in p && '%' !in p
    {
      NumberTextFree(p, '.');
      NumberTextFree(p, ':');
      NumberTextFree(p, '%');
    }
    SplitJoin(octets, '.');
    JoinFree(octets, '.', ':');
    JoinFree(octets, '.', '%');
  }

  lemma NoQuadWithoutDot(ip: string)
    requires '.' !in ip
    ensures TakeQuad(ip) == Plain(ip)
  {
    match LastColon(ip)
    case None =>
    case Some(k) =>
      var quad := ip[k + 1..];
      assert '.' !in quad;
      SplitHead(quad, [], '.');
  }

  /** A quad after `head` and a colon. */
  lemma QuadTaken(head: string, octets: seq<string>)
    requires OctetTexts(octets)
    ensures TakeQuad(head + [':'] + Join(octets, '.')) ==
      Quad(if head != [] && head[|head| - 1] == ':' && !(|head| >= 2 && head[|head| - 2] == ':') then head[..|head| - 1] else head,
           QuadGroups(octets))
  {
    hide LastColon, Split, Join, ReadNat;
    var quad := Join(octets, '.');
    var ip := head + [':'] + quad;
    QuadRead(octets);
    LastColonFound(head, quad);
    assert ip[..|head|] == head && ip[|head| + 1..] == quad;
    assert LastColon(ip) == Some(|head|);
  }

  // ------------------------------------------------------------- the theorems

  /** The full text of eight groups expands to exactly those groups, whatever their leading zeros. */
  lemma FullTextExpands(texts: seq<string>)
    requires GroupTexts(texts) && |texts| == 8
    ensures Canonicalize(Join(texts, ':')) == Some(Values(texts))
  {
    JoinedClean(texts);
    NoQuadWithoutDot(Join(texts, ':'));
    FullHead(texts, []);
    assert Values(texts) + [] == Values(texts);
    hide TakeQuad;
    hide ExpandHead;
    hide Join;
    hide Values;
  }

  /** So does the text with one run of zero groups written as "::". */
  lemma CompressedTextExpands(left: seq<string>, right: seq<string>)
    requires GroupTexts(left) && GroupTexts(right) && |left| + |right| <= 8
    ensures Canonicalize(Join(left, ':') + "::" + Join(right, ':'))
         == Some(Values(left) + Zeros(8 - |left| - |right|) + Values(right))
  {
    hide TakeQuad;
    hide ExpandHead;
    hide Join;
    hide Values;
    JoinedClean(left);
    JoinedClean(right);
    hide Clean;
    NoQuadWithoutDot(Join(left, ':') + "::" + Join(right, ':'));
    CompressedHead(left, right, []);
    assert Values(left) + Zeros(8 - |left| - |right|) + Values(right) + [] == Values(left) + Zeros(8 - |left| - |right|) + Values(right);
  }

  /** Text before a colon and a dotted quad is expanded with the quad's two groups as its tail. */
  lemma QuadIsTail(head: string, octets: seq<string>)
    requires OctetTexts(octets) && '%' !in head
    ensures var open := if head != [] && head[|head| - 1] == ':' && !(|head| >= 2 && head[|head| - 2] == ':')
                then head[..|head| - 1] else head;
      Canonicalize(head + ":" + Join(octets, '.')) == ExpandHead(open, QuadGroups(octets))
  {
    hide TakeQuad, ExpandHead, Join, QuadGroups, OctetTexts, IsQuadText, Split;
    QuadRead(octets);
    QuadTaken(head, octets);
  }

  /** Six groups and a dotted quad. */
  lemma FullQuadExpands(texts: seq<string>, octets: seq<string>)
    requires GroupTexts(texts) && |texts| == 6 && OctetTexts(octets)
    ensures Canonicalize(Join(texts, ':') + ":" + Join(octets, '.')) == Some(Values(texts) + QuadGroups(octets))
  {
    hide Canonicalize, ExpandHead, Join, Values, DoubleAt;
    JoinedClean(texts);
    QuadIsTail(Join(texts, ':'), octets);
    FullHead(texts, QuadGroups(octets));
  }

  lemma EndsInGroup(front: string, right: seq<string>)
    requires GroupTexts(right) && right != []
    ensures var head := front + Join(right, ':'); head != [] && head[|head| - 1] != ':'
  {
    hide Join;
    JoinedClean(right);
    var head, tail := front + Join(right, ':'), Join(right, ':');
    assert head[|head| - 1] == tail[|tail| - 1];
  }

  /** One "::" and a dotted quad with a hexadecimal group before it. */
  lemma CompressedQuadExpands(left: seq<string>, right: seq<string>, octets: seq<string>)
    requires GroupTexts(left) && GroupTexts(right) && right != [] && |left| + |right| <= 6 && OctetTexts(octets)
    ensures Canonicalize(Join(left, ':') + "::" + Join(right, ':') + ":" + Join(octets, '.'))
         == Some(Values(left) + Zeros(6 - |left| - |right|) + Values(right) + QuadGroups(octets))
  {
    hide Canonicalize, ExpandHead, Join, Values, Clean, GroupTexts, Zeros;
    var head := Join(left, ':') + "::" + Join(right, ':');
    JoinedClean(left);
    JoinedClean(right);
    EndsInGroup(Join(left, ':') + "::", right);
    QuadIsTail(head, octets);
    CompressedHead(left, right, QuadGroups(octets));
  }

  /** A "::" directly before a quad fails closed, unless it stands for no group at all. */
  lemma BareCompressedQuad(left: seq<string>, octets: seq<string>)
    requires GroupTexts(left) && OctetTexts(octets)
    ensures Canonicalize(Join(left, ':') + "::" + Join(octets, '.'))
         == if |left| == 6 then Some(Values(left) + QuadGroups(octets)) else None
  {
    hide Canonicalize, ExpandHead, Join, Values, DoubleAt;
    var l := Join(left, ':');
    var head := l + ":";
    JoinedClean(left);
    assert head[..|head| - 1] == l && (l != [] ==> head[|head| - 2] == l[|l| - 1]);
    QuadIsTail(head, octets);
    assert l + "::" + Join(octets, '.') == head + ":" + Join(octets, '.');
    FullHead(left, QuadGroups(octets));
  }

  lemma {:induction false} HexBelow(t: string)
    requires forall i :: 0 <= i < |t| ==> HexDigit(t[i])
    ensures ParseHex(t) < Pow16(|t|)
  {
    if t != [] { HexBelow(t[..|t| - 1]); }
  }

  lemma GroupBelow(t: string)
    requires IsGroupText(t)
    ensures ParseHex(t) < 0x10000
  {
    hide ParseHex;
    HexBelow(t);
    assert Pow16(1) == 16 && Pow16(2) == 256;
    assert Pow16(3) == 4096 && Pow16(4) == 0x10000;
  }

  ghost predicate SixteenBit(g: Groups) {
    forall i :: 0 <= i < |g| ==> g[i] < 0x10000
  }

  lemma {:induction false} GroupsBelow(parts: seq<string>)
    ensures ParseGroups(parts).Some? ==> SixteenBit(ParseGroups(parts).value)
  {
    hide ParseHex;
    if parts != [] {
      GroupsBelow(parts[..|parts| - 1]);
      if IsGroupText(parts[|parts| - 1]) { GroupBelow(parts[|parts| - 1]); }
    }
  }

  lemma SideBelow(side: string)
    ensures Expand(side).Some? ==> SixteenBit(Expand(side).value)
  {
    hide ParseGroups;
    GroupsBelow(Split(side, ':'));
  }

  lemma TailBelow(ip: string)
    ensures TakeQuad(ip).Quad? ==> SixteenBit(TakeQuad(ip).tail)
  {
    hide Split;
    hide ReadNat;
  }

  lemma HeadBelow(head: string, tail: Groups)
    requires SixteenBit(tail)
    ensures var r := ExpandHead(head, tail);
      r.Some? ==> |r.value| == 8 && SixteenBit(r.value)
  {
    hide Expand, FirstDouble;
    SideBelow(head);
    if FirstDouble(head).Some? {
      var k := FirstDouble(head).value;
      SideBelow(head[..k]);
      SideBelow(head[k + 2..]);
    }
  }

  /** Whatever the text, its canonical form is eight 16-bit groups. */
  lemma CanonicalGroups(ip: string)
    ensures var r := Canonicalize(ip);
      r.Some? ==> |r.value| == 8 && SixteenBit(r.value)
  {
    hide TakeQuad, ExpandHead;
    TailBelow(ip);
    match TakeQuad(ip)
    case Bad =>
    case Plain(text) => HeadBelow(text, []);
    case Quad(head, tail) => HeadBelow(head, tail);
  }

  lemma ShownQuadRead(a: nat, b: nat, c: nat, d: nat)
    ensures IsPrivateIpv4(ShowQuad(a, b, c, d)) <==> a > 255 || b > 255 || c > 255 || d > 255 || PrivateOctets(a, b)
  {
    hide ReadNat;
    hide ShowNat;
    var parts := [ShowNat(a), ShowNat(b), ShowNat(c), ShowNat(d)];
    forall p | p in parts
      ensures '.' !in p
    {
      NumberTextFree(p, '.');
    }
    SplitJoin(parts, '.');
    ReadShown(a);
    ReadShown(b);
    ReadShown(c);
    ReadShown(d);
  }

  /** Any text that expands to an IPv4-mapped address is classified as the embedded IPv4 address. */
  lemma MappedIsItsIpv4(ip: string, g: Groups)
    requires Canonicalize(ip) == Some(g) && |g| == 8 && IsMapped(g)
    ensures IsPrivateIpv6Text(ip) <==> PrivateOctets(g[6] / 256, g[6] % 256)
  {
    hide Canonicalize;
    CanonicalGroups(ip);
    ShownQuadRead(g[6] / 256, g[6] % 256, g[7] / 256, g[7] % 256);
    hide IsPrivateIpv4;
  }

  lemma {:induction false} HexAppend(t: string, c: char)
    requires (forall i :: 0 <= i < |t| ==> HexDigit(t[i])) && HexDigit(c)
    ensures ParseHex(t + [c]) == 16 * ParseHex(t) + HexValue(c)
  {
    assert (t + [c])[..|t|] == t;
  }

  lemma {:induction false} ValuesAppend(texts: seq<string>, t: string)
    requires GroupTexts(texts) && IsGroupText(t)
    ensures GroupTexts(texts + [t]) && Values(texts + [t]) == Values(texts) + [ParseHex(t)]
  {
    assert (texts + [t])[..|texts|] == texts;
  }

  lemma HexOfNothing()
    ensures ParseHex("") == 0
  {}

  lemma HexMark()
    ensures IsGroupText("ffff") && ParseHex("ffff") == 0xffff
  {
    hide ParseHex;
    HexOfNothing();
    HexAppend("", 'f');
    assert "" + ['f'] == "f";
    HexAppend("f", 'f');
    assert "f" + ['f'] == "ff";
    HexAppend("ff", 'f');
    assert "ff" + ['f'] == "fff";
    HexAppend("fff", 'f');
    assert "fff" + ['f'] == "ffff";
  }

  /** The groups of a mapped address are as private as the quad they hold. */
  lemma MappedGroups(ip: string, octets: seq<string>)
    requires OctetTexts(octets) && Canonicalize(ip) == Some(Zeros(5) + [0xffff] + QuadGroups(octets))
    ensures IsPrivateIpv6Text(ip) == IsPrivateIpv4(Join(octets, '.'))
  {
    hide Canonicalize;
    hide Split;
    hide Join;
    QuadRead(octets);
    var g := Zeros(5) + [0xffff] + QuadGroups(octets);
    var a, b, c, d := ReadNat(octets[0]), ReadNat(octets[1]), ReadNat(octets[2]), ReadNat(octets[3]);
    assert g[6] == 256 * a + b && g[7] == 256 * c + d && IsMapped(g);
    hide ReadNat;
    MappedIsItsIpv4(ip, g);
  }

  /** ::ffff:a.b.c.d and ::ffff:hhhh:hhhh are as private as a.b.c.d. */
  lemma MappedFormsAgree(octets: seq<string>, high: string, low: string)
    requires OctetTexts(octets) && IsGroupText(high) && IsGroupText(low)
    requires [ParseHex(high), ParseHex(low)] == QuadGroups(octets)
    ensures IsPrivateIpv6Text("::ffff:" + Join(octets, '.')) == IsPrivateIpv4(Join(octets, '.'))
    ensures IsPrivateIpv6Text("::ffff:" + high + ":" + low) == IsPrivateIpv4(Join(octets, '.'))
  {
    hide Canonicalize;
    hide IsPrivateIpv6Text;
    hide IsPrivateIpv4;
    hide ParseHex;
    hide OctetTexts;
    HexMark();
    MappedDotted(octets);
    MappedHex(octets, high, low);
  }

  lemma MappedDotted(octets: seq<string>)
    requires OctetTexts(octets)
    ensures IsPrivateIpv6Text("::ffff:" + Join(octets, '.')) == IsPrivateIpv4(Join(octets, '.'))
  {
    var none: seq<string> := [];
    var mark := ["ffff"];
    HexMark();
    var ip := Join(none, ':') + "::" + Join(mark, ':') + ":" + Join(octets, '.');
    assert ip == "::ffff:" + Join(octets, '.');
    assert Values(mark) == [0xffff] by { assert mark[..0] == []; }
    hide ParseHex;
    hide Canonicalize;
    hide IsPrivateIpv6Text;
    hide IsPrivateIpv4;
    CompressedQuadExpands(none, mark, octets);
    assert Values(none) + Zeros(5) + Values(mark) + QuadGroups(octets) == Zeros(5) + [0xffff] + QuadGroups(octets);
    MappedGroups(ip, octets);
  }

  lemma MappedHex(octets: seq<string>, high: string, low: string)
    requires OctetTexts(octets) && IsGroupText(high) && IsGroupText(low)
    requires [ParseHex(high), ParseHex(low)] == QuadGroups(octets)
    ensures IsPrivateIpv6Text("::ffff:" + high + ":" + low) == IsPrivateIpv4(Join(octets, '.'))
  {
    var none: seq<string> := [];
    var texts := ["ffff", high, low];
    HexMark();
    hide ParseHex;
    hide Canonicalize;
    hide IsPrivateIpv6Text;
    hide IsPrivateIpv4;
    assert texts[1..] == [high, low] && [high, low][1..] == [low];
    assert Join([high, low], ':') == high + [':'] + Join([low], ':');
    assert Join(texts, ':') == "ffff" + [':'] + Join([high, low], ':');
    hide Values;
    ValuesAppend([], "ffff");
    ValuesAppend(["ffff"], high);
    ValuesAppend(["ffff", high], low);
    assert [] + ["ffff"] == ["ffff"] && ["ffff"] + [high] == ["ffff", high] && ["ffff", high] + [low] == texts;
    var ip := Join(none, ':') + "::" + Join(texts, ':');
    assert ip == "::ffff:" + high + ":" + low;
    CompressedTextExpands(none, texts);
    assert Values(none) == [];
    assert Values(none) + Zeros(5) + Values(texts) == Zeros(5) + [0xffff] + QuadGroups(octets);
    MappedGroups(ip, octets);
  }

  // ------------------------------------------------------ from groups and back

  /** n.toString(16) */
  function ShowHex(n: nat): string {
    if n < 16 then [HexChar(n)] else ShowHex(n / 16) + [HexChar(n % 16)]
  }

  lemma {:induction false} ReadShownHex(n: nat)
    ensures forall i :: 0 <= i < |ShowHex(n)| ==> HexDigit(ShowHex(n)[i])
    ensures ParseHex(ShowHex(n)) == n
  {
    if n < 16 {
      assert ShowHex(n)[..0] == [];
    } else {
      ReadShownHex(n / 16);
      HexAppend(ShowHex(n / 16), HexChar(n % 16));
    }
  }

  lemma {:induction false} ShownLength(n: nat, width: nat)
    requires width >= 1 && n < Pow16(width)
    ensures 1 <= |ShowHex(n)| <= width
    decreases width
  {
    if n >= 16 {
      assert width > 1;
      ShownLength(n / 16, width - 1);
    }
  }

  lemma ShownGroup(n: nat)
    requires n < 0x10000
    ensures IsGroupText(ShowHex(n)) && ParseHex(ShowHex(n)) == n
  {
    hide ShowHex, ParseHex;
    ReadShownHex(n);
    assert Pow16(1) == 16 && Pow16(2) == 256;
    assert Pow16(3) == 4096 && Pow16(4) == 0x10000;
    ShownLength(n, 4);
  }

  function ShowGroups(g: Groups): seq<string> {
    if g == [] then [] else ShowGroups(g[..|g| - 1]) + [ShowHex(g[|g| - 1])]
  }

  lemma {:induction false} ShownValues(g: Groups)
    requires SixteenBit(g)
    ensures GroupTexts(ShowGroups(g)) && Values(ShowGroups(g)) == g && |ShowGroups(g)| == |g|
  {
    hide ShowHex, ParseHex, IsGroupText;
    if g != [] {
      var init, last := g[..|g| - 1], g[|g| - 1];
      ShownValues(init);
      ShownGroup(last);
      ValuesAppend(ShowGroups(init), ShowHex(last));
      assert g == init + [last];
    }
  }

  /** Eight groups written out in hexadecimal are recovered. */
  lemma FullRoundTrip(g: Groups)
    requires |g| == 8 && SixteenBit(g)
    ensures Canonicalize(Join(ShowGroups(g), ':')) == Some(g)
  {
    hide Canonicalize, Join, ShowGroups, Values;
    ShownValues(g);
    FullTextExpands(ShowGroups(g));
  }

  /** So are they when any run of zero groups is written as "::". */
  lemma CompressedRoundTrip(g: Groups, i: nat, j: nat)
    requires |g| == 8 && SixteenBit(g) && i <= j <= 8 && forall k :: i <= k < j ==> g[k] == 0
    ensures Canonicalize(Join(ShowGroups(g[..i]), ':') + "::" + Join(ShowGroups(g[j..]), ':')) == Some(g)
  {
    hide Canonicalize, Join, ShowGroups, Values;
    ShownValues(g[..i]);
    ShownValues(g[j..]);
    CompressedTextExpands(ShowGroups(g[..i]), ShowGroups(g[j..]));
    assert g[..i] + Zeros(j - i) + g[j..] == g;
  }

  // -------------------------------------------------- which addresses are private

  /** The IPv4 ranges: 0/8, 10/8, 127/8, 169.254/16, 172.16/12, 192.168/16. */
  predicate PrivateIpv4Number(n: nat) {
    || n < 0x0100_0000
    || 0x0a00_0000 <= n < 0x0b00_0000
    || 0x7f00_0000 <= n < 0x8000_0000
    || 0xa9fe_0000 <= n < 0xa9ff_0000
    || 0xac10_0000 <= n < 0xac20_0000
    || 0xc0a8_0000 <= n < 0xc0a9_0000
  }

  /** The octet tests are those ranges. */
  lemma OctetsAreRanges(a: nat, b: nat, low: nat)
    requires a < 256 && b < 256 && low < 0x10000
    ensures PrivateOctets(a, b) <==> PrivateIpv4Number(0x0100_0000 * a + 0x10000 * b + low)
  {}

  /** The IPv6 ranges: ::1, the private part of ::ffff:0:0/96, fc00::/7 and fe80::/10; nothing else. */
  ghost predicate PrivateRange(g: Groups)
    requires |g| == 8
  {
    || ((forall i :: 0 <= i < 7 ==> g[i] == 0) && g[7] == 1)
    || ((forall i :: 0 <= i < 5 ==> g[i] == 0) && g[5] == 0xffff && PrivateIpv4Number(0x10000 * g[6] + g[7]))
    || 0xfc00 <= g[0] <= 0xfdff
    || 0xfe80 <= g[0] <= 0xfebf
  }

  lemma MappedRange(g: Groups)
    requires |g| == 8 && SixteenBit(g) && IsMapped(g)
    ensures IsPrivateIpv6(g) <==> PrivateIpv4Number(0x10000 * g[6] + g[7])
  {
    hide IsPrivateIpv4, PrivateIpv4Number, PrivateOctets;
    var a, b := g[6] / 256, g[6] % 256;
    ShownQuadRead(a, b, g[7] / 256, g[7] % 256);
    OctetsAreRanges(a, b, g[7]);
    assert 0x0100_0000 * a + 0x10000 * b == 0x10000 * g[6];
    assert g != [0, 0, 0, 0, 0, 0, 0, 1] by { assert g[5] == 0xffff; }
  }

  /** Exactly which groups are classified as private. */
  lemma PrivateExactly(g: Groups)
    requires |g| == 8 && SixteenBit(g)
    ensures IsPrivateIpv6(g) <==> PrivateRange(g)
  {
    hide IsPrivateIpv4, PrivateIpv4Number, ShowQuad;
    if IsMapped(g) {
      MappedRange(g);
    } else {
      assert g[0] / 0x200 == 0xfc00 / 0x200 <==> 0xfc00 <= g[0] <= 0xfdff;
      assert g[0] / 0x40 == 0xfe80 / 0x40 <==> 0xfe80 <= g[0] <= 0xfebf;
      assert (forall i :: 0 <= i < 7 ==> g[i] == 0) && g[7] == 1 <==> g == [0, 0, 0, 0, 0, 0, 0, 1];
    }
  }

  /** A text is refused as private exactly when it does not expand or its groups lie in those ranges. */
  lemma PrivateTextExactly(ip: string)
    ensures IsPrivateIpv6Text(ip) <==>
      match Canonicalize(ip)
      case None => true
      case Some(g) => |g| == 8 && PrivateRange(g)
  {
    hide Canonicalize, IsPrivateIpv6, PrivateRange;
    CanonicalGroups(ip);
    match Canonicalize(ip)
    case None =>
    case Some(g) => PrivateExactly(g);
  }

  /** So the unspecified address passes as public. */
  lemma UnspecifiedIsPublic()
    ensures Canonicalize("::") == Some(Zeros(8)) && !IsPrivateIpv6Text("::")
  {
    var none: seq<string> := [];
    hide Canonicalize, PrivateIpv4Number;
    CompressedTextExpands(none, none);
    assert Join(none, ':') + "::" + Join(none, ':') == "::";
    assert Values(none) + Zeros(8) + Values(none) == Zeros(8);
    PrivateTextExactly("::");
  }

  // -------------------------------------------------------- which texts expand

  /** Up to `n` hexadecimal groups, all written out or with one "::" for the missing ones. */
  ghost predicate Spells(text: string, n: nat, g: Groups) {
    || (exists texts :: GroupTexts(texts) && |texts| == n && text == Join(texts, ':') && g == Values(texts))
    || (exists left, right :: SpellsAround(text, left, right, n, g))
  }

  ghost predicate SpellsAround(text: string, left: seq<string>, right: seq<string>, n: nat, g: Groups) {
    && GroupTexts(left) && GroupTexts(right) && |left| + |right| <= n && text == Join(left, ':') + "::" + Join(right, ':')
    && g == Values(left) + Zeros(n - |left| - |right|) + Values(right)
  }

  /** Six groups and a dotted quad, after one colon or, if no colon ends the groups, after two. */
  ghost predicate SpellsQuad(ip: string, head: string, octets: seq<string>, g: Groups) {
    && OctetTexts(octets) && |g| == 8 && g[6..] == QuadGroups(octets) && Spells(head, 6, g[..6])
    && (ip == head + ":" + Join(octets, '.')
        || (ip == head + "::" + Join(octets, '.') && head != [] && head[|head| - 1] != ':'))
  }

  lemma {:induction false} ParsedAreGroups(parts: seq<string>)
    requires ParseGroups(parts).Some?
    ensures GroupTexts(parts) && ParseGroups(parts) == Some(Values(parts))
  {
    hide ParseHex;
    if parts != [] {
      ParsedAreGroups(parts[..|parts| - 1]);
      assert parts == parts[..|parts| - 1] + [parts[|parts| - 1]];
      ParsedGroups(parts);
    }
  }

  /** A side that expands is a join of group texts. */
  lemma ExpandedSide(side: string) returns (texts: seq<string>)
    requires Expand(side).Some?
    ensures GroupTexts(texts) && side == Join(texts, ':') && Expand(side) == Some(Values(texts))
  {
    hide ParseGroups, Values, GroupTexts;
    if side == "" {
      texts := [];
      NoGroups();
    } else {
      texts := Split(side, ':');
      ParsedAreGroups(texts);
      JoinSplit(side, ':');
    }
  }

  lemma NoGroups()
    ensures GroupTexts([]) && Values([]) == []
  {
  }

  /** What a head and its tail expand to, exactly. */
  lemma HeadExactly(head: string, tail: Groups, g: Groups)
    requires |tail| <= 8
    ensures ExpandHead(head, tail) == Some(g) <==>
      |g| == 8 && g[8 - |tail|..] == tail && Spells(head, 8 - |tail|, g[..8 - |tail|])
  {
    var n := 8 - |tail|;
    if ExpandHead(head, tail) == Some(g) {
      HeadSpells(head, tail, g);
    }
    if |g| == 8 && g[n..] == tail && Spells(head, n, g[..n]) {
      SpelledHead(head, tail, g);
    }
  }

  lemma HeadSpells(head: string, tail: Groups, g: Groups)
    requires |tail| <= 8 && ExpandHead(head, tail) == Some(g)
    ensures |g| == 8 && g[8 - |tail|..] == tail && Spells(head, 8 - |tail|, g[..8 - |tail|])
  {
    hide Expand, Values, IsGroupText, Join;
    FirstDoubleIsFirst(head);
    match FirstDouble(head)
    case None =>
      var texts := ExpandedSide(head);
      ValuesLength(texts);
      assert g[..8 - |tail|] == Values(texts);
    case Some(k) =>
      var left := ExpandedSide(head[..k]);
      var right := ExpandedSide(head[k + 2..]);
      ValuesLength(left);
      ValuesLength(right);
      var l, r := Values(left), Values(right);
      assert g[..8 - |tail|] == l + Zeros(8 - |tail| - |l| - |r|) + r;
      assert head == head[..k] + "::" + head[k + 2..];
      assert SpellsAround(head, left, right, 8 - |tail|, g[..8 - |tail|]);
  }

  lemma ValuesLength(texts: seq<string>)
    requires GroupTexts(texts)
    ensures |Values(texts)| == |texts|
  {
  }

  lemma SpelledHead(head: string, tail: Groups, g: Groups)
    requires |tail| <= 8 && |g| == 8 && g[8 - |tail|..] == tail && Spells(head, 8 - |tail|, g[..8 - |tail|])
    ensures ExpandHead(head, tail) == Some(g)
  {
    hide Values, IsGroupText, Join, ExpandHead;
    var n := 8 - |tail|;
    assert g == g[..n] + g[n..];
    if left, right :| SpellsAround(head, left, right, n, g[..n]) {
      CompressedHead(left, right, tail);
      assert Values(left) + Zeros(n - |left| - |right|) + Values(right) + tail == g;
    } else {
      var texts :| GroupTexts(texts) && |texts| == n && head == Join(texts, ':') && g[..n] == Values(texts);
      FullHead(texts, tail);
    }
  }

  /** What hexadecimal groups spell has neither a zone nor a dot in it, and no single colon at its end. */
  lemma SpelledText(text: string, n: nat, g: Groups)
    requires Spells(text, n, g)
    ensures '%' !in text && '.' !in text
    ensures text != [] && text[|text| - 1] == ':' ==> |text| >= 2 && text[|text| - 2] == ':'
  {
    hide Values, IsGroupText, Join, DoubleAt;
    if left, right :| SpellsAround(text, left, right, n, g) {
      JoinedClean(left);
      JoinedClean(right);
      var r := Join(right, ':');
      if r != [] { assert text[|text| - 1] == r[|r| - 1]; }
    } else {
      var texts :| GroupTexts(texts) && |texts| == n && text == Join(texts, ':') && g == Values(texts);
      JoinedClean(texts);
    }
  }

  /** The quad a text ends in, as it was written. */
  lemma QuadWritten(ip: string) returns (before: string, octets: seq<string>)
    requires TakeQuad(ip).Quad?
    ensures OctetTexts(octets) && ip == before + ":" + Join(octets, '.') && TakeQuad(ip).tail == QuadGroups(octets)
    ensures TakeQuad(ip).head ==
      if before != [] && before[|before| - 1] == ':' && !(|before| >= 2 && before[|before| - 2] == ':') then before[..|before| - 1] else before
  {
    hide Split, Join, ReadNat;
    var k := LastColon(ip).value;
    before := ip[..k];
    var quad := ip[k + 1..];
    octets := Split(quad, '.');
    JoinSplit(quad, '.');
    LastColonIs(ip);
    assert ip == before + [':'] + quad;
  }

  lemma {:induction false} LastColonIs(s: string)
    ensures LastColon(s).Some? ==> s[LastColon(s).value] == ':'
  {
    if s != [] && s[|s| - 1] != ':' { LastColonIs(s[..|s| - 1]); }
  }

  /** Exactly which texts expand, and to what. */
  lemma CanonicalExactly(ip: string, g: Groups)
    ensures Canonicalize(ip) == Some(g) <==>
      Spells(ip, 8, g) || ('%' !in ip && exists head, octets :: SpellsQuad(ip, head, octets, g))
  {
    if Canonicalize(ip) == Some(g) { CanonicalSpells(ip, g); }
    if Spells(ip, 8, g) { SpelledPlain(ip, g); }
    if head, octets :| SpellsQuad(ip, head, octets, g) { SpelledQuad(ip, head, octets, g); }
  }

  lemma CanonicalSpells(ip: string, g: Groups)
    requires Canonicalize(ip) == Some(g)
    ensures Spells(ip, 8, g) || ('%' !in ip && exists head, octets :: SpellsQuad(ip, head, octets, g))
  {
    hide TakeQuad, ExpandHead, Spells, OctetTexts, Join, QuadGroups;
    match TakeQuad(ip)
    case Bad =>
    case Plain(text) =>
      HeadExactly(ip, [], g);
      assert g[..8] == g;
    case Quad(head, tail) =>
      var before, octets := QuadWritten(ip);
      QuadHasTwo(octets);
      HeadExactly(head, tail, g);
      SpelledText(head, 6, g[..6]);
      if head != before {
        assert before == head + ":";
        assert ip == head + "::" + Join(octets, '.');
        SixGroupsShow(head, g[..6]);
      }
      assert SpellsQuad(ip, head, octets, g);
  }

  lemma QuadHasTwo(octets: seq<string>)
    requires OctetTexts(octets)
    ensures |QuadGroups(octets)| == 2
  {
  }

  /** Six groups are never the empty text. */
  lemma SixGroupsShow(head: string, g: Groups)
    requires Spells(head, 6, g)
    ensures head != []
  {
    hide Values, Join, DoubleAt;
    if left, right :| SpellsAround(head, left, right, 6, g) {
      assert |head| >= 2;
    } else {
      var texts :| GroupTexts(texts) && |texts| == 6 && head == Join(texts, ':') && g == Values(texts);
      JoinedClean(texts);
    }
  }

  lemma SpelledPlain(ip: string, g: Groups)
    requires Spells(ip, 8, g)
    ensures Canonicalize(ip) == Some(g)
  {
    hide TakeQuad, ExpandHead, Spells;
    SpelledText(ip, 8, g);
    NoQuadWithoutDot(ip);
    SpelledLength(ip, 8, g);
    assert g[..8] == g;
    SpelledHead(ip, [], g);
  }

  lemma SpelledLength(text: string, n: nat, g: Groups)
    requires Spells(text, n, g)
    ensures |g| == n
  {
    hide Join;
  }

  lemma SpelledQuad(ip: string, head: string, octets: seq<string>, g: Groups)
    requires SpellsQuad(ip, head, octets, g)
    ensures '%' !in ip && Canonicalize(ip) == Some(g)
  {
    hide TakeQuad, ExpandHead, Spells, OctetTexts, Join, QuadGroups, Canonicalize, IsQuadText, Split;
    SpelledText(head, 6, g[..6]);
    QuadHasTwo(octets);
    QuadRead(octets);
    SpelledHead(head, QuadGroups(octets), g);
    if ip == head + ":" + Join(octets, '.') {
      QuadIsTail(head, octets);
    } else {
      var longer := head + ":";
      assert longer[..|longer| - 1] == head && longer[|longer| - 2] == head[|head| - 1];
      QuadIsTail(longer, octets);
      assert ip == longer + ":" + Join(octets, '.');
    }
  }
}
