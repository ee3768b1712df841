/**
 Base 32 without padding (section 6 of RFC 4648), as apps/api/src/internal/totp.ts
 computes it: on a 32-bit accumulator that is shifted and never masked, so old
 bits fall off its left end. A machine word is its 32 bits.
 */
module Base32 {
  import opened Prelude

  type Byte = n: nat | n < 256

  // ------------------------------------------------------ bits and 32-bit words

  /** The low `width` bits of `n`, most significant first. */
  function Bits(n: nat, width: nat): (b: seq<bool>)
    ensures |b| == width
  {
    if width == 0 then [] else Bits(n / 2, width - 1) + [n % 2 == 1]
  }

  /** The number a string of bits denotes. */
  function Number(bits: seq<bool>): nat {
    if bits == [] then 0 else 2 * Number(bits[..|bits| - 1]) + (if bits[|bits| - 1] then 1 else 0)
  }

  function Pow2(n: nat): nat {
    if n == 0 then 1 else 2 * Pow2(n - 1)
  }

  lemma {:induction false} NumberOfBits(bits: seq<bool>)
    ensures Number(bits) < Pow2(|bits|) && Bits(Number(bits), |bits|) == bits
  {
    if bits != [] {
      var shorter := bits[..|bits| - 1];
      NumberOfBits(shorter);
      assert Number(bits) / 2 == Number(shorter);
      assert bits == shorter + [bits[|bits| - 1]];
    }
  }

  lemma {:induction false} BitsOfNumber(n: nat, width: nat)
    requires n < Pow2(width)
    ensures Number(Bits(n, width)) == n
  {
    if width > 0 {
      BitsOfNumber(n / 2, width - 1);
      var b := Bits(n, width);
      assert b[..|b| - 1] == Bits(n / 2, width - 1);
    }
  }

  function Zeros(n: nat): seq<bool> {
    seq(n, _ => false)
  }

  lemma {:induction false} HighBitsAreZero(n: nat, high: nat, low: nat)
    requires n < Pow2(low)
    ensures Bits(n, high + low) == Zeros(high) + Bits(n, low)
    decreases low
  {
    if low == 0 {
      ZeroBits(high);
      assert Bits(n, 0) == [];
    } else {
      HighBitsAreZero(n / 2, high, low - 1);
    }
  }

  lemma {:induction false} ZeroBits(width: nat)
    ensures Bits(0, width) == Zeros(width)
  {
    if width > 0 { ZeroBits(width - 1); }
  }

  type Word = b: seq<bool> | |b| == 32 witness Zeros(32)

  /** `w << k` */
  function ShiftLeft(w: Word, k: nat): Word
    requires k <= 32
  {
    w[k..] + Zeros(k)
  }

  /** `w >>> k` */
  function ShiftRight(w: Word, k: nat): Word
    requires k <= 32
  {
    Zeros(k) + w[..32 - k]
  }

  /** `w | n` */
  function Or(w: Word, n: nat): Word {
    var v := Bits(n, 32);
    seq(32, i requires 0 <= i < 32 => w[i] || v[i])
  }

  /** `w & (2^m - 1)`, as a number */
  function Mask(w: Word, m: nat): nat
    requires m <= 32
  {
    Number(w[32 - m..])
  }

  /** Shifting by `m` and or-ing in an m-bit number appends the number's bits and drops the oldest. */
  lemma ShiftIn(w: Word, n: nat, m: nat)
    requires m <= 32 && n < Pow2(m)
    ensures Or(ShiftLeft(w, m), n) == w[m..] + Bits(n, m)
  {
    HighBitsAreZero(n, 32 - m, m);
    var v, s := Bits(n, 32), ShiftLeft(w, m);
    forall i | 0 <= i < 32
      ensures Or(s, n)[i] == (w[m..] + Bits(n, m))[i]
    {
      assert v[i] == if i < 32 - m then false else Bits(n, m)[i - (32 - m)];
    }
  }

  /** `(w >>> k) & (2^m - 1)` reads the m bits that end k places from the right. */
  lemma ShiftOut(w: Word, k: nat, m: nat)
    requires k + m <= 32
    ensures Mask(ShiftRight(w, k), m) == Number(w[32 - k - m..32 - k])
  {
    assert ShiftRight(w, k)[32 - m..] == w[32 - k - m..32 - k];
  }

  // ----------------------------------------------------------------- alphabet

  const ALPHABET: string := "ABCDEFGHIJKLMNOPQRSTUVWXYZ234567"

  function Symbol(digit: nat): char
    requires digit < 32
  {
    ALPHABET[digit]
  }

  /** ALPHABET.indexOf */
  function Index(c: char): (r: Option<nat>)
    ensures r.Some? ==> r.value < 32
  {
    if 'A' <= c <= 'Z' then Some(c as nat - 'A' as nat)
    else if '2' <= c <= '7' then Some(26 + (c as nat - '2' as nat))
    else None
  }

  lemma IndexOfSymbol(digit: nat)
    requires digit < 32
    ensures Index(Symbol(digit)) == Some(digit)
  {
    hide Bits;
  }

  /** The alphabet of section 6 of RFC 4648: only its characters have an index, and each its own. */
  lemma AlphabetExactly(c: char)
    ensures match Index(c)
      case None => c !in "ABCDEFGHIJKLMNOPQRSTUVWXYZ234567"
      case Some(d) => c == "ABCDEFGHIJKLMNOPQRSTUVWXYZ234567"[d] == Symbol(d)
  {
    if c in ALPHABET {
      var d :| 0 <= d < 32 && ALPHABET[d] == c;
      IndexOfSymbol(d);
    }
  }

  /** Upper-case symbols only: neither padding nor anything foreign. */
  ghost predicate Spelled(text: string) {
    forall c :: c in text ==> Index(c).Some?
  }

  /** The bits a base-32 text stands for: five a symbol. */
  ghost function TextBits(text: string): (b: seq<bool>)
    requires Spelled(text)
    ensures |b| == 5 * |text|
  {
    if text == [] then []
    else TextBits(text[..|text| - 1]) + Bits(Index(text[|text| - 1]).value, 5)
  }

  ghost function ByteBits(bytes: seq<Byte>): (b: seq<bool>)
    ensures |b| == 8 * |bytes|
  {
    if bytes == [] then [] else ByteBits(bytes[..|bytes| - 1]) + Bits(bytes[|bytes| - 1], 8)
  }

  lemma TextBitsAppend(text: string, bits: seq<bool>)
    requires Spelled(text) && |bits| == 5
    ensures Number(bits) < 32
    ensures var longer := text + [Symbol(Number(bits))];
      Spelled(longer) && TextBits(longer) == TextBits(text) + bits
  {
    NumberOfBits(bits);
    assert Pow2(5) == 32;
    IndexOfSymbol(Number(bits));
    var longer := text + [Symbol(Number(bits))];
    assert longer[..|text|] == text;
  }

  lemma ByteBitsAppend(bytes: seq<Byte>, bits: seq<bool>)
    requires |bits| == 8
    ensures Number(bits) < 256 && ByteBits(bytes + [Number(bits)]) == ByteBits(bytes) + bits
  {
    NumberOfBits(bits);
    assert Pow2(8) == 256;
    assert (bytes + [Number(bits)])[..|bytes|] == bytes;
  }

  // ------------------------------------------------------------------- encode

  /** The text spells the bytes' bits, then fewer than five zero bits. */
  ghost predicate Encodes(text: string, bytes: seq<Byte>) {
    Spelled(text) && |text| == (8 * |bytes| + 4) / 5
    && TextBits(text) == ByteBits(bytes) + Zeros(5 * |text| - 8 * |bytes|)
  }

  /** Written so far, then the pending low bits of the accumulator: together `all`. */
  ghost predicate Carrying(text: string, value: Word, bits: nat, all: seq<bool>) {
    bits <= 32 && Spelled(text) && TextBits(text) + value[32 - bits..] == all
  }

  lemma TakeIn(value: Word, bits: nat, n: nat, m: nat)
    requires bits + m <= 32 && n < Pow2(m)
    ensures Or(ShiftLeft(value, m), n)[32 - (bits + m)..] == value[32 - bits..] + Bits(n, m)
  {
    ShiftIn(value, n, m);
  }

  lemma EmitSymbol(text: string, value: Word, bits: nat, all: seq<bool>)
    requires Carrying(text, value, bits, all) && bits >= 5
    ensures var digit := Mask(ShiftRight(value, bits - 5), 5);
      digit < 32 && Carrying(text + [Symbol(digit)], value, bits - 5, all)
  {
    ShiftOut(value, bits - 5, 5);
    var next := value[32 - bits..37 - bits];
    TextBitsAppend(text, next);
    assert value[32 - bits..] == next + value[37 - bits..];
  }

  lemma EmitLast(text: string, value: Word, bits: nat, all: seq<bool>)
    requires Carrying(text, value, bits, all) && 0 < bits < 5
    ensures var digit := Mask(ShiftLeft(value, 5 - bits), 5);
      digit < 32 && Spelled(text + [Symbol(digit)]) && TextBits(text + [Symbol(digit)]) == all + Zeros(5 - bits)
  {
    var last := value[32 - bits..] + Zeros(5 - bits);
    assert ShiftLeft(value, 5 - bits)[27..] == last;
    TextBitsAppend(text, last);
  }

  lemma ByteBitsNext(buffer: seq<Byte>, i: nat)
    requires i < |buffer|
    ensures ByteBits(buffer[..i + 1]) == ByteBits(buffer[..i]) + Bits(buffer[i], 8)
  {
    assert buffer[..i + 1][..i] == buffer[..i];
  }

  method Encode(buffer: seq<Byte>) returns (output: string)
    ensures Encodes(output, buffer)
  {
    hide ByteBits;
    hide TextBits;
    hide Bits;
    hide Spelled;
    hide Mask;
    hide Number;
    var bits: nat, value: Word := 0, Zeros(32);
    output := "";
    EmptyBits();
    for i := 0 to |buffer|
      invariant bits < 5 && Carrying(output, value, bits, ByteBits(buffer[..i]))
    {
      var byte := buffer[i];
      ByteBitsNext(buffer, i);
      assert Pow2(8) == 256;
      TakeIn(value, bits, byte, 8);
      value := Or(ShiftLeft(value, 8), byte);
      bits := bits + 8;
      while bits >= 5
        invariant bits <= 12 && Carrying(output, value, bits, ByteBits(buffer[..i + 1]))
        decreases bits
      {
        EmitSymbol(output, value, bits, ByteBits(buffer[..i + 1]));
        output := output + [Symbol(Mask(ShiftRight(value, bits - 5), 5))];
        bits := bits - 5;
      }
    }
    assert buffer[..|buffer|] == buffer;
    if bits > 0 {
      EmitLast(output, value, bits, ByteBits(buffer));
      output := output + [Symbol(Mask(ShiftLeft(value, 5 - bits), 5))];
    } else {
      assert TextBits(output) == ByteBits(buffer) + Zeros(0);
    }
  }

  lemma EmptyBits()
    ensures Spelled("") && TextBits("") == [] && ByteBits([]) == []
  {
  }

  // ------------------------------------------------------------------- decode

  /**
   toUpperCase: the ASCII letters and the ten other characters whose upper case
   is made of symbols. The rest stay foreign, which is all that matters of them.
   */
  function Upper(c: char): string {
    if 'a' <= c <= 'z' then [(c as int - 'a' as int + 'A' as int) as char]
    else
      match c
      case '\U{00DF}' => "SS"
      case '\U{0131}' => "I"
      case '\U{017F}' => "S"
      case '\U{FB00}' => "FF"
      case '\U{FB01}' => "FI"
      case '\U{FB02}' => "FL"
      case '\U{FB03}' => "FFI"
      case '\U{FB04}' => "FFL"
      case '\U{FB05}' => "ST"
      case '\U{FB06}' => "ST"
      case _ => [c]
  }

  function UpperAll(text: string): string {
    if text == [] then [] else Upper(text[0]) + UpperAll(text[1..])
  }

  /** replace(/=+$/, '') */
  function StripPadding(text: string): string {
    if text != [] && text[|text| - 1] == '=' then StripPadding(text[..|text| - 1]) else text
  }

  /** None exactly when a symbol is foreign; otherwise whole bytes, with fewer than eight bits left over. */
  ghost predicate Decodes(encoded: string, r: Option<seq<Byte>>) {
    var text := StripPadding(UpperAll(encoded));
    if !Spelled(text) then r.None?
    else r.Some? && |TextBits(text)| < |ByteBits(r.value)| + 8 && ByteBits(r.value) <= TextBits(text)
  }

  ghost predicate Collected(bytes: seq<Byte>, value: Word, bits: nat, all: seq<bool>) {
    bits <= 32 && ByteBits(bytes) + value[32 - bits..] == all
  }

  lemma EmitByte(bytes: seq<Byte>, value: Word, bits: nat, all: seq<bool>)
    requires Collected(bytes, value, bits, all) && bits >= 8
    ensures var byte := Mask(ShiftRight(value, bits - 8), 8);
      byte < 256 && Collected(bytes + [byte], value, bits - 8, all)
  {
    ShiftOut(value, bits - 8, 8);
    var next := value[32 - bits..40 - bits];
    ByteBitsAppend(bytes, next);
    assert value[32 - bits..] == next + value[40 - bits..];
  }

  lemma NothingCollected(value: Word)
    ensures Collected([], value, 0, [])
  {
    EmptyBits();
  }

  /** Five more bits come in below. */
  lemma CollectSymbol(bytes: seq<Byte>, value: Word, bits: nat, all: seq<bool>, digit: nat)
    requires Collected(bytes, value, bits, all) && bits < 8 && digit < 32
    ensures Collected(bytes, Or(ShiftLeft(value, 5), digit), bits + 5, all + Bits(digit, 5))
  {
    hide Or, ShiftLeft, Bits, ByteBits;
    assert Pow2(5) == 32;
    TakeIn(value, bits, digit, 5);
  }

  lemma AllCollected(bytes: seq<Byte>, value: Word, bits: nat, all: seq<bool>)
    requires Collected(bytes, value, bits, all) && bits < 8
    ensures |all| < |ByteBits(bytes)| + 8 && ByteBits(bytes) <= all
  {
    hide ByteBits;
  }

  lemma TextBitsNext(text: string, i: nat)
    requires i < |text| && Spelled(text[..i])
    ensures Spelled(text[..i + 1]) <==> Index(text[i]).Some?
    ensures Index(text[i]).Some? ==> TextBits(text[..i + 1]) == TextBits(text[..i]) + Bits(Index(text[i]).value, 5)
    ensures Index(text[i]).None? ==> !Spelled(text)
  {
    assert text[..i + 1] == text[..i] + [text[i]];
    assert text[..i + 1][..i] == text[..i];
  }

  method Decode(encoded: string) returns (r: Option<seq<Byte>>)
    ensures Decodes(encoded, r)
  {
    hide ByteBits, TextBits, Bits, Spelled, Mask, Number, StripPadding, UpperAll, Index, Or, ShiftLeft, ShiftRight, Collected, Pow2;
    var bits: nat, value: Word := 0, Zeros(32);
    var bytes: seq<Byte> := [];
    var text := StripPadding(UpperAll(encoded));
    EmptyBits();
    NothingCollected(value);
    for i := 0 to |text|
      invariant bits < 8 && Spelled(text[..i]) && Collected(bytes, value, bits, TextBits(text[..i]))
    {
      var index := Index(text[i]);
      TextBitsNext(text, i);
      if index.None? { return None; }
      CollectSymbol(bytes, value, bits, TextBits(text[..i]), index.value);
      value := Or(ShiftLeft(value, 5), index.value);
      bits := bits + 5;
      if bits >= 8 {
        EmitByte(bytes, value, bits, TextBits(text[..i + 1]));
        bytes := bytes + [Mask(ShiftRight(value, bits - 8), 8)];
        bits := bits - 8;
      }
    }
    assert text[..|text|] == text;
    AllCollected(bytes, value, bits, TextBits(text));
    return Some(bytes);
  }

  // --------------------------------------------------------------- round trip

  lemma {:induction false} ByteBitsSplit(xs: seq<Byte>)
    requires xs != []
    ensures var n := |xs| - 1;
      ByteBits(xs)[..8 * n] == ByteBits(xs[..n]) && Number(ByteBits(xs)[8 * n..]) == xs[n]
  {
    var n := |xs| - 1;
    assert ByteBits(xs)[8 * n..] == Bits(xs[n], 8);
    assert Pow2(8) == 256;
    BitsOfNumber(xs[n], 8);
  }

  lemma {:induction false} ByteBitsInjective(xs: seq<Byte>, ys: seq<Byte>)
    requires ByteBits(xs) == ByteBits(ys)
    ensures xs == ys
  {
    assert |xs| == |ys|;
    if xs != [] {
      hide ByteBits;
      hide Number;
      var n := |xs| - 1;
      ByteBitsSplit(xs);
      ByteBitsSplit(ys);
      ByteBitsInjective(xs[..n], ys[..n]);
      assert xs == xs[..n] + [xs[n]] && ys == ys[..n] + [ys[n]];
    }
  }

  /** A text encodes at most one byte string, and whole-byte decoding finds it. */
  lemma EncodingDetermines(text: string, bytes: seq<Byte>, decoded: seq<Byte>)
    requires Encodes(text, bytes)
    requires |TextBits(text)| < |ByteBits(decoded)| + 8 && ByteBits(decoded) <= TextBits(text)
    ensures decoded == bytes
  {
    assert |decoded| == |bytes|;
    assert ByteBits(decoded) == TextBits(text)[..8 * |bytes|] == ByteBits(bytes);
    ByteBitsInjective(decoded, bytes);
  }

  function Padding(n: nat): string {
    if n == 0 then "" else Padding(n - 1) + "="
  }

  lemma {:induction false} PaddingStripped(text: string, n: nat)
    requires text == [] || text[|text| - 1] != '='
    ensures StripPadding(text + Padding(n)) == text
  {
    if n == 0 {
      assert text + Padding(n) == text;
    } else {
      var longer := text + Padding(n);
      assert longer[|longer| - 1] == '=' && longer[..|longer| - 1] == text + Padding(n - 1);
      PaddingStripped(text, n - 1);
    }
  }

  /**
   Decoding undoes encoding for every byte string, whatever the case of the
   letters and however much padding was added.
   */
  lemma RoundTrip(bytes: seq<Byte>, text: string, typed: string, padding: nat, r: Option<seq<Byte>>)
    requires Encodes(text, bytes)
    requires UpperAll(typed) == text + Padding(padding)
    requires Decodes(typed, r)
    ensures r == Some(bytes)
  {
    assert text != [] ==> text[|text| - 1] in text;
    PaddingStripped(text, padding);
    EncodingDetermines(text, bytes, r.value);
  }

  lemma {:induction false} TextBitsSplit(s: string)
    requires Spelled(s) && s != []
    ensures var n := |s| - 1;
      && Spelled(s[..n]) && Index(s[n]).Some?
      && TextBits(s)[..5 * n] == TextBits(s[..n])
      && Number(TextBits(s)[5 * n..]) == Index(s[n]).value
  {
    var n := |s| - 1;
    assert s[n] in s;
    assert TextBits(s)[5 * n..] == Bits(Index(s[n]).value, 5);
    assert Pow2(5) == 32;
    BitsOfNumber(Index(s[n]).value, 5);
  }

  lemma {:induction false} TextBitsInjective(s: string, t: string)
    requires Spelled(s) && Spelled(t) && TextBits(s) == TextBits(t)
    ensures s == t
  {
    assert |s| == |t|;
    if s != [] {
      hide TextBits;
      hide Number;
      var n := |s| - 1;
      TextBitsSplit(s);
      TextBitsSplit(t);
      TextBitsInjective(s[..n], t[..n]);
      IndexInjective(s[n], t[n]);
      assert s == s[..n] + [s[n]] && t == t[..n] + [t[n]];
    }
  }

  lemma IndexInjective(c: char, d: char)
    requires Index(c).Some? && Index(c) == Index(d)
    ensures c == d
  {
  }

  /** Every byte string has one encoding. */
  lemma EncodingUnique(bytes: seq<Byte>, s: string, t: string)
    requires Encodes(s, bytes) && Encodes(t, bytes)
    ensures s == t
  {
    TextBitsInjective(s, t);
  }

  /** base32Decode(base32Encode(b)) equals b. */
  method EncodeThenDecode(buffer: seq<Byte>) returns (decoded: Option<seq<Byte>>)
    ensures decoded == Some(buffer)
  {
    var text := Encode(buffer);
    decoded := Decode(text);
    SpelledIsUpper(text);
    assert UpperAll(text) == text + Padding(0);
    RoundTrip(buffer, text, text, 0, decoded);
  }

  lemma {:induction false} SpelledIsUpper(text: string)
    requires Spelled(text)
    ensures UpperAll(text) == text
  {
    if text != [] {
      assert text[0] in text;
      SpelledIsUpper(text[1..]);
    }
  }
}
