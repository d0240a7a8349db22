// Decoding a narinfo's NarHash: hexadecimal, or Nix's base 32, whose text is
// read from its last character and packed into bytes five bits at a time. The
// bit packing is proved equal to plain positional arithmetic.

module NixBase32 {
  import opened Common

  const ALPHABET: string := "0123456789abcdfghijklmnpqrsvwxyz"

  // A Rust slice index out of bounds aborts the thread.
  datatype Outcome<+T> = Decoded(value: T) | Rejected | Panic

  // ---- Bits ----

  predicate Bit(b: bv8, j: nat)
    requires j < 8
  {
    match j
    case 0 => b & 0x01 != 0
    case 1 => b & 0x02 != 0
    case 2 => b & 0x04 != 0
    case 3 => b & 0x08 != 0
    case 4 => b & 0x10 != 0
    case 5 => b & 0x20 != 0
    case 6 => b & 0x40 != 0
    case _ => b & 0x80 != 0
  }

  function Weight(bit: bool, w: nat): nat {
    if bit then w else 0
  }

  function ByteOfBits(b: bv8): nat {
    Weight(Bit(b, 0), 1) + Weight(Bit(b, 1), 2) + Weight(Bit(b, 2), 4) + Weight(Bit(b, 3), 8) +
    Weight(Bit(b, 4), 16) + Weight(Bit(b, 5), 32) + Weight(Bit(b, 6), 64) + Weight(Bit(b, 7), 128)
  }

  lemma ByteIsItsBits(b: bv8)
    ensures b as nat == ByteOfBits(b)
  {
  }

  // Bit m of a little-endian byte string.
  predicate StreamBit(out: seq<bv8>, m: nat)
    requires m < 8 * |out|
  {
    Bit(out[m / 8], m % 8)
  }

  // ---- The alphabet ----

  predicate IsDigit(c: char) {
    c in ALPHABET
  }

  predicate AllDigits(input: string) {
    forall k :: 0 <= k < |input| ==> IsDigit(input[k])
  }

  function PositionFrom(c: char, k: nat): (r: Option<nat>)
    requires k <= 32
    ensures r.Some? ==> k <= r.value < 32 && ALPHABET[r.value] == c
    ensures r.None? ==> forall j :: k <= j < 32 ==> ALPHABET[j] != c
    decreases 32 - k
  {
    if k == 32 then None else if ALPHABET[k] == c then Some(k) else PositionFrom(c, k + 1)
  }

  // ALPHABET.iter().position(|&c| c == chr)
  function Position(c: char): (r: Option<nat>)
    ensures r.Some? <==> IsDigit(c)
    ensures r.Some? ==> r.value < 32 && ALPHABET[r.value] == c
  {
    PositionFrom(c, 0)
  }

  lemma PositionOfLetter(d: nat)
    requires d < 32
    ensures Position(ALPHABET[d]) == Some(d)
  {
    assert forall i, j :: 0 <= i < j < 32 ==> ALPHABET[i] != ALPHABET[j];
  }

  // ---- Packing five bits ----

  predicate Overlaps(length: nat) {
    length % 8 in {1, 3, 6}
  }

  function SetByte(out: seq<bv8>, offset: nat, value: bv8): (r: seq<bv8>)
    ensures |r| == |out|
  {
    if offset < |out| then out[offset := out[offset] | value] else out
  }

  // out[offset] |= value, a checked index.
  method OrAt(out: array<bv8>, offset: nat, value: bv8) returns (ok: bool)
    modifies out
    ensures ok <==> offset < out.Length
    ensures out[..] == SetByte(old(out[..]), offset, value)
  {
    ok := offset < out.Length;
    if ok {
      out[offset] := out[offset] | value;
    }
  }

  // out.get_mut(offset), which ignores an offset past the end.
  method SetByteInPlace(out: array<bv8>, offset: nat, value: bv8)
    modifies out
    ensures out[..] == SetByte(old(out[..]), offset, value)
  {
    if offset < out.Length {
      out[offset] := out[offset] | value;
    }
  }

  method SetNixBase32Quintet(out: array<bv8>, index: nat, v: bv8) returns (ok: bool)
    modifies out
    ensures ok <==> index * 5 / 8 < out.Length
    ensures ok ==> out[..] == Packed(old(out[..]), index, v)
  {
    var offset := index * 5 / 8;
    var value := v & 0x1f;
    match index % 8 {
      case 0 => ok := OrAt(out, offset, value);
      case 1 =>
        ok := OrAt(out, offset, (value & 0x07) << 5);
        SetByteInPlace(out, offset + 1, value >> 3);
      case 2 => ok := OrAt(out, offset, value << 2);
      case 3 =>
        ok := OrAt(out, offset, (value & 0x01) << 7);
        SetByteInPlace(out, offset + 1, value >> 1);
      case 4 =>
        ok := OrAt(out, offset, (value & 0x0f) << 4);
        SetByteInPlace(out, offset + 1, value >> 4);
      case 5 => ok := OrAt(out, offset, value << 1);
      case 6 =>
        ok := OrAt(out, offset, (value & 0x03) << 6);
        SetByteInPlace(out, offset + 1, value >> 2);
      case _ => ok := OrAt(out, offset, value << 3);
    }
    if index % 8 in {0, 2, 5, 7} {
      OrZero(out[..], offset + 1);
    }
  }

  // The bits of a quintet that fall in its own byte and in the next one, when
  // it starts r quintets into a group of eight.
  function Low(v: bv8, r: nat): bv8
    requires r < 8
  {
    match r
    case 0 => v
    case 1 => (v & 0x07) << 5
    case 2 => v << 2
    case 3 => (v & 0x01) << 7
    case 4 => (v & 0x0f) << 4
    case 5 => v << 1
    case 6 => (v & 0x03) << 6
    case _ => v << 3
  }

  function High(v: bv8, r: nat): bv8
    requires r < 8
  {
    match r
    case 1 => v >> 3
    case 3 => v >> 1
    case 4 => v >> 4
    case 6 => v >> 2
    case _ => 0
  }

  // The byte-level effect of one quintet.
  function Packed(out: seq<bv8>, index: nat, v: bv8): (r: seq<bv8>)
    ensures |r| == |out|
  {
    var offset := index * 5 / 8;
    SetByte(SetByte(out, offset, Low(v & 0x1f, index % 8)), offset + 1, High(v & 0x1f, index % 8))
  }

  lemma OrBit(a: bv8, b: bv8, j: nat)
    requires j < 8
    ensures Bit(a | b, j) == (Bit(a, j) || Bit(b, j))
  {
  }

  lemma LowShifted(v: bv8, r: nat, j: nat)
    requires j < 8 && r in {0, 2, 5, 7} && v < 32
    ensures var s := 5 * r % 8;
            Bit(Low(v, r), j) == (s <= j < s + 5 && Bit(v, j - s))
  {
  }

  lemma LowMasked(v: bv8, r: nat, j: nat)
    requires j < 8 && r in {1, 3, 4, 6} && v < 32
    ensures var s := 5 * r % 8;
            Bit(Low(v, r), j) == (s <= j < s + 5 && Bit(v, j - s))
  {
  }

  lemma LowBits(v: bv8, r: nat, j: nat)
    requires j < 8 && r < 8 && v < 32
    ensures var s := 5 * r % 8;
            Bit(Low(v, r), j) == (s <= j < s + 5 && Bit(v, j - s))
  {
    if r in {0, 2, 5, 7} {
      LowShifted(v, r, j);
    } else {
      LowMasked(v, r, j);
    }
  }

  lemma HighBits(v: bv8, r: nat, j: nat)
    requires j < 8 && r < 8 && v < 32
    ensures var s := 8 - 5 * r % 8;
            Bit(High(v, r), j) == (j + s < 5 && Bit(v, j + s))
  {
  }

  lemma OrZero(out: seq<bv8>, offset: nat)
    ensures SetByte(out, offset, 0) == out
  {
  }

  lemma MaskIsIdentity(v: bv8)
    requires v < 32
    ensures v & 0x1f == v
  {
  }

  // One quintet ORs its five bits into stream positions 5 * index and up, and
  // leaves every other bit alone.
  lemma PackedBits(out: seq<bv8>, index: nat, v: bv8, m: nat)
    requires m < 8 * |out| && v < 32
    ensures StreamBit(Packed(out, index, v), m)
         == (StreamBit(out, m) || (5 * index <= m < 5 * index + 5 && Bit(v, m - 5 * index)))
  {
    var offset, r := index * 5 / 8, index % 8;
    var k, j := m / 8, m % 8;
    MaskIsIdentity(v);
    QuintetOffset(index);
    if k == offset {
      LowBits(v, r, j);
      OrBit(out[k], Low(v, r), j);
    } else if k == offset + 1 {
      HighBits(v, r, j);
      OrBit(out[k], High(v, r), j);
    }
  }

  lemma QuintetOffset(index: nat)
    ensures 8 * (index * 5 / 8) + 5 * (index % 8) % 8 == 5 * index
  {
  }

  // ---- Decoding ----

  // The value of a letter, 0 for any other character.
  function LetterValue(c: char): bv8 {
    if IsDigit(c) then Position(c).value as bv8 else 0
  }

  function Letters(input: string): (values: seq<bv8>)
    ensures |values| == |input| && forall i :: 0 <= i < |input| ==> values[i] == LetterValue(input[i])
  {
    seq(|input|, i requires 0 <= i < |input| => LetterValue(input[i]))
  }

  // Bit m of the last `index` digits, five bits each, the last digit lowest.
  predicate DigitStreamBit(values: seq<bv8>, index: nat, m: nat)
    requires index <= |values|
  {
    m < 5 * index && Bit(values[|values| - 1 - m / 5], m % 5)
  }

  // Bit m of the digits checked so far, the last `index` characters.
  predicate BitSoFar(input: string, index: nat, m: nat)
    requires index <= |input|
  {
    DigitStreamBit(Letters(input), index, m)
  }

  ghost predicate HoldsBits(out: seq<bv8>, input: string, index: nat)
    requires index <= |input|
  {
    forall m :: 0 <= m < 8 * |out| ==> StreamBit(out, m) == BitSoFar(input, index, m)
  }

  lemma DigitStreamBitIs(values: seq<bv8>, index: nat, m: nat, k: nat, j: nat)
    requires index <= |values| && k < |values| && j < 5 && m == 5 * k + j
    ensures DigitStreamBit(values, index, m) == (k < index && Bit(values[|values| - 1 - k], j))
  {
    DivUnique(m, 5, k, j);
  }

  // A bit before and after digit `index` is packed in.
  lemma PackKeepsBit(values: seq<bv8>, index: nat, v: bv8, m: nat, before: bool, after: bool)
    requires index < |values| && v == values[|values| - 1 - index]
    requires before == DigitStreamBit(values, index, m)
    requires after == (before || (5 * index <= m < 5 * index + 5 && Bit(v, m - 5 * index)))
    ensures after == DigitStreamBit(values, index + 1, m)
  {
    var k, j := m / 5, m % 5;
    if k < |values| {
      DigitStreamBitIs(values, index, m, k, j);
      DigitStreamBitIs(values, index + 1, m, k, j);
      assert 5 * index <= m < 5 * index + 5 <==> k == index;
      assert k == index ==> m - 5 * index == j;
    }
  }

  lemma PackKeepsBits(out: seq<bv8>, input: string, index: nat)
    requires index < |input| && HoldsBits(out, input, index) && IsDigit(input[|input| - 1 - index])
    ensures HoldsBits(Packed(out, index, Position(input[|input| - 1 - index]).value as bv8), input, index + 1)
  {
    var v := Position(input[|input| - 1 - index]).value as bv8;
    DigitAsByte(Position(input[|input| - 1 - index]).value);
    PackKeepsStream(out, Letters(input), index, v);
  }

  lemma PackKeepsStream(out: seq<bv8>, values: seq<bv8>, index: nat, v: bv8)
    requires index < |values| && v == values[|values| - 1 - index] && v < 32
    requires forall m :: 0 <= m < 8 * |out| ==> StreamBit(out, m) == DigitStreamBit(values, index, m)
    ensures var next := Packed(out, index, v);
            forall m :: 0 <= m < 8 * |next| ==> StreamBit(next, m) == DigitStreamBit(values, index + 1, m)
  {
    var next := Packed(out, index, v);
    forall m | 0 <= m < 8 * |next|
      ensures StreamBit(next, m) == DigitStreamBit(values, index + 1, m)
    {
      PackedBits(out, index, v, m);
      PackKeepsBit(values, index, v, m, StreamBit(out, m), StreamBit(next, m));
    }
  }

  lemma NothingSet(length: nat, input: string)
    ensures HoldsBits(seq(length, _ => 0 as bv8), input, 0)
  {
  }

  // The checked index fails at the last character or nowhere.
  lemma IndexFails(n: nat, index: nat)
    requires index < n
    ensures index * 5 / 8 >= n * 5 / 8 <==> index == n - 1 && Overlaps(n)
  {
  }

  // A character outside the alphabet is met before any bad index.
  method DecodeBits(input: string) returns (r: Outcome<seq<bv8>>)
    ensures r.Rejected? <==> !AllDigits(input)
    ensures r.Panic? <==> AllDigits(input) && Overlaps(|input|)
    ensures r.Decoded? ==> |r.value| == |input| * 5 / 8 && HoldsBits(r.value, input, |input|)
  {
    var out := new bv8[|input| * 5 / 8](_ => 0);
    assert out[..] == seq(out.Length, _ => 0 as bv8);
    NothingSet(out.Length, input);
    for index := 0 to |input|
      invariant AllDigits(input[|input| - index..])
      invariant HoldsBits(out[..], input, index)
      invariant index == |input| > 0 ==> !Overlaps(|input|)
    {
      LastDigits(input, index);
      var position := Position(input[|input| - 1 - index]);
      if position.None? {
        return Rejected;
      }
      var ok := PackDigit(out, input, index, position.value as bv8);
      if !ok {
        return Panic;
      }
    }
    assert input[0..] == input;
    return Decoded(out[..]);
  }

  method PackDigit(out: array<bv8>, input: string, index: nat, value: bv8) returns (ok: bool)
    requires index < |input| && out.Length == |input| * 5 / 8
    requires IsDigit(input[|input| - 1 - index]) && value == Position(input[|input| - 1 - index]).value as bv8
    requires HoldsBits(out[..], input, index)
    modifies out
    ensures ok <==> !(index == |input| - 1 && Overlaps(|input|))
    ensures ok ==> HoldsBits(out[..], input, index + 1)
  {
    PackKeepsBits(out[..], input, index);
    IndexFails(|input|, index);
    ok := SetNixBase32Quintet(out, index, value);
  }

  lemma LastDigits(input: string, index: nat)
    requires index < |input|
    ensures AllDigits(input[|input| - index - 1..]) <==> IsDigit(input[|input| - 1 - index]) && AllDigits(input[|input| - index..])
    ensures AllDigits(input) ==> AllDigits(input[|input| - index - 1..])
    ensures |input| - index - 1 == 0 ==> input[|input| - index - 1..] == input
  {
    var a, b := input[|input| - index - 1..], input[|input| - index..];
    assert a == [input[|input| - 1 - index]] + b;
  }

  // ---- Positional value ----

  lemma {:induction false} Pow2Add(a: nat, b: nat)
    ensures Pow2(a + b) == Pow2(a) * Pow2(b)
  {
    if a > 0 {
      Pow2Add(a - 1, b);
      assert Pow2(a + b) == 2 * Pow2(a - 1 + b);
    }
  }

  // The text as a base-32 number, most significant character first.
  function Base32Value(input: string): nat
    requires AllDigits(input)
  {
    if input == "" then 0 else 32 * Base32Value(input[..|input| - 1]) + Position(input[|input| - 1]).value
  }

  // Bytes as a little-endian number, and the other way round.
  function LEValue(bytes: seq<bv8>): nat {
    if bytes == [] then 0 else bytes[0] as nat + 256 * LEValue(bytes[1..])
  }

  function LEBytes(v: nat, length: nat): (r: seq<bv8>)
    ensures |r| == length
  {
    if length == 0 then [] else [(v % 256) as bv8] + LEBytes(v / 256, length - 1)
  }

  // Bits, least significant first.
  function BitsValue(bits: seq<bool>): nat {
    if bits == [] then 0 else Weight(bits[0], 1) + 2 * BitsValue(bits[1..])
  }

  lemma Doubled(x: nat, y: nat)
    ensures 2 * (x * y) == (2 * x) * y
  {
  }

  lemma {:induction false} BitsAppend(a: seq<bool>, b: seq<bool>)
    ensures BitsValue(a + b) == BitsValue(a) + Pow2(|a|) * BitsValue(b)
  {
    if a == [] {
      assert a + b == b;
    } else {
      assert (a + b)[1..] == a[1..] + b && (a + b)[0] == a[0];
      BitsAppend(a[1..], b);
      var x, y, z := Pow2(|a| - 1), BitsValue(b), BitsValue(a[1..]);
      Doubled(x, y);
      assert BitsValue(a + b) == Weight(a[0], 1) + 2 * (z + x * y);
      assert BitsValue(a) == Weight(a[0], 1) + 2 * z;
    }
  }

  lemma {:induction false} BitsBelow(a: seq<bool>)
    ensures BitsValue(a) < Pow2(|a|)
  {
    if a != [] {
      BitsBelow(a[1..]);
    }
  }

  // A prefix of the bits is the number modulo a power of two.
  lemma PrefixIsModulo(all: seq<bool>, n: nat)
    requires n <= |all|
    ensures BitsValue(all[..n]) == BitsValue(all) % Pow2(n)
  {
    assert all == all[..n] + all[n..];
    BitsAppend(all[..n], all[n..]);
    BitsBelow(all[..n]);
    LowPart(BitsValue(all), BitsValue(all[..n]), Pow2(n), BitsValue(all[n..]));
  }

  lemma LowPart(x: nat, low: nat, p: nat, q: nat)
    requires low < p && x == low + p * q
    ensures low == x % p
  {
    assert p * q == q * p;
    DivUnique(x, p, q, low);
  }

  function StreamBits(out: seq<bv8>): seq<bool> {
    seq(8 * |out|, m requires 0 <= m < 8 * |out| => StreamBit(out, m))
  }

  function BitsFrom(b: bv8, j: nat, n: nat): (r: seq<bool>)
    requires j <= n <= 8
    ensures |r| == n - j && forall k :: 0 <= k < n - j ==> r[k] == Bit(b, j + k)
    decreases n - j
  {
    if j == n then [] else [Bit(b, j)] + BitsFrom(b, j + 1, n)
  }

  function Value(b: bv8, j: nat, n: nat): nat
    requires j <= n <= 8
  {
    BitsValue(BitsFrom(b, j, n))
  }

  lemma OneBit(b: bv8, j: nat, n: nat)
    requires j < n <= 8
    ensures Value(b, j, n) == Weight(Bit(b, j), 1) + 2 * Value(b, j + 1, n)
  {
    assert BitsFrom(b, j, n)[1..] == BitsFrom(b, j + 1, n);
  }

  lemma HighNibble(b: bv8)
    ensures Value(b, 4, 8) == Weight(Bit(b, 4), 1) + Weight(Bit(b, 5), 2) + Weight(Bit(b, 6), 4) + Weight(Bit(b, 7), 8)
  {
    OneBit(b, 7, 8);
    OneBit(b, 6, 8);
    OneBit(b, 5, 8);
    OneBit(b, 4, 8);
  }

  lemma LowNibble(b: bv8)
    ensures Value(b, 0, 8)
         == Weight(Bit(b, 0), 1) + Weight(Bit(b, 1), 2) + Weight(Bit(b, 2), 4) + Weight(Bit(b, 3), 8) + 16 * Value(b, 4, 8)
  {
    OneBit(b, 3, 8);
    OneBit(b, 2, 8);
    OneBit(b, 1, 8);
    OneBit(b, 0, 8);
  }

  lemma BitsOfByte(b: bv8)
    ensures Value(b, 0, 8) == b as nat
  {
    HighNibble(b);
    LowNibble(b);
    ByteIsItsBits(b);
  }

  lemma BitsOfQuintet(b: bv8)
    requires b < 32
    ensures Value(b, 0, 5) == b as nat
  {
    ByteIsItsBits(b);
    HighBitsClear(b);
    OneBit(b, 4, 5);
    OneBit(b, 3, 5);
    OneBit(b, 2, 5);
    OneBit(b, 1, 5);
    OneBit(b, 0, 5);
  }

  lemma HighBitsClear(b: bv8)
    requires b < 32
    ensures !Bit(b, 5) && !Bit(b, 6) && !Bit(b, 7)
  {
  }

  lemma StreamSplit(out: seq<bv8>)
    requires out != []
    ensures StreamBits(out) == BitsFrom(out[0], 0, 8) + StreamBits(out[1..])
  {
    var bits, rest := StreamBits(out), out[1..];
    forall m | 8 <= m < |bits|
      ensures bits[m] == StreamBits(rest)[m - 8]
    {
      assert m / 8 - 1 == (m - 8) / 8 && m % 8 == (m - 8) % 8;
      assert out[m / 8] == rest[m / 8 - 1];
    }
  }

  lemma {:induction false} BitsOfBytes(out: seq<bv8>)
    ensures BitsValue(StreamBits(out)) == LEValue(out)
  {
    if out != [] {
      BitsOfBytes(out[1..]);
      BitsOfByte(out[0]);
      StreamSplit(out);
      BitsAppend(BitsFrom(out[0], 0, 8), StreamBits(out[1..]));
      assert Pow2(8) == 256;
    }
  }

  // The digits' bits, the last digit's first.
  function ValueBits(values: seq<bv8>): seq<bool> {
    seq(5 * |values|, m requires 0 <= m < 5 * |values| => DigitStreamBit(values, |values|, m))
  }

  lemma ValueSplitAt(front: seq<bv8>, b: bv8, m: nat)
    requires m < 5 * |front| + 5
    ensures DigitStreamBit(front + [b], |front| + 1, m) == if m < 5 then Bit(b, m) else DigitStreamBit(front, |front|, m - 5)
  {
    var k, j := m / 5, m % 5;
    DigitStreamBitIs(front + [b], |front| + 1, m, k, j);
    if m >= 5 {
      DigitStreamBitIs(front, |front|, m - 5, k - 1, j);
    }
  }

  lemma ValueSplit(front: seq<bv8>, b: bv8)
    ensures ValueBits(front + [b]) == BitsFrom(b, 0, 5) + ValueBits(front)
  {
    var bits, both := ValueBits(front + [b]), BitsFrom(b, 0, 5) + ValueBits(front);
    forall m | 0 <= m < |bits|
      ensures bits[m] == both[m]
    {
      ValueSplitAt(front, b, m);
    }
  }

  lemma DigitAsByte(d: nat)
    requires d < 32
    ensures (d as bv8) as nat == d && (d as bv8) < 32
  {
  }

  lemma FrontIsDigits(input: string)
    requires AllDigits(input) && input != ""
    ensures AllDigits(input[..|input| - 1])
  {
    var front := input[..|input| - 1];
    forall i | 0 <= i < |front|
      ensures IsDigit(front[i])
    {
      assert front[i] == input[i];
    }
  }

  lemma LettersSplit(input: string)
    requires input != ""
    ensures Letters(input) == Letters(input[..|input| - 1]) + [LetterValue(input[|input| - 1])]
  {
  }

  lemma LetterIsPosition(c: char)
    requires IsDigit(c)
    ensures LetterValue(c) as nat == Position(c).value && LetterValue(c) < 32
  {
    DigitAsByte(Position(c).value);
  }

  lemma {:induction false} BitsOfDigits(input: string)
    requires AllDigits(input)
    ensures BitsValue(ValueBits(Letters(input))) == Base32Value(input)
  {
    if input != "" {
      var front, last := input[..|input| - 1], input[|input| - 1];
      FrontIsDigits(input);
      BitsOfDigits(front);
      LettersSplit(input);
      LetterIsPosition(last);
      AddDigit(Letters(front), LetterValue(last));
    }
  }

  lemma AddDigit(values: seq<bv8>, b: bv8)
    requires b < 32
    ensures BitsValue(ValueBits(values + [b])) == 32 * BitsValue(ValueBits(values)) + b as nat
  {
    BitsOfQuintet(b);
    ValueSplit(values, b);
    BitsAppend(BitsFrom(b, 0, 5), ValueBits(values));
    assert Pow2(5) == 32;
  }

  // The packed bytes, read as a number, are the text's base-32 value with the
  // bits that do not fit dropped.
  lemma PackedIsPositional(input: string, out: seq<bv8>)
    requires AllDigits(input) && |out| == |input| * 5 / 8 && HoldsBits(out, input, |input|)
    ensures LEValue(out) == Base32Value(input) % Pow2(8 * |out|)
  {
    var bits := ValueBits(Letters(input));
    StreamIsPrefix(out, input, bits);
    PrefixIsModulo(bits, 8 * |out|);
    BitsOfBytes(out);
    BitsOfDigits(input);
  }

  lemma StreamIsPrefix(out: seq<bv8>, input: string, bits: seq<bool>)
    requires |out| == |input| * 5 / 8 && HoldsBits(out, input, |input|) && bits == ValueBits(Letters(input))
    ensures 8 * |out| <= |bits| && StreamBits(out) == bits[..8 * |out|]
  {
    forall m | 0 <= m < 8 * |out|
      ensures StreamBits(out)[m] == bits[m]
    {
      assert StreamBit(out, m) == BitSoFar(input, |input|, m);
    }
  }

  // ---- The arithmetic specification ----

  lemma {:induction false} LEBytesOfValue(out: seq<bv8>)
    ensures LEBytes(LEValue(out), |out|) == out
  {
    if out != [] {
      LEBytesOfValue(out[1..]);
      DivUnique(LEValue(out), 256, LEValue(out[1..]), out[0] as nat);
      assert out == [out[0]] + out[1..];
    }
  }

  lemma {:induction false} LEBelow(out: seq<bv8>)
    ensures LEValue(out) < Pow2(8 * |out|)
  {
    if out != [] {
      LEBelow(out[1..]);
      Pow2Add(8, 8 * |out[1..]|);
      assert Pow2(8) == 256;
    }
  }

  // What decoding means, with no bits in sight.
  ghost function DecodeSpec(input: string): Outcome<seq<bv8>> {
    if !AllDigits(input) then Rejected
    else if Overlaps(|input|) then Panic
    else
      var length := |input| * 5 / 8;
      Decoded(LEBytes(Base32Value(input) % Pow2(8 * length), length))
  }

  // The bit-packing decoder is the arithmetic one.
  method DecodeNixBase32(input: string) returns (r: Outcome<seq<bv8>>)
    ensures r == DecodeSpec(input)
  {
    r := DecodeBits(input);
    if r.Decoded? {
      PackedIsPositional(input, r.value);
      LEBytesOfValue(r.value);
    }
  }

  // ---- Round trips ----

  // The n-digit base-32 text of a number, as Nix prints hashes.
  function Digits32(v: nat, n: nat): (s: string)
    ensures |s| == n && AllDigits(s)
  {
    if n == 0 then "" else Digits32(v / 32, n - 1) + [ALPHABET[v % 32]]
  }

  function EncodedLength(bytes: nat): nat {
    (8 * bytes + 4) / 5
  }

  function EncodeNixBase32(bytes: seq<bv8>): string {
    Digits32(LEValue(bytes), EncodedLength(|bytes|))
  }

  lemma {:induction false} ValueOfDigits(v: nat, n: nat)
    requires v < Pow2(5 * n)
    ensures Base32Value(Digits32(v, n)) == v
  {
    if n > 0 {
      Pow2Add(5, 5 * (n - 1));
      assert Pow2(5) == 32;
      ValueOfDigits(v / 32, n - 1);
      PositionOfLetter(v % 32);
      var s := Digits32(v, n);
      assert s[..n - 1] == Digits32(v / 32, n - 1);
    }
  }

  // The lengths the encoder produces are exactly the ones that never index out
  // of bounds, and each determines the number of bytes.
  lemma EncodedLengths(n: nat)
    ensures !Overlaps(n) <==> EncodedLength(n * 5 / 8) == n
  {
  }

  lemma LengthRoundTrip(bytes: nat)
    ensures EncodedLength(bytes) * 5 / 8 == bytes && 5 * EncodedLength(bytes) >= 8 * bytes
    ensures !Overlaps(EncodedLength(bytes))
  {
  }

  lemma Pow2Monotone(a: nat, b: nat)
    requires a <= b
    ensures Pow2(a) <= Pow2(b)
  {
    Pow2Add(a, b - a);
    ScaleUp(Pow2(a), Pow2(b - a));
  }

  lemma ScaleUp(x: nat, y: nat)
    requires y >= 1
    ensures x <= x * y
  {
  }

  // Every byte string survives encoding and decoding.
  lemma DecodeInvertsEncode(bytes: seq<bv8>)
    ensures DecodeSpec(EncodeNixBase32(bytes)) == Decoded(bytes)
  {
    var n := EncodedLength(|bytes|);
    LengthRoundTrip(|bytes|);
    LEBelow(bytes);
    Pow2Monotone(8 * |bytes|, 5 * n);
    ValueOfDigits(LEValue(bytes), n);
    DivUnique(LEValue(bytes), Pow2(8 * |bytes|), 0, LEValue(bytes));
    LEBytesOfValue(bytes);
  }

  lemma LastDigitOf(w: nat, n: nat, v: nat, d: nat)
    requires w / 32 == v && w % 32 == d
    ensures Digits32(w, n + 1) == Digits32(v, n) + [ALPHABET[d]]
  {
  }

  // Writing 32v + d appends the letter of d to what v is written as.
  lemma DigitsExtend(w: nat, v: nat, d: nat, input: string)
    requires input != "" && d < 32 && w == 32 * v + d && ALPHABET[d] == input[|input| - 1]
    requires Digits32(v, |input| - 1) == input[..|input| - 1]
    ensures Digits32(w, |input|) == input
  {
    DivUnique(w, 32, v, d);
    LastDigitOf(w, |input| - 1, v, d);
  }

  lemma {:induction false} DigitsOfValue(input: string, w: nat)
    requires AllDigits(input) && w == Base32Value(input)
    ensures Digits32(w, |input|) == input
    decreases |input|
  {
    if input != "" {
      var front, d := input[..|input| - 1], Position(input[|input| - 1]).value;
      FrontIsDigits(input);
      var v := Base32Value(front);
      DigitsOfValue(front, v);
      DigitsExtend(w, v, d, input);
    }
  }

  lemma {:induction false} ByteAndBack(d: nat)
    requires d < 256
    ensures (d as bv8) as nat == d
  {
    if d < 32 {
      DigitAsByte(d);
    } else {
      ByteAndBack(d - 32);
      assert d as bv8 == ((d - 32) as bv8) + 32;
    }
  }

  lemma LEValueCons(b: bv8, rest: seq<bv8>)
    ensures LEValue([b] + rest) == b as nat + 256 * LEValue(rest)
  {
    assert ([b] + rest)[1..] == rest;
  }

  lemma {:induction false} LEValueOfBytes(v: nat, length: nat)
    requires v < Pow2(8 * length)
    ensures LEValue(LEBytes(v, length)) == v
  {
    if length > 0 {
      Pow2Add(8, 8 * (length - 1));
      assert Pow2(8) == 256;
      LEValueOfBytes(v / 256, length - 1);
      LEValueCons((v % 256) as bv8, LEBytes(v / 256, length - 1));
      ByteAndBack(v % 256);
    }
  }

  lemma DigitsAreInputIff(input: string, v: nat)
    requires AllDigits(input) && v < Pow2(5 * |input|)
    ensures Digits32(v, |input|) == input <==> Base32Value(input) == v
  {
    ValueOfDigits(v, |input|);
    DigitsOfValue(input, Base32Value(input));
  }

  function Kept(input: string): nat
    requires AllDigits(input)
  {
    Base32Value(input) % Pow2(8 * (|input| * 5 / 8))
  }

  lemma KeptFits(input: string)
    requires AllDigits(input)
    ensures Kept(input) < Pow2(8 * (|input| * 5 / 8)) <= Pow2(5 * |input|)
    ensures Kept(input) == Base32Value(input) <==> Base32Value(input) < Pow2(8 * (|input| * 5 / 8))
  {
    Pow2Monotone(8 * (|input| * 5 / 8), 5 * |input|);
    SmallMod(Base32Value(input), Pow2(8 * (|input| * 5 / 8)));
  }

  lemma ReEncoded(input: string)
    requires AllDigits(input) && !Overlaps(|input|)
    ensures EncodeNixBase32(DecodeSpec(input).value) == Digits32(Kept(input), |input|)
  {
    KeptFits(input);
    LEValueOfBytes(Kept(input), |input| * 5 / 8);
    EncodedLengths(|input|);
  }

  // A text is the encoding of what it decodes to exactly when its value fits:
  // otherwise the surplus high bits are dropped and several texts share a decoding.
  lemma EncodeInvertsDecodeIff(input: string)
    requires AllDigits(input) && !Overlaps(|input|)
    ensures EncodeNixBase32(DecodeSpec(input).value) == input <==> Base32Value(input) < Pow2(8 * (|input| * 5 / 8))
  {
    ReEncoded(input);
    KeptFits(input);
    DigitsAreInputIff(input, Kept(input));
  }

  // ---- The NarHash field ----

  predicate IsHexDigit(c: char) {
    '0' <= c <= '9' || 'a' <= c <= 'f' || 'A' <= c <= 'F'
  }

  function HexValue(c: char): (d: nat)
    requires IsHexDigit(c)
    ensures d < 16
  {
    if '0' <= c <= '9' then c as nat - '0' as nat
    else if 'a' <= c <= 'f' then c as nat - 'a' as nat + 10
    else c as nat - 'A' as nat + 10
  }

  predicate AllHex(s: string) {
    forall k :: 0 <= k < |s| ==> IsHexDigit(s[k])
  }

  function HexDecode(s: string): Bytes
    requires |s| % 2 == 0 && AllHex(s)
  {
    if s == "" then [] else [(16 * HexValue(s[0]) + HexValue(s[1])) as byte] + HexDecode(s[2..])
  }

  function ToBytes(out: seq<bv8>): (r: Bytes)
    ensures |r| == |out| && forall i :: 0 <= i < |out| ==> r[i] == (out[i] as int) as byte
  {
    seq(|out|, i requires 0 <= i < |out| => (out[i] as int) as byte)
  }

  function StripPrefix(s: string, prefix: string): string {
    if prefix <= s then s[|prefix|..] else s
  }

  // A field that decodes to anything but 32 bytes is refused.
  ghost function Sha256Spec(narHash: string): Outcome<Bytes> {
    var hash := StripPrefix(narHash, "sha256:");
    if |hash| == 64 && AllHex(hash) then Decoded(HexDecode(hash))
    else match DecodeSpec(hash)
      case Decoded(out) => if |out| == 32 then Decoded(ToBytes(out)) else Rejected
      case Rejected => Rejected
      case Panic => Panic
  }

  method Sha256Bytes(narHash: string) returns (r: Outcome<Bytes>)
    ensures r == Sha256Spec(narHash)
  {
    var hash := StripPrefix(narHash, "sha256:");
    if |hash| == 64 && AllHex(hash) {
      return Decoded(HexDecode(hash));
    }
    var decoded := DecodeNixBase32(hash);
    match decoded {
      case Decoded(out) => r := if |out| == 32 then Decoded(ToBytes(out)) else Rejected;
      case Rejected => r := Rejected;
      case Panic => r := Panic;
    }
  }

  lemma {:induction false} HexLength(s: string)
    requires |s| % 2 == 0 && AllHex(s)
    ensures |HexDecode(s)| == |s| / 2
  {
    if s != "" {
      HexLength(s[2..]);
    }
  }

  // Whatever is accepted is a 32-byte digest.
  lemma AcceptedIsDigest(narHash: string)
    requires Sha256Spec(narHash).Decoded?
    ensures |Sha256Spec(narHash).value| == 32
  {
    var hash := StripPrefix(narHash, "sha256:");
    if |hash| == 64 && AllHex(hash) {
      HexLength(hash);
    }
  }

  lemma HexDigitRoundTrip(n: nat)
    requires n < 16
    ensures IsHexDigit(HexDigit(n)) && HexValue(HexDigit(n)) == n
  {
  }

  lemma HexPair(x: nat, rest: string)
    requires x < 256 && AllHex(rest) && |rest| % 2 == 0
    ensures var s := [HexDigit(x / 16), HexDigit(x % 16)] + rest;
            AllHex(s) && |s| % 2 == 0 && HexDecode(s) == [x as byte] + HexDecode(rest)
  {
    var s := [HexDigit(x / 16), HexDigit(x % 16)] + rest;
    HexDigitRoundTrip(x / 16);
    HexDigitRoundTrip(x % 16);
    assert s[2..] == rest;
    forall k | 0 <= k < |s|
      ensures IsHexDigit(s[k])
    {
      assert k >= 2 ==> s[k] == rest[k - 2];
    }
  }

  lemma {:induction false} HexRoundTrip(b: Bytes)
    ensures AllHex(Hex(b)) && HexDecode(Hex(b)) == b
  {
    if b != [] {
      HexRoundTrip(b[1..]);
      HexPair(b[0] as nat, Hex(b[1..]));
      assert b == [b[0]] + b[1..];
    }
  }

  // Both spellings of a digest, with and without the prefix, decode to it. A
  // base-32 digest has 52 characters, so it is never taken for hexadecimal.
  lemma NarHashRoundTrips(d: Digest, out: seq<bv8>)
    requires ToBytes(out) == d
    ensures Sha256Spec(Hex(d)) == Sha256Spec("sha256:" + Hex(d)) == Decoded(d)
    ensures |EncodeNixBase32(out)| == 52
    ensures Sha256Spec(EncodeNixBase32(out)) == Sha256Spec("sha256:" + EncodeNixBase32(out)) == Decoded(d)
  {
    HexRoundTrip(d);
    DecodeInvertsEncode(out);
    NoPrefix(Hex(d));
    NoPrefix(EncodeNixBase32(out));
  }

  lemma NoPrefix(s: string)
    requires AllHex(s) || AllDigits(s)
    ensures StripPrefix(s, "sha256:") == StripPrefix("sha256:" + s, "sha256:") == s
  {
    var p := "sha256:";
    assert (p + s)[|p|..] == s;
    assert !IsHexDigit(':') && !IsDigit(':') && p[6] == ':';
    assert |s| > 6 ==> s[6] != ':';
  }

  // The field panics the decoder exactly on base-32 texts of these lengths.
  lemma AbortsIff(narHash: string)
    ensures var hash := StripPrefix(narHash, "sha256:");
            Sha256Spec(narHash).Panic? <==> AllDigits(hash) && |hash| % 8 in {1, 3, 6}
  {
    var hash := StripPrefix(narHash, "sha256:");
    assert 64 % 8 == 0;
  }
}
