// Base 64 with padding: section 4 of RFC 4648, decoded strictly.

module Base64 {
  import opened Common

  predicate IsSextet(c: char) {
    'A' <= c <= 'Z' || 'a' <= c <= 'z' || '0' <= c <= '9' || c == '+' || c == '/'
  }

  function SextetOf(c: char): (v: nat)
    requires IsSextet(c)
    ensures v < 64
  {
    if 'A' <= c <= 'Z' then c as nat - 'A' as nat
    else if 'a' <= c <= 'z' then c as nat - 'a' as nat + 26
    else if '0' <= c <= '9' then c as nat - '0' as nat + 52
    else if c == '+' then 62
    else 63
  }

  // A-Z, a-z, 0-9, '+', '/'
  function CharOf(v: nat): (c: char)
    requires v < 64
    ensures IsSextet(c) && SextetOf(c) == v && c != '='
  {
    if v < 26 then ('A' as nat + v) as char
    else if v < 52 then ('a' as nat + v - 26) as char
    else if v < 62 then ('0' as nat + v - 52) as char
    else if v == 62 then '+'
    else '/'
  }

  lemma CharRoundTrip(c: char)
    requires IsSextet(c)
    ensures CharOf(SextetOf(c)) == c
  {
  }

  function Sextets(n: nat): (nat, nat, nat, nat) {
    (n / 262144, n / 4096 % 64, n / 64 % 64, n % 64)
  }

  // Three bytes are four characters; one or two are padded with '='.
  function EncodeGroup(b: Bytes): (s: string)
    requires 1 <= |b| <= 3
    ensures |s| == 4
  {
    var (p, q, r, t) := Sextets(Number(b));
    SextetsFit(b);
    [CharOf(p), CharOf(q), if |b| > 1 then CharOf(r) else '=', if |b| > 2 then CharOf(t) else '=']
  }

  function ByteAt(b: Bytes, k: nat): nat {
    if k < |b| then b[k] as nat else 0
  }

  function Number(b: Bytes): nat {
    ByteAt(b, 0) * 65536 + ByteAt(b, 1) * 256 + ByteAt(b, 2)
  }

  lemma SextetsFit(b: Bytes)
    requires |b| <= 3
    ensures Sextets(Number(b)).0 < 64
  {
  }

  function Encode(b: Bytes): string {
    if b == [] then ""
    else if |b| <= 3 then EncodeGroup(b)
    else EncodeGroup(b[..3]) + Encode(b[3..])
  }

  // A group is refused for a character outside the alphabet, for misplaced
  // padding, and for padding bits that are not zero.
  function DecodeGroup(s: string): (r: Option<Bytes>)
    requires |s| == 4
    ensures r.Some? ==> 1 <= |r.value| <= 3
  {
    if !IsSextet(s[0]) || !IsSextet(s[1]) then None
    else
      var a, b := SextetOf(s[0]), SextetOf(s[1]);
      var first := (a * 4 + b / 16) as byte;
      if s[2] == '=' && s[3] == '=' then
        if b % 16 == 0 then Some([first]) else None
      else if !IsSextet(s[2]) then None
      else
        var c := SextetOf(s[2]);
        var second := (b % 16 * 16 + c / 4) as byte;
        if s[3] == '=' then
          if c % 4 == 0 then Some([first, second]) else None
        else if !IsSextet(s[3]) then None
        else Some([first, second, (c % 4 * 64 + SextetOf(s[3])) as byte])
  }

  // Padding may only end the text.
  function Decode(s: string): Option<Bytes> {
    if s == "" then Some([])
    else if |s| < 4 then None
    else
      var group := DecodeGroup(s[..4]);
      if group.None? || |s| == 4 then group
      else if |group.value| < 3 then None
      else
        var rest := Decode(s[4..]);
        if rest.None? then None else Some(group.value + rest.value)
  }

  lemma SextetsOf(n: nat, a: nat, b: nat, c: nat, d: nat)
    requires b < 64 && c < 64 && d < 64 && n == a * 262144 + b * 4096 + c * 64 + d
    ensures Sextets(n) == (a, b, c, d)
  {
    DivUnique(n, 262144, a, b * 4096 + c * 64 + d);
    DivUnique(n, 4096, a * 64 + b, c * 64 + d);
    DivUnique(a * 64 + b, 64, a, b);
    DivUnique(n, 64, a * 4096 + b * 64 + c, d);
    DivUnique(a * 4096 + b * 64 + c, 64, a * 64 + b, c);
  }

  // The four sextets of three bytes.
  lemma SextetsOfBytes(x: nat, y: nat, z: nat)
    requires x < 256 && y < 256 && z < 256
    ensures Sextets(x * 65536 + y * 256 + z) == (x / 4, x % 4 * 16 + y / 16, y % 16 * 4 + z / 64, z % 64)
  {
    SextetsOf(x * 65536 + y * 256 + z, x / 4, x % 4 * 16 + y / 16, y % 16 * 4 + z / 64, z % 64);
  }

  lemma BytesOfSextets(x: nat, y: nat, z: nat)
    requires x < 256 && y < 256 && z < 256
    ensures var (p, q, r, t) := (x / 4, x % 4 * 16 + y / 16, y % 16 * 4 + z / 64, z % 64);
            && p < 64 && q < 64 && r < 64 && t < 64
            && p * 4 + q / 16 == x && q % 16 * 16 + r / 4 == y && r % 4 * 64 + t == z
            && (y == 0 ==> q % 16 == 0) && (z == 0 ==> r % 4 == 0)
  {
  }

  lemma GroupRoundTrip(b: Bytes)
    requires 1 <= |b| <= 3
    ensures DecodeGroup(EncodeGroup(b)) == Some(b)
  {
    var x, y, z := ByteAt(b, 0), ByteAt(b, 1), ByteAt(b, 2);
    BytesOfSextets(x, y, z);
    assert Sextets(Number(b)) == (x / 4, x % 4 * 16 + y / 16, y % 16 * 4 + z / 64, z % 64) by {
      SextetsOfBytes(x, y, z);
    }
    GroupOfSextets(b, x / 4, x % 4 * 16 + y / 16, y % 16 * 4 + z / 64, z % 64);
  }

  lemma GroupOfSextets(b: Bytes, p: nat, q: nat, r: nat, t: nat)
    requires 1 <= |b| <= 3 && Sextets(Number(b)) == (p, q, r, t)
    requires p < 64 && q < 64 && r < 64 && t < 64
    requires p * 4 + q / 16 == ByteAt(b, 0) && q % 16 * 16 + r / 4 == ByteAt(b, 1) && r % 4 * 64 + t == ByteAt(b, 2)
    requires (|b| == 1 ==> q % 16 == 0) && (|b| == 2 ==> r % 4 == 0)
    ensures DecodeGroup(EncodeGroup(b)) == Some(b)
  {
    var s := EncodeGroup(b);
    assert s[0] == CharOf(p) && s[1] == CharOf(q);
    if |b| == 1 {
      assert b == [b[0]];
    } else if |b| == 2 {
      assert s[2] == CharOf(r);
      assert b == [b[0], b[1]];
    } else {
      assert s[2] == CharOf(r) && s[3] == CharOf(t);
      assert b == [b[0], b[1], b[2]];
    }
  }

  lemma GroupIsCanonical(s: string)
    requires |s| == 4 && DecodeGroup(s).Some?
    ensures EncodeGroup(DecodeGroup(s).value) == s
  {
    var r := DecodeGroup(s).value;
    var a, b := SextetOf(s[0]), SextetOf(s[1]);
    var c := if |r| > 1 then SextetOf(s[2]) else 0;
    var d := if |r| > 2 then SextetOf(s[3]) else 0;
    assert Number(r) == a * 262144 + b * 4096 + c * 64 + d;
    SextetsOf(Number(r), a, b, c, d);
    CharRoundTrip(s[0]);
    CharRoundTrip(s[1]);
    if |r| > 1 {
      CharRoundTrip(s[2]);
    }
    if |r| > 2 {
      CharRoundTrip(s[3]);
    }
  }

  // Decoding undoes encoding for every byte string.
  lemma {:induction false} DecodeInvertsEncode(b: Bytes)
    ensures Decode(Encode(b)) == Some(b)
  {
    if b != [] {
      if |b| <= 3 {
        GroupRoundTrip(b);
        assert Encode(b)[..4] == EncodeGroup(b);
      } else {
        GroupRoundTrip(b[..3]);
        DecodeInvertsEncode(b[3..]);
        var s := Encode(b);
        assert s[..4] == EncodeGroup(b[..3]) && s[4..] == Encode(b[3..]);
        EncodeNonEmpty(b[3..]);
        assert b == b[..3] + b[3..];
      }
    }
  }

  lemma EncodeNonEmpty(b: Bytes)
    requires b != []
    ensures |Encode(b)| >= 4
  {
  }

  // And a text that decodes is the encoding of what it decodes to.
  lemma {:induction false} AcceptedIsCanonical(s: string)
    requires Decode(s).Some?
    ensures Encode(Decode(s).value) == s
  {
    if s != "" {
      GroupIsCanonical(s[..4]);
      if |s| > 4 {
        AcceptedIsCanonical(s[4..]);
        var group, rest := DecodeGroup(s[..4]).value, Decode(s[4..]).value;
        DecodedNonEmpty(s[4..]);
        assert (group + rest)[..3] == group && (group + rest)[3..] == rest;
        assert s == s[..4] + s[4..];
      } else {
        assert s[..4] == s;
      }
    }
  }

  lemma DecodedNonEmpty(s: string)
    requires s != "" && Decode(s).Some?
    ensures Decode(s).value != []
  {
  }

  predicate IsText(c: char) {
    IsSextet(c) || c == '='
  }

  lemma {:induction false} EncodedIsText(b: Bytes)
    ensures forall k :: 0 <= k < |Encode(b)| ==> IsText(Encode(b)[k])
  {
    if |b| > 3 {
      EncodedIsText(b[3..]);
    }
  }
}
