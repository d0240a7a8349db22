// Vocabulary shared by every component: bytes, digests, hex text, and the
// finite-set and sequence facts that several proofs need.

module Common {
  newtype byte = x: int | 0 <= x < 256
  type Bytes = seq<byte>

  // The identity of a libp2p peer; only equality matters.
  type PeerId = nat

  type Digest = d: Bytes | |d| == 32 witness seq(32, _ => 0 as byte)

  // SHA-256 stays uninterpreted: every theorem holds for every such function.
  type Hasher = Bytes -> Digest

  datatype Option<+T> = None | Some(value: T)
  datatype Result<+T, +E> = Ok(value: T) | Err(error: E)

  // Rust's integer width for block counts and block indices.
  const U32_LIMIT: nat := 0x1_0000_0000

  function Min(a: int, b: int): int {
    if a <= b then a else b
  }

  function Max(a: int, b: int): int {
    if a >= b then a else b
  }

  function CeilDiv(a: nat, b: nat): nat
    requires b > 0
  {
    (a + b - 1) / b
  }

  function Pow2(k: nat): (p: nat)
    ensures p > 0
  {
    if k == 0 then 1 else 2 * Pow2(k - 1)
  }

  predicate Distinct<T(==)>(a: seq<T>) {
    forall i, j :: 0 <= i < j < |a| ==> a[i] != a[j]
  }

  function Flatten<T>(parts: seq<seq<T>>): seq<T> {
    if parts == [] then [] else parts[0] + Flatten(parts[1..])
  }

  lemma {:induction false} FlattenAppend<T>(a: seq<seq<T>>, b: seq<seq<T>>)
    ensures Flatten(a + b) == Flatten(a) + Flatten(b)
  {
    if a == [] {
      assert a + b == b;
    } else {
      assert (a + b)[1..] == a[1..] + b;
      FlattenAppend(a[1..], b);
    }
  }

  // Every index below n; a set to take cardinalities of.
  function Indices(n: nat): (s: set<nat>)
    ensures forall i: nat :: i in s <==> i < n
    ensures |s| == n
  {
    if n == 0 then {} else Indices(n - 1) + {n - 1}
  }

  lemma SubsetCard<T>(a: set<T>, b: set<T>)
    requires a <= b
    ensures |a| <= |b|
    ensures |a| == |b| ==> a == b
  {
    assert b == a + (b - a);
    assert |b| == |a| + |b - a|;
  }

  // If every fibre of f over U is no larger than the matching fibre of g over V,
  // and f sends U into the given peers, then U is no larger than V.
  lemma {:induction false} FibreBound(u: set<nat>, f: map<nat, PeerId>, v: set<nat>, g: map<nat, PeerId>, peers: set<PeerId>)
    requires forall i :: i in u ==> i in f && f[i] in peers
    requires forall p :: p in peers ==> |Fibre(u, f, p)| <= |Fibre(v, g, p)|
    ensures |u| <= |v|
    decreases peers
  {
    if peers == {} {
      assert u == {};
    } else {
      var p :| p in peers;
      var u', v' := u - Fibre(u, f, p), v - Fibre(v, g, p);
      forall q | q in peers - {p}
        ensures |Fibre(u', f, q)| <= |Fibre(v', g, q)|
      {
        FibreOfRest(u, f, p, q);
        FibreOfRest(v, g, p, q);
      }
      FibreBound(u', f, v', g, peers - {p});
      SplitCard(u, Fibre(u, f, p));
      SplitCard(v, Fibre(v, g, p));
    }
  }

  lemma FibreOfRest(s: set<nat>, f: map<nat, PeerId>, p: PeerId, q: PeerId)
    requires p != q
    ensures Fibre(s - Fibre(s, f, p), f, q) == Fibre(s, f, q)
  {
  }

  lemma DisjointCard<T>(a: set<T>, b: set<T>)
    requires a !! b
    ensures |a + b| == |a| + |b|
  {
  }

  lemma SplitCard<T>(s: set<T>, part: set<T>)
    requires part <= s
    ensures |s| == |s - part| + |part|
  {
    assert s == (s - part) + part;
  }

  function Fibre(s: set<nat>, f: map<nat, PeerId>, p: PeerId): set<nat> {
    set i | i in s && i in f && f[i] == p
  }

  lemma MapIsUpdate<K, V>(a: map<K, V>, b: map<K, V>, k: K, v: V)
    requires b.Keys == a.Keys + {k} && b[k] == v && forall q :: q in a && q != k ==> b[q] == a[q]
    ensures b == a[k := v]
  {
  }

  lemma MapsEqual<K, V>(a: map<K, V>, b: map<K, V>)
    requires a.Keys == b.Keys && forall k :: k in a ==> a[k] == b[k]
    ensures a == b
  {
  }

  // ---- Division ----

  lemma CeilDivIs(a: nat, b: nat, q: nat)
    requires b > 0 && a <= q * b < a + b
    ensures CeilDiv(a, b) == q
  {
    var r := q * b - a;
    assert a + b - 1 == q * b + (b - 1 - r);
    DivUnique(a + b - 1, b, q, b - 1 - r);
  }

  lemma DivUnique(a: nat, b: nat, q: nat, r: nat)
    requires b > 0 && r < b && a == q * b + r
    ensures a / b == q && a % b == r
  {
    var q', r' := a / b, a % b;
    assert a == q' * b + r';
    if q' < q {
      MulGap(q', q, b);
    } else if q < q' {
      MulGap(q, q', b);
    }
  }

  lemma MulGap(x: nat, y: nat, b: nat)
    requires x < y
    ensures x * b + b <= y * b
  {
    assert y * b == (y - 1) * b + b;
    if x < y - 1 {
      MulGap(x, y - 1, b);
    }
  }

  lemma CeilDivStep(a: nat, b: nat)
    requires b > 0 && a >= b
    ensures CeilDiv(a, b) == CeilDiv(a - b, b) + 1
  {
    var n := a - b + b - 1;
    DivUnique(n + b, b, n / b + 1, n % b);
  }

  lemma SmallMod(n: nat, m: nat)
    requires m > 0
    ensures n % m == n <==> n < m
  {
    if n < m {
      DivUnique(n, m, 0, n);
    }
  }

  lemma CeilCovers(a: nat, b: nat, i: nat)
    requires b > 0 && i >= CeilDiv(a, b)
    ensures i * b >= a
  {
    var q := CeilDiv(a, b);
    assert q * b >= a by {
      var r := (a + b - 1) % b;
      assert a + b - 1 == q * b + r;
    }
    if q < i {
      MulGap(q, i, b);
    }
  }

  // ---- Text ----

  // Lower-case hexadecimal text, two digits a byte.
  function HexDigit(n: nat): (c: char)
    requires n < 16
  {
    "0123456789abcdef"[n]
  }

  function Hex(b: Bytes): (s: string)
    ensures |s| == 2 * |b|
  {
    if b == [] then "" else [HexDigit(b[0] as nat / 16), HexDigit(b[0] as nat % 16)] + Hex(b[1..])
  }

  lemma HexDigitInjective(a: nat, b: nat)
    requires a < 16 && b < 16 && HexDigit(a) == HexDigit(b)
    ensures a == b
  {
    var digits := "0123456789abcdef";
    assert forall i, j :: 0 <= i < j < 16 ==> digits[i] != digits[j];
  }

  lemma {:induction false} HexInjective(a: Bytes, b: Bytes)
    requires Hex(a) == Hex(b)
    ensures a == b
  {
    assert 2 * |a| == |Hex(a)| == |Hex(b)| == 2 * |b|;
    if a != [] {
      var x, y := a[0] as nat, b[0] as nat;
      assert Hex(a)[0] == HexDigit(x / 16) && Hex(a)[1] == HexDigit(x % 16);
      assert Hex(b)[0] == HexDigit(y / 16) && Hex(b)[1] == HexDigit(y % 16);
      HexDigitInjective(x / 16, y / 16);
      HexDigitInjective(x % 16, y % 16);
      assert Hex(a)[2..] == Hex(a[1..]) && Hex(b)[2..] == Hex(b[1..]);
      HexInjective(a[1..], b[1..]);
      assert a == [a[0]] + a[1..] && b == [b[0]] + b[1..];
    }
  }
}
