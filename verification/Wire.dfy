/**
 * Metadata messages: how headers are laid out in bytes, written by one end and read by the other.
 *
 * A header occupies 40 bytes: two unsigned and two signed 64-bit fields, two 16-bit fields, one boolean
 * and three bytes of padding.  A multipart message starts with the 64-bit number of headers and may be
 * padded at the end.
 */
module Wire {
  import opened Arithmetic
  import opened Ownership

  const HEADER: nat := 40
  const COUNT: nat := 8

  function Pow256(n: nat): (p: nat)
    ensures p > 0
  {
    if n == 0 then 1 else 256 * Pow256(n - 1)
  }

  /** `n` bytes, least significant first. */
  function Le(v: nat, n: nat): (b: seq<Byte>)
    ensures |b| == n
  {
    if n == 0 then [] else [(v % 256) as Byte] + Le(v / 256, n - 1)
  }

  function FromLe(b: seq<Byte>): nat {
    if b == [] then 0 else b[0] as int + 256 * FromLe(b[1..])
  }

  lemma {:induction false} LeRoundTrip(v: nat, n: nat)
    requires v < Pow256(n)
    ensures FromLe(Le(v, n)) == v
  {
    if n == 0 {
    } else {
      LeRoundTrip(v / 256, n - 1);
      assert Le(v, n)[1..] == Le(v / 256, n - 1);
    }
  }

  lemma Pow256Values()
    ensures Pow256(8) == 0x1_0000_0000_0000_0000 && Pow256(2) == 0x1_0000
  {
    assert Pow256(4) == 0x1_0000_0000;
    assert Pow256(6) == 0x1_0000_0000_0000;
  }

  const W64: nat := 0x1_0000_0000_0000_0000

  /** Two's complement. */
  function Unsigned(x: int): nat
    requires -0x8000_0000_0000_0000 <= x < 0x8000_0000_0000_0000
  {
    if x < 0 then x + W64 else x
  }

  function Signed(v: nat): int { if v < 0x8000_0000_0000_0000 then v else v - W64 }

  /** The field values that fit the header's types. */
  predicate Fits(m: Meta) {
    && m.size < W64 && m.hint < W64
    && -0x8000_0000_0000_0000 <= m.handle < 0x8000_0000_0000_0000
    && -0x8000_0000_0000_0000 <= m.shared < 0x8000_0000_0000_0000
    && m.region < 0x1_0000 && m.segment < 0x1_0000
  }

  /** The header in memory; the padding may hold anything. */
  function MetaBytes(m: Meta, padding: seq<Byte>): (b: seq<Byte>)
    requires Fits(m) && |padding| == 3
    ensures |b| == HEADER
  {
    Le(m.size, 8) + Le(m.hint, 8) + Le(Unsigned(m.handle), 8) + Le(Unsigned(m.shared), 8)
    + Le(m.region, 2) + Le(m.segment, 2) + [if m.managed then 1 else 0] + padding
  }

  function MetaOf(b: seq<Byte>): Meta
    requires |b| == HEADER
  {
    Meta(FromLe(b[0..8]), FromLe(b[8..16]), Signed(FromLe(b[16..24])), Signed(FromLe(b[24..32])),
         FromLe(b[32..34]), FromLe(b[34..36]), b[36] != 0)
  }

  lemma MetaRoundTrip(m: Meta, padding: seq<Byte>)
    requires Fits(m) && |padding| == 3
    ensures MetaOf(MetaBytes(m, padding)) == m
  {
    Pow256Values();
    var b := MetaBytes(m, padding);
    assert b[0..8] == Le(m.size, 8);
    assert b[8..16] == Le(m.hint, 8);
    assert b[16..24] == Le(Unsigned(m.handle), 8);
    assert b[24..32] == Le(Unsigned(m.shared), 8);
    assert b[32..34] == Le(m.region, 2);
    assert b[34..36] == Le(m.segment, 2);
    LeRoundTrip(m.size, 8);
    LeRoundTrip(m.hint, 8);
    LeRoundTrip(Unsigned(m.handle), 8);
    LeRoundTrip(Unsigned(m.shared), 8);
    LeRoundTrip(m.region, 2);
    LeRoundTrip(m.segment, 2);
  }

  lemma {:induction false} LeAt(v: nat, n: nat, k: nat)
    requires k < n
    ensures Le(v, n)[k] as int == v / Pow256(k) % 256
  {
    if k == 0 {
    } else {
      LeAt(v / 256, n - 1, k - 1);
      DivDiv(v, Pow256(k - 1));
    }
  }

  lemma DivDiv(v: nat, p: nat)
    requires p > 0
    ensures v / (256 * p) == v / 256 / p
  {
    var q, r := v / 256, v % 256;
    var s, t := q / p, q % p;
    assert v == s * (256 * p) + (256 * t + r);
    DivUnique(v, s, 256 * t + r, 256 * p);
  }

  lemma DivUnique(n: int, q: int, r: int, a: int)
    requires a > 0 && 0 <= r < a && n == q * a + r
    ensures n / a == q
  {
    var q1, r1 := n / a, n % a;
    assert (q - q1) * a == r1 - r;
    if q > q1 { MulMono(1, q - q1, a); }
    if q < q1 { MulMono(1, q1 - q, a); }
  }

  /** Where each field of a header lies: 8 + 8 + 8 + 8 + 2 + 2 + 1 bytes, in this order, then the padding. */
  lemma HeaderLayout(m: Meta, padding: seq<Byte>)
    requires Fits(m) && |padding| == 3
    ensures var b := MetaBytes(m, padding);
            && b[0..8] == Le(m.size, 8) && b[8..16] == Le(m.hint, 8)
            && b[16..24] == Le(if m.handle < 0 then m.handle + W64 else m.handle, 8)
            && b[24..32] == Le(if m.shared < 0 then m.shared + W64 else m.shared, 8)
            && b[32..34] == Le(m.region, 2) && b[34..36] == Le(m.segment, 2)
            && (b[36] == if m.managed then 1 else 0) && b[37..40] == padding
  {
  }

  // ---------------------------------------------------------------- whole messages

  /** The i-th header of a multipart message. */
  function HeaderAt(b: seq<Byte>, i: nat): Meta
    requires COUNT + HEADER * (i + 1) <= |b|
  {
    MetaOf(b[COUNT + HEADER * i..COUNT + HEADER * i + HEADER])
  }

  /** The bytes announce and contain exactly these headers; whatever follows them is padding. */
  ghost predicate Carries(b: seq<Byte>, metas: seq<Meta>) {
    && COUNT + HEADER * |metas| <= |b|
    && FromLe(b[..COUNT]) == |metas|
    && forall i | 0 <= i < |metas| :: HeaderAt(b, i) == metas[i]
  }

  function TotalSize(metas: seq<Meta>): nat {
    if metas == [] then 0 else TotalSize(metas[..|metas| - 1]) + metas[|metas| - 1].size
  }

  /** Total sizes add up. */
  lemma {:induction false} TotalSizeAdds(a: seq<Meta>, b: seq<Meta>)
    ensures TotalSize(a + b) == TotalSize(a) + TotalSize(b)
    ensures |a| == 1 ==> TotalSize(a) == a[0].size
  {
    if |a| == 1 { assert a[..0] == []; }
    if b == [] {
      assert a + b == a;
    } else {
      TotalSizeAdds(a, b[..|b| - 1]);
      assert (a + b)[..|a + b| - 1] == a + b[..|b| - 1];
    }
  }

  /** A message carries at most one sequence of headers. */
  lemma CarriesOne(b: seq<Byte>, m1: seq<Meta>, m2: seq<Meta>)
    requires Carries(b, m1) && Carries(b, m2)
    ensures m1 == m2
  {
    forall i | 0 <= i < |m1| ensures m1[i] == m2[i] { assert HeaderAt(b, i) == m1[i] && HeaderAt(b, i) == m2[i]; }
  }

  function MessageSize(padTo: nat, n: nat): nat {
    if padTo < COUNT + HEADER * n then COUNT + HEADER * n else padTo
  }

  method Memcpy(dst: array<Byte>, at: nat, src: seq<Byte>)
    requires at + |src| <= dst.Length
    modifies dst
    ensures dst[at..at + |src|] == src
    ensures forall i | 0 <= i < dst.Length && !(at <= i < at + |src|) :: dst[i] == old(dst[i])
  {
    var i := 0;
    while i < |src|
      invariant 0 <= i <= |src| && dst[at..at + i] == src[..i]
      invariant forall k | 0 <= k < dst.Length && !(at <= k < at + i) :: dst[k] == old(dst[k])
    {
      dst[at + i] := src[i];
      i := i + 1;
    }
  }

  /** Writes the metadata message of a multipart send, into a buffer of at least `padTo` bytes. */
  method Encode(metas: seq<Meta>, padTo: nat, padding: seq<Byte>) returns (msg: array<Byte>)
    requires |metas| < W64 && |padding| == 3 && forall i | 0 <= i < |metas| :: Fits(metas[i])
    ensures fresh(msg) && msg.Length == MessageSize(padTo, |metas|) && Carries(msg[..], metas)
    ensures msg.Length == if padTo < 8 + 40 * |metas| then 8 + 40 * |metas| else padTo
  {
    msg := new Byte[MessageSize(padTo, |metas|)];
    Memcpy(msg, 0, Le(|metas|, COUNT));
    Pow256Values();
    LeRoundTrip(|metas|, COUNT);
    var i := 0;
    while i < |metas|
      invariant 0 <= i <= |metas| && FromLe(msg[..COUNT]) == |metas|
      invariant forall k | 0 <= k < i :: HeaderAt(msg[..], k) == metas[k]
    {
      ghost var before := msg[..];
      var at := COUNT + HEADER * i;
      Memcpy(msg, at, MetaBytes(metas[i], padding));
      MetaRoundTrip(metas[i], padding);
      HeadersKept(before, msg[..], i);
      assert msg[..][at..at + HEADER] == msg[at..at + HEADER];
      assert msg[..COUNT] == before[..COUNT];
      i := i + 1;
    }
    assert msg[..][..COUNT] == msg[..COUNT];
  }

  /** Writing behind the first `i` headers leaves them readable. */
  lemma HeadersKept(a: seq<Byte>, b: seq<Byte>, i: nat)
    requires |a| == |b| && COUNT + HEADER * i <= |a| && a[..COUNT + HEADER * i] == b[..COUNT + HEADER * i]
    ensures forall k | 0 <= k < i :: HeaderAt(a, k) == HeaderAt(b, k)
  {
    forall k | 0 <= k < i ensures HeaderAt(a, k) == HeaderAt(b, k) {
      var lo := COUNT + HEADER * k;
      assert a[lo..lo + HEADER] == a[..COUNT + HEADER * i][lo..lo + HEADER];
      assert b[lo..lo + HEADER] == b[..COUNT + HEADER * i][lo..lo + HEADER];
    }
  }

  /** What the receiver asserts: there is something behind the count, and all announced headers are there. */
  predicate WellFormed(b: seq<Byte>) { |b| > COUNT && COUNT + HEADER * FromLe(b[..COUNT]) <= |b| }

  /** These are the first headers of the message. */
  ghost predicate Reads(b: seq<Byte>, metas: seq<Meta>) {
    COUNT + HEADER * |metas| <= |b| && forall k | 0 <= k < |metas| :: HeaderAt(b, k) == metas[k]
  }

  lemma ReadsMore(b: seq<Byte>, metas: seq<Meta>)
    requires Reads(b, metas) && COUNT + HEADER * (|metas| + 1) <= |b|
    ensures Reads(b, metas + [HeaderAt(b, |metas|)])
  {
  }

  lemma TotalSizeSnoc(metas: seq<Meta>, m: Meta)
    ensures TotalSize(metas + [m]) == TotalSize(metas) + m.size
  {
    assert (metas + [m])[..|metas|] == metas;
  }

  /** Reads the headers of a received multipart message and their total size. */
  method Decode(b: seq<Byte>) returns (metas: seq<Meta>, total: nat)
    requires WellFormed(b)
    ensures Carries(b, metas) && total == TotalSize(metas)
  {
    var n := FromLe(b[..COUNT]);
    metas, total := [], 0;
    for i := 0 to n
      invariant |metas| == i && Reads(b, metas) && total == TotalSize(metas)
    {
      var m := MetaOf(b[COUNT + HEADER * i..COUNT + HEADER * i + HEADER]);
      ReadsMore(b, metas);
      TotalSizeSnoc(metas, m);
      metas := metas + [m];
      total := total + m.size;
    }
  }

  /** A message of at least one header passes the receiver's checks; an empty one needs padding. */
  lemma CarriesWellFormed(b: seq<Byte>, metas: seq<Meta>)
    requires Carries(b, metas)
    ensures WellFormed(b) <==> metas != [] || |b| > COUNT
  {
  }

  // ---------------------------------------------------------------- single messages

  /** A single metadata message: one header, no count, possibly padded. */
  ghost predicate CarriesSingle(b: seq<Byte>, m: Meta) { |b| >= HEADER && MetaOf(b[..HEADER]) == m }

  method EncodeSingle(m: Meta, padTo: nat, padding: seq<Byte>) returns (msg: array<Byte>)
    requires Fits(m) && |padding| == 3
    ensures fresh(msg) && CarriesSingle(msg[..], m) && msg.Length == if padTo < 40 then 40 else padTo
  {
    msg := new Byte[if padTo < HEADER then HEADER else padTo];
    Memcpy(msg, 0, MetaBytes(m, padding));
    MetaRoundTrip(m, padding);
    assert msg[..][..HEADER] == msg[0..HEADER];
  }
}
