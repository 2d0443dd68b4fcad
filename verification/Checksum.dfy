/** The two Internet checksums (kernel/net/inet.c and kernel/net/tcp.c), after
    section 2 of RFC 1071. */
module Checksum {
  const U32: nat := 0x1_0000_0000

  newtype byte = x: int | 0 <= x < 256

  // ---- one's complement sums ---------------------------------------------------

  /** The sum of little-endian 16-bit words, an odd last byte in the low half. */
  function LeSum(data: seq<byte>): nat
  {
    if |data| == 0 then 0
    else if |data| == 1 then data[0] as nat
    else LeSum(data[..|data| - Tail(data)]) + (if Tail(data) == 1 then data[|data| - 1] as nat
                                               else data[|data| - 2] as nat + 256 * data[|data| - 1] as nat)
  }

  /** The sum of big-endian words, an odd last byte in the high half. */
  function BeSum(data: seq<byte>): nat
  {
    if |data| == 0 then 0
    else if |data| == 1 then 256 * data[0] as nat
    else BeSum(data[..|data| - Tail(data)]) + (if Tail(data) == 1 then 256 * data[|data| - 1] as nat
                                               else 256 * data[|data| - 2] as nat + data[|data| - 1] as nat)
  }

  /** Bytes in the last, possibly padded word. */
  function Tail(data: seq<byte>): nat
    requires |data| > 0
    ensures 1 <= Tail(data) <= 2 && Tail(data) <= |data|
  {
    if |data| % 2 == 1 then 1 else 2
  }

  lemma {:induction false} SumBound(data: seq<byte>)
    ensures LeSum(data) <= (|data| + 1) / 2 * 65535 && BeSum(data) <= (|data| + 1) / 2 * 65535
    decreases |data|
  {
    if |data| > 1 {
      SumBound(data[..|data| - Tail(data)]);
    }
  }

  /** Reducing a sum to 16 bits: zero stays zero, otherwise the residue in 1..65535. */
  function Folded(sum: nat): nat
  {
    if sum == 0 then 0 else (sum - 1) % 65535 + 1
  }

  lemma FoldedMeans(sum: nat)
    ensures Folded(sum) <= 65535 && (Folded(sum) == 0 <==> sum == 0)
    ensures exists q: nat :: sum == Folded(sum) + 65535 * q
  {
    if sum > 0 {
      var q := (sum - 1) / 65535;
      assert sum == Folded(sum) + 65535 * q;
    } else {
      assert sum == Folded(sum) + 65535 * 0;
    }
  }

  /** The residue in 1..65535 (0 for zero) is unique. */
  lemma FoldedUnique(a: nat, b: nat, q: int)
    requires a == b + 65535 * q && (a == 0 <==> b == 0)
    ensures Folded(a) == Folded(b)
  {
    if a > 0 {
      var m := (b - 1) / 65535;
      assert a - 1 == (b - 1) % 65535 + 65535 * (m + q);
      Residue(a - 1, (b - 1) % 65535, m + q);
    }
  }

  lemma Residue(x: nat, r: nat, q: int)
    requires r < 65535 && x == r + 65535 * q
    ensures x % 65535 == r
  {
  }

  /** The folding loop of both checksums. */
  method FoldLoop(sum: nat) returns (f: nat)
    requires sum < U32
    ensures f == Folded(sum)
  {
    f := sum;
    while f / 65536 != 0
      invariant Folded(f) == Folded(sum)
      decreases f
    {
      var g := f % 65536 + f / 65536;
      FoldedUnique(f, g, f / 65536);
      f := g;
    }
    if f > 0 {
      Residue(f - 1, f - 1, 0);
    }
  }

  // ---- inet_checksum -----------------------------------------------------------

  function Inet(data: seq<byte>): (c: nat)
    ensures c <= 65535
  {
    FoldedMeans(LeSum(data) % U32);
    65535 - Folded(LeSum(data) % U32)
  }

  /** Up to here the 32-bit accumulator cannot overflow. */
  const MAX_BYTES: nat := 131074

  /** inet_checksum, with its 32-bit accumulator. */
  method InetChecksum(data: seq<byte>) returns (c: nat)
    ensures c == Inet(data)
  {
    hide LeSum, Folded;
    assert data[..0] == [];
    EmptySum();
    var sum, i, len := 0, 0, |data|;
    while len > 1
      invariant 0 <= i <= |data| && len == |data| - i && i % 2 == 0 && sum == LeSum(data[..i]) % U32
      decreases len
    {
      var word := data[i] as nat + 256 * data[i + 1] as nat;
      LeWord(data, i);
      AddWrapped(LeSum(data[..i]), word);
      sum := (sum + word) % U32;
      i, len := i + 2, len - 2;
    }
    if len != 0 {
      LeLast(data, i);
      AddWrapped(LeSum(data[..i]), data[i] as nat);
      sum := (sum + data[i] as nat) % U32;
    }
    assert data[..|data|] == data;
    var f := FoldLoop(sum);
    FoldedMeans(LeSum(data) % U32);
    c := 65535 - f;
  }

  lemma AddWrapped(a: nat, b: nat)
    ensures (a % U32 + b) % U32 == (a + b) % U32
  {
  }

  lemma EmptySum()
    ensures LeSum([]) == 0 && BeSum([]) == 0
  {
  }

  lemma SumSmall(data: seq<byte>)
    requires |data| <= MAX_BYTES
    ensures LeSum(data) < U32 && LeSum(data) % U32 == LeSum(data)
  {
    SumBound(data);
  }

  lemma LeWord(data: seq<byte>, i: nat)
    requires i + 2 <= |data| && i % 2 == 0
    ensures LeSum(data[..i + 2]) == LeSum(data[..i]) + data[i] as nat + 256 * data[i + 1] as nat
  {
    assert data[..i + 2][..i] == data[..i];
  }

  lemma LeLast(data: seq<byte>, i: nat)
    requires i + 1 == |data| && i % 2 == 0
    ensures LeSum(data) == LeSum(data[..i]) + data[i] as nat
  {
    if i == 0 {
      assert LeSum(data[..i]) == 0;
    }
  }

  /** The buffer with a 16-bit value stored at word k, low byte first. */
  function Stored(data: seq<byte>, k: nat, c: nat): seq<byte>
    requires 2 * k + 1 < |data| && c <= 65535
  {
    data[2 * k := (c % 256) as byte][2 * k + 1 := (c / 256) as byte]
  }

  lemma {:induction false} StoredSum(data: seq<byte>, k: nat, c: nat)
    requires 2 * k + 1 < |data| && c <= 65535 && data[2 * k] == 0 && data[2 * k + 1] == 0
    ensures LeSum(Stored(data, k, c)) == LeSum(data) + c
    decreases |data|
  {
    var n := |data| - Tail(data);
    var data' := Stored(data, k, c);
    if 2 * k + 1 < n {
      assert data'[..n] == Stored(data[..n], k, c);
      StoredSum(data[..n], k, c);
    } else {
      assert n == 2 * k && data'[..n] == data[..n];
      assert c == c % 256 + 256 * (c / 256);
    }
  }

  /** Storing the checksum in a zeroed, aligned field makes the buffer verify. */
  lemma StoredVerifies(data: seq<byte>, k: nat)
    requires 2 * k + 1 < |data| <= MAX_BYTES && data[2 * k] == 0 && data[2 * k + 1] == 0
    ensures Inet(Stored(data, k, Inet(data))) == 0
  {
    var s, c := LeSum(data), Inet(data);
    StoredSum(data, k, c);
    SumSmall(data);
    SumSmall(Stored(data, k, c));
    FoldedMeans(s);
    var q: nat :| s == Folded(s) + 65535 * q;
    assert s + c == 65535 + 65535 * q;
    FoldedUnique(s + c, 65535, q);
    Residue(65534, 65534, 0);
  }

  // ---- tcp_checksum --------------------------------------------------------------

  /** tcp_sum, added to a running sum. */
  method TcpSum(p: seq<byte>, start: nat) returns (sum: nat)
    requires |p| <= 65535 && start + BeSum(p) < U32
    ensures sum == start + BeSum(p)
  {
    sum := start;
    var i := 0;
    while i + 1 < |p|
      invariant 0 <= i <= |p| && i % 2 == 0 && sum == start + BeSum(p[..i])
    {
      BeWord(p, i);
      BePrefix(p, i + 2);
      sum := (sum + (256 * p[i] as nat + p[i + 1] as nat)) % U32;
      i := i + 2;
    }
    if |p| % 2 == 1 {
      BeLast(p, i);
      sum := (sum + 256 * p[|p| - 1] as nat) % U32;
    } else {
      assert p[..i] == p;
    }
  }

  lemma BeWord(data: seq<byte>, i: nat)
    requires i + 2 <= |data| && i % 2 == 0
    ensures BeSum(data[..i + 2]) == BeSum(data[..i]) + 256 * data[i] as nat + data[i + 1] as nat
  {
    assert data[..i + 2][..i] == data[..i];
  }

  lemma BeLast(data: seq<byte>, i: nat)
    requires i + 1 == |data| && i % 2 == 0
    ensures BeSum(data) == BeSum(data[..i]) + 256 * data[i] as nat
  {
    if i == 0 {
      assert BeSum(data[..i]) == 0;
    }
  }

  lemma {:induction false} BePrefix(data: seq<byte>, i: nat)
    requires i <= |data| && i % 2 == 0
    ensures BeSum(data[..i]) <= BeSum(data)
    decreases |data|
  {
    if i == |data| {
      assert data[..i] == data;
    } else {
      var n := |data| - Tail(data);
      assert i <= n && data[..n][..i] == data[..i];
      BePrefix(data[..n], i);
      if |data| == 1 {
        assert data[..i] == [];
      }
    }
  }

  /** The last word of a sum. */
  function BeEnd(data: seq<byte>): nat
    requires |data| > 0
  {
    if Tail(data) == 1 then 256 * data[|data| - 1] as nat else 256 * data[|data| - 2] as nat + data[|data| - 1] as nat
  }

  lemma BeUnroll(data: seq<byte>)
    requires |data| > 0
    ensures BeSum(data) == BeSum(data[..|data| - Tail(data)]) + BeEnd(data)
  {
  }

  lemma SameEnd(a: seq<byte>, b: seq<byte>)
    requires |a| % 2 == 0 && |b| > 0
    ensures Tail(a + b) == Tail(b) && BeEnd(a + b) == BeEnd(b)
    ensures (a + b)[..|a + b| - Tail(b)] == a + b[..|b| - Tail(b)]
  {
    assert (|a| + |b|) % 2 == |b| % 2;
  }

  /** An even prefix sums separately. */
  lemma {:induction false} BeConcat(a: seq<byte>, b: seq<byte>)
    requires |a| % 2 == 0
    ensures BeSum(a + b) == BeSum(a) + BeSum(b)
    decreases |b|
  {
    if b == [] {
      EmptySum();
      assert a + b == a;
    } else {
      hide BeSum, BeEnd;
      BeUnroll(a + b);
      BeUnroll(b);
      SameEnd(a, b);
      BeConcat(a, b[..|b| - Tail(b)]);
    }
  }

  /** struct tcp_pseudo_header on the wire. */
  function Pseudo(src: seq<byte>, dst: seq<byte>, length: nat): (p: seq<byte>)
    requires |src| == 4 && |dst| == 4 && length <= 65535
    ensures |p| == 12
  {
    src + dst + [0, 6, (length / 256) as byte, (length % 256) as byte]
  }

  /** tcp_checksum: the byte swap of inet_checksum over pseudo-header and segment. */
  method TcpChecksum(src: seq<byte>, dst: seq<byte>, segment: seq<byte>) returns (c: nat)
    requires |src| == 4 && |dst| == 4 && |segment| <= 65535
    ensures c == Swap(Inet(Pseudo(src, dst, |segment|) + segment))
  {
    var pseudo := src + dst + [0, 6, (|segment| / 256) as byte, (|segment| % 256) as byte];
    SumBound(pseudo);
    SumBound(segment);
    BeConcat(pseudo, segment);
    var sum := TcpSum(pseudo, 0);
    sum := TcpSum(segment, sum);
    var f := FoldLoop(sum);
    FoldedMeans(sum);
    ChecksumsAgree(pseudo + segment);
    c := 65535 - f;
  }

  // ---- the two agree -------------------------------------------------------------

  function Swap(x: nat): nat
    requires x <= 65535
  {
    x % 256 * 256 + x / 256
  }

  /** Byte order only multiplies the sum by 256, modulo 65535. */
  lemma {:induction false} SwappedSum(data: seq<byte>) returns (q: nat)
    ensures 256 * LeSum(data) == BeSum(data) + 65535 * q
    ensures LeSum(data) == 0 <==> BeSum(data) == 0
    decreases |data|
  {
    q := 0;
    if |data| > 1 {
      var n := |data| - Tail(data);
      q := SwappedSum(data[..n]);
      if Tail(data) == 2 {
        q := q + data[|data| - 1] as nat;
      }
    }
  }

  lemma SwapResidue(x: nat)
    requires x <= 65535
    ensures 256 * x == Swap(x) + 65535 * (x / 256) && Swap(x) <= 65535 && (Swap(x) == 0 <==> x == 0)
    ensures Swap(65535 - x) == 65535 - Swap(x)
  {
    var h, l := x / 256, x % 256;
    assert x == 256 * h + l && h <= 255;
    assert 65535 - x == 256 * (255 - h) + (255 - l);
    assert (65535 - x) % 256 == 255 - l && (65535 - x) / 256 == 255 - h;
  }

  /** The big-endian checksum is the byte swap of the little-endian one, for any
      bytes, an odd number included. */
  lemma ChecksumsAgree(data: seq<byte>)
    requires |data| <= MAX_BYTES
    ensures 65535 - Folded(BeSum(data)) == Swap(Inet(data))
  {
    var le, be := LeSum(data), BeSum(data);
    var q := SwappedSum(data);
    SumSmall(data);
    FoldedMeans(le);
    FoldedMeans(be);
    var m: nat :| le == Folded(le) + 65535 * m;
    var f := Folded(le);
    SwapResidue(f);
    // be == 256 * le - 65535 * q == Swap(f) + 65535 * (...)
    FoldedUnique(be, Swap(f), f / 256 + 256 * m - q);
    if Swap(f) > 0 {
      Residue(Swap(f) - 1, Swap(f) - 1, 0);
    }
    assert Folded(Swap(f)) == Swap(f);
  }
}
