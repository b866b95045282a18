/** Bytes as they travel on a QUIC stream: concatenation of the buffers a receive
    event is cut into, and the little-endian integers that `memcpy` reads and writes.

    Most lemmas here are about slices of concatenations; they exist so that the proofs
    about the readers can name the one fact that they need. */
module Bytes {

  newtype byte = x: int | 0 <= x < 256

  /** A message, or one receive buffer. */
  type Chunk = seq<byte>

  function Flatten(chunks: seq<Chunk>): Chunk {
    if chunks == [] then [] else chunks[0] + Flatten(chunks[1..])
  }

  lemma {:induction false} FlattenAppend(a: seq<Chunk>, b: seq<Chunk>)
    ensures Flatten(a + b) == Flatten(a) + Flatten(b)
  {
    if a == [] {
      assert a + b == b;
    } else {
      assert (a + b)[1..] == a[1..] + b;
      FlattenAppend(a[1..], b);
    }
  }

  lemma Join(a: Chunk, b: Chunk, c: Chunk)
    ensures (a + b) + c == a + (b + c)
    ensures (a + (b + c))[..|a|] == a
    ensures (a + (b + c))[|a|..|a| + |b|] == b
    ensures (a + (b + c))[|a| + |b|..] == c
  {
  }

  lemma Cut(s: Chunk, i: nat, j: nat)
    requires i <= j <= |s|
    ensures s[..i] + s[i..j] == s[..j] && s[..j] + s[j..] == s
  {
  }

  lemma CutTwice(s: Chunk, i: nat, j: nat, k: nat)
    requires j <= k && i + k <= |s|
    ensures s[i..][k..] == s[i + k..] && s[i..][j..k] == s[i + j..i + k]
  {
  }

  lemma NoPrefix(s: Chunk)
    ensures [] + s == s
  {
  }

  lemma NoSuffix(s: Chunk)
    ensures s + [] == s
  {
  }

  lemma CutAcross(a: Chunk, b: Chunk, i: nat, j: nat)
    requires i <= |a| + j && j <= |b|
    ensures (a + b)[i..|a| + j] == (a + b[..j])[i..]
    ensures (a + b)[..|a| + j] == a + b[..j]
    ensures (a + b)[|a| + j..] == b[j..]
  {
  }

  lemma CutInSecond(a: Chunk, b: Chunk, i: nat, j: nat)
    requires |a| <= i <= j <= |a| + |b|
    ensures (a + b)[i..j] == b[i - |a|..j - |a|]
  {
  }

  lemma DropOfAppend(a: Chunk, b: Chunk, i: nat, j: nat)
    requires i <= j <= |a|
    ensures (a + b)[..j] == a[..j] && (a + b)[j..] == a[j..] + b && (a + b)[i..j] == a[i..j]
  {
  }

  function Pow256(k: nat): (r: nat)
    ensures r > 0
  {
    if k == 0 then 1 else 256 * Pow256(k - 1)
  }

  /** The low `k` bytes of `n`, least significant first. */
  function Encode(n: nat, k: nat): (r: Chunk)
    ensures |r| == k
  {
    if k == 0 then [] else [(n % 256) as byte] + Encode(n / 256, k - 1)
  }

  function Decode(s: Chunk): (n: nat)
    ensures n < Pow256(|s|)
  {
    if s == [] then 0 else s[0] as nat + 256 * Decode(s[1..])
  }

  lemma {:induction false} DecodeEncode(n: nat, k: nat)
    ensures Decode(Encode(n, k)) == n % Pow256(k)
  {
    if k > 0 {
      DecodeEncode(n / 256, k - 1);
      assert Encode(n, k)[1..] == Encode(n / 256, k - 1);
      DivideByByte(n, Pow256(k - 1));
    }
  }

  lemma DivideByByte(n: nat, m: nat)
    requires m > 0
    ensures n % (256 * m) == n % 256 + 256 * ((n / 256) % m)
  {
    var q, r := (n / 256) / m, (n / 256) % m;
    assert n == (256 * m) * q + (n % 256 + 256 * r) by {
      assert n / 256 == m * q + r;
    }
    assert n % 256 + 256 * r < 256 * m;
    RemainderIsUnique(n, 256 * m, q, n % 256 + 256 * r);
  }

  lemma RemainderIsUnique(n: nat, d: nat, q: nat, r: nat)
    requires d > 0 && r < d && n == d * q + r
    ensures n % d == r
  {
    var q', r' := n / d, n % d;
    if q > q' {
      AtLeastOnce(d, q, q');
    } else if q < q' {
      AtLeastOnce(d, q', q);
    }
  }

  lemma {:induction false} AtLeastOnce(d: nat, more: nat, less: nat)
    requires more > less
    ensures d * more >= d * less + d
  {
    if more == less + 1 {
      assert d * more == d * less + d;
    } else {
      AtLeastOnce(d, more - 1, less);
    }
  }

  lemma {:induction false} EncodeDecode(s: Chunk)
    ensures Encode(Decode(s), |s|) == s
  {
    if s != [] {
      EncodeDecode(s[1..]);
      var rest := Decode(s[1..]);
      assert (s[0] as nat + 256 * rest) % 256 == s[0] as nat;
      assert (s[0] as nat + 256 * rest) / 256 == rest;
    }
  }
}
