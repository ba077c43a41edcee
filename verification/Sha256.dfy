/** The build script's SHA-256 against FIPS 180-4: padding (section 5.1.1), the message schedule and
    the compression loop (section 6.2.2), and the digest of a whole message. */
module Sha256 {
  import opened Bytes

  newtype Word = x: int | 0 <= x < 0x1_0000_0000

  // ----- Big-endian numbers -----

  function Pow256(k: nat): (p: nat)
    ensures p > 0
  {
    if k == 0 then 1 else 256 * Pow256(k - 1)
  }

  function BigEndian(n: nat, k: nat): (s: seq<byte>)
    ensures |s| == k
  {
    if k == 0 then [] else BigEndian(n / 256, k - 1) + [(n % 256) as byte]
  }

  function FromBigEndian(s: seq<byte>): (n: nat)
    ensures n < Pow256(|s|)
  {
    if s == [] then 0 else FromBigEndian(s[..|s| - 1]) * 256 + s[|s| - 1] as nat
  }

  lemma {:induction false} BigEndianRoundTrip(n: nat, k: nat)
    ensures FromBigEndian(BigEndian(n, k)) == n % Pow256(k)
  {
    if k > 0 {
      var s, p := BigEndian(n, k), Pow256(k - 1);
      assert s[..k - 1] == BigEndian(n / 256, k - 1);
      BigEndianRoundTrip(n / 256, k - 1);
      LowDigit(n, p);
    }
  }

  lemma LowDigit(n: nat, p: nat)
    requires p > 0
    ensures n % (256 * p) == (n / 256) % p * 256 + n % 256
  {
    var q, r := n / 256 / p, (n / 256) % p;
    assert n / 256 == q * p + r;
    assert n == (q * p + r) * 256 + n % 256;
    assert (q * p) * 256 == q * (256 * p);
    var low := r * 256 + n % 256;
    assert n == q * (256 * p) + low && 0 <= low < 256 * p;
    DivModUnique(n, 256 * p, q, low);
  }

  lemma DivModUnique(n: nat, m: nat, q: nat, r: nat)
    requires m > 0 && n == q * m + r && r < m
    ensures n % m == r
  {
    var d := n / m - q;
    assert n == n / m * m + n % m;
    assert d * m == r - n % m;
    AtLeastOne(d, m);
  }

  lemma AtLeastOne(d: int, m: int)
    requires m > 0
    ensures d >= 1 ==> d * m >= m
    ensures d <= -1 ==> d * m <= -m
  {
    if d >= 1 {
      assert d * m == (d - 1) * m + m;
    }
    if d <= -1 {
      assert d * m == (d + 1) * m - m;
    }
  }

  // ----- Padding -----

  function Zeros(k: nat): (s: seq<byte>)
    ensures |s| == k && forall i :: 0 <= i < k ==> s[i] == 0
  {
    seq(k, _ => 0)
  }

  /** How many zero bytes follow the 0x80: the least number that leaves room for the length. */
  function ZeroCount(n: nat): (k: nat)
    ensures k < 64 && (n + 1 + k) % 64 == 56
  {
    (55 - n) % 64
  }

  const TWO_TO_64: nat := 0x1_0000_0000_0000_0000

  function BitLength(n: nat): nat { n * 8 % TWO_TO_64 }

  function Padded(m: seq<byte>): seq<byte> {
    m + [0x80] + Zeros(ZeroCount(|m|)) + BigEndian(BitLength(|m|), 8)
  }

  /** The padding loop stops exactly at that many zeros. */
  lemma ZerosMissing(n: nat, zeros: nat)
    requires zeros <= ZeroCount(n)
    ensures (n + 1 + zeros) % 64 == 56 <==> zeros == ZeroCount(n)
  {
  }

  lemma OneMoreZero(front: seq<byte>, zeros: nat)
    ensures front + Zeros(zeros) + [0] == front + Zeros(zeros + 1)
  {
    assert Zeros(zeros) + [0] == Zeros(zeros + 1);
  }

  method Pad(data: seq<byte>) returns (padded: seq<byte>)
    ensures padded == Padded(data)
  {
    var bitLen := |data| * 8 % TWO_TO_64;
    assert bitLen == BitLength(|data|);
    hide ZeroCount, Zeros, BigEndian, BitLength;
    padded := data + [0x80];
    ghost var zeros := 0;
    assert padded + Zeros(0) == padded;
    while |padded| % 64 != 56
      invariant zeros <= ZeroCount(|data|) && padded == data + [0x80] + Zeros(zeros)
      decreases ZeroCount(|data|) - zeros
    {
      ZerosMissing(|data|, zeros);
      OneMoreZero(data + [0x80], zeros);
      padded := padded + [0];
      zeros := zeros + 1;
    }
    ZerosMissing(|data|, zeros);
    padded := padded + BigEndian(bitLen, 8);
  }

  /** Whole blocks, and as few as can hold the message, its 0x80 and its length. */
  lemma PaddedLength(m: seq<byte>, blocks: nat)
    ensures |Padded(m)| % 64 == 0
    ensures |Padded(m)| <= 64 * blocks <==> |m| + 9 <= 64 * blocks
  {
    hide BigEndian, BitLength;
    var q := (|m| + 9 + ZeroCount(|m|)) / 64;
    assert |Padded(m)| == 64 * q;
  }

  function DropZeros(s: seq<byte>): seq<byte> {
    if s == [] || s[|s| - 1] != 0 then s else DropZeros(s[..|s| - 1])
  }

  /** Takes the padding off again. */
  function Unpad(s: seq<byte>): seq<byte> {
    var body := DropZeros(if |s| >= 8 then s[..|s| - 8] else []);
    if body == [] then [] else body[..|body| - 1]
  }

  lemma {:induction false} DropZerosDrops(s: seq<byte>, k: nat)
    requires s != [] && s[|s| - 1] != 0
    ensures DropZeros(s + Zeros(k)) == s
  {
    if k > 0 {
      assert (s + Zeros(k))[..|s| + k - 1] == s + Zeros(k - 1);
      DropZerosDrops(s, k - 1);
    } else {
      assert s + Zeros(0) == s;
    }
  }

  /** Padding loses nothing, whatever the length of the message. */
  lemma UnpadPadded(m: seq<byte>)
    ensures Unpad(Padded(m)) == m
  {
    var marked, zeros := m + [0x80], ZeroCount(|m|);
    assert Padded(m)[..|Padded(m)| - 8] == marked + Zeros(zeros);
    DropZerosDrops(marked, zeros);
  }

  lemma PaddingInjective(m: seq<byte>, n: seq<byte>)
    ensures Padded(m) == Padded(n) <==> m == n
  {
    UnpadPadded(m);
    UnpadPadded(n);
  }

  /** The length field is the message's bit length exactly for messages under 2^61 bytes. */
  lemma LengthFieldIff(m: seq<byte>)
    ensures FromBigEndian(Padded(m)[|Padded(m)| - 8..]) == 8 * |m| <==> |m| < 0x2000_0000_0000_0000
  {
    LengthField(m);
    BitLengthIff(|m|);
  }

  lemma BitLengthIff(n: nat)
    ensures BitLength(n) == 8 * n <==> n < 0x2000_0000_0000_0000
  {
  }

  lemma LengthField(m: seq<byte>)
    ensures FromBigEndian(Padded(m)[|Padded(m)| - 8..]) == BitLength(|m|)
  {
    hide BigEndian, FromBigEndian, Pow256, Zeros, ZeroCount;
    var p := Padded(m);
    assert p[|p| - 8..] == BigEndian(BitLength(|m|), 8);
    BigEndianRoundTrip(BitLength(|m|), 8);
    Pow256Of8();
    assert BitLength(|m|) % TWO_TO_64 == BitLength(|m|);
  }

  lemma Pow256Of8()
    ensures Pow256(8) == TWO_TO_64
  {
    assert Pow256(4) == 0x1_0000_0000;
    assert Pow256(6) == 0x1_0000_0000_0000;
  }

  /** No padded message ends another one. */
  lemma PaddingSuffixFree(m: seq<byte>, n: seq<byte>, front: seq<byte>)
    requires |m| < 0x2000_0000_0000_0000 && |n| < 0x2000_0000_0000_0000
    requires Padded(n) == front + Padded(m)
    ensures front == [] && m == n
  {
    var p, q := Padded(m), Padded(n);
    assert q[|q| - 8..] == p[|p| - 8..];
    LengthFieldIff(m);
    LengthFieldIff(n);
    assert |m| == |n| && front == [];
    assert q == p;
    PaddingInjective(m, n);
  }

  // ----- The functions of section 4.1.2 and the constants of section 4.2.2 -----

  /** Addition modulo 2^32. */
  function Plus(x: Word, y: Word): Word { ((x as int + y as int) % 0x1_0000_0000) as Word }

  function Minus(x: Word, y: Word): Word { ((x as int - y as int) % 0x1_0000_0000) as Word }

  function Bits(x: Word): bv32 { x as bv32 }

  function FromBits(b: bv32): Word { b as Word }

  function Ch(x: Word, y: Word, z: Word): Word { FromBits((Bits(x) & Bits(y)) ^ (!Bits(x) & Bits(z))) }

  function Maj(x: Word, y: Word, z: Word): Word {
    FromBits((Bits(x) & Bits(y)) ^ (Bits(x) & Bits(z)) ^ (Bits(y) & Bits(z)))
  }

  function BigSigma0(x: Word): Word {
    FromBits(Bits(x).RotateRight(2) ^ Bits(x).RotateRight(13) ^ Bits(x).RotateRight(22))
  }

  function BigSigma1(x: Word): Word {
    FromBits(Bits(x).RotateRight(6) ^ Bits(x).RotateRight(11) ^ Bits(x).RotateRight(25))
  }

  function SmallSigma0(x: Word): Word { FromBits(Bits(x).RotateRight(7) ^ Bits(x).RotateRight(18) ^ (Bits(x) >> 3)) }

  function SmallSigma1(x: Word): Word { FromBits(Bits(x).RotateRight(17) ^ Bits(x).RotateRight(19) ^ (Bits(x) >> 10)) }

  function K(): (k: seq<Word>)
    ensures |k| == 64
  {
    [0x428a2f98, 0x71374491, 0xb5c0fbcf, 0xe9b5dba5, 0x3956c25b, 0x59f111f1, 0x923f82a4, 0xab1c5ed5] +
    [0xd807aa98, 0x12835b01, 0x243185be, 0x550c7dc3, 0x72be5d74, 0x80deb1fe, 0x9bdc06a7, 0xc19bf174] +
    [0xe49b69c1, 0xefbe4786, 0x0fc19dc6, 0x240ca1cc, 0x2de92c6f, 0x4a7484aa, 0x5cb0a9dc, 0x76f988da] +
    [0x983e5152, 0xa831c66d, 0xb00327c8, 0xbf597fc7, 0xc6e00bf3, 0xd5a79147, 0x06ca6351, 0x14292967] +
    [0x27b70a85, 0x2e1b2138, 0x4d2c6dfc, 0x53380d13, 0x650a7354, 0x766a0abb, 0x81c2c92e, 0x92722c85] +
    [0xa2bfe8a1, 0xa81a664b, 0xc24b8b70, 0xc76c51a3, 0xd192e819, 0xd6990624, 0xf40e3585, 0x106aa070] +
    [0x19a4c116, 0x1e376c08, 0x2748774c, 0x34b0bcb5, 0x391c0cb3, 0x4ed8aa4a, 0x5b9cca4f, 0x682e6ff3] +
    [0x748f82ee, 0x78a5636f, 0x84c87814, 0x8cc70208, 0x90befffa, 0xa4506ceb, 0xbef9a3f7, 0xc67178f2]
  }

  // ----- The message schedule -----

  function WordAt(block: seq<byte>, t: nat): Word
    requires 4 * t + 4 <= |block|
  {
    assert Pow256(4) == 0x1_0000_0000;
    FromBigEndian(block[4 * t..4 * t + 4]) as Word
  }

  /** Step 1 of section 6.2.2. */
  function W(block: seq<byte>, t: nat): Word
    requires |block| == 64
  {
    if t < 16 then WordAt(block, t)
    else Plus(Plus(Plus(SmallSigma1(W(block, t - 2)), W(block, t - 7)), SmallSigma0(W(block, t - 15))),
      W(block, t - 16))
  }

  method FillSchedule(chunk: seq<byte>) returns (w: array<Word>)
    requires |chunk| == 64
    ensures fresh(w) && w.Length == 64 && forall t :: 0 <= t < 64 ==> w[t] == W(chunk, t)
  {
    hide W, WordAt, Plus, SmallSigma0, SmallSigma1;
    w := new Word[64](_ => 0);
    for i := 0 to 16
      invariant forall t :: 0 <= t < i ==> w[t] == W(chunk, t)
    {
      w[i] := WordAt(chunk, i);
      ScheduleStart(chunk, i);
    }
    for i := 16 to 64
      invariant forall t :: 0 <= t < i ==> w[t] == W(chunk, t)
    {
      var s0 := SmallSigma0(w[i - 15]);
      var s1 := SmallSigma1(w[i - 2]);
      w[i] := Plus(Plus(Plus(w[i - 16], s0), w[i - 7]), s1);
      ScheduleStep(chunk, i);
    }
  }

  lemma ScheduleStart(block: seq<byte>, t: nat)
    requires |block| == 64 && t < 16
    ensures W(block, t) == WordAt(block, t)
  {
  }

  /** The code adds the four terms in the reverse order. */
  lemma ScheduleStep(block: seq<byte>, t: nat)
    requires |block| == 64 && t >= 16
    ensures W(block, t) == Plus(Plus(Plus(W(block, t - 16), SmallSigma0(W(block, t - 15))), W(block, t - 7)),
      SmallSigma1(W(block, t - 2)))
  {
    hide SmallSigma0, SmallSigma1, WordAt, Plus;
    AddReversed(SmallSigma1(W(block, t - 2)), W(block, t - 7), SmallSigma0(W(block, t - 15)), W(block, t - 16));
  }

  lemma AddReversed(a: Word, b: Word, c: Word, d: Word)
    ensures Plus(Plus(Plus(a, b), c), d) == Plus(Plus(Plus(d, c), b), a)
  {
    SumOfFour(a, b, c, d);
    SumOfFour(d, c, b, a);
  }

  lemma SumOfFour(a: Word, b: Word, c: Word, d: Word)
    ensures Plus(Plus(Plus(a, b), c), d) as int == (a as int + b as int + c as int + d as int) % 0x1_0000_0000
  {
    var two := a as int + b as int;
    assert Plus(a, b) as int == two % 0x1_0000_0000;
    assert Plus(Plus(a, b), c) as int == (two + c as int) % 0x1_0000_0000;
  }

  // ----- The compression loop -----

  datatype Variables = Variables(a: Word, b: Word, c: Word, d: Word, e: Word, f: Word, g: Word, h: Word)

  /** Step 3 of section 6.2.2, for one t, with the words of that step. */
  function Round(v: Variables, k: Word, w: Word): Variables {
    var t1 := Plus(Plus(Plus(Plus(v.h, BigSigma1(v.e)), Ch(v.e, v.f, v.g)), k), w);
    var t2 := Plus(BigSigma0(v.a), Maj(v.a, v.b, v.c));
    Variables(Plus(t1, t2), v.a, v.b, v.c, Plus(v.d, t1), v.e, v.f, v.g)
  }

  function Rounds(v: Variables, block: seq<byte>, t: nat): Variables
    requires |block| == 64 && t <= 64
  {
    if t == 0 then v else Round(Rounds(v, block, t - 1), K()[t - 1], W(block, t - 1))
  }

  function Add(x: Variables, y: Variables): Variables {
    Variables(Plus(x.a, y.a), Plus(x.b, y.b), Plus(x.c, y.c), Plus(x.d, y.d), Plus(x.e, y.e), Plus(x.f, y.f),
      Plus(x.g, y.g), Plus(x.h, y.h))
  }

  /** Steps 2 to 4: the next intermediate hash value. */
  function Compress(h: Variables, block: seq<byte>): Variables
    requires |block| == 64
  {
    Add(h, Rounds(h, block, 64))
  }

  function HashValue(h: array<Word>): Variables
    requires h.Length == 8
    reads h
  {
    Variables(h[0], h[1], h[2], h[3], h[4], h[5], h[6], h[7])
  }

  /** The 64 rounds on eight rotating variables. */
  method RunRounds(start: Variables, chunk: seq<byte>, w: array<Word>) returns (end: Variables)
    requires |chunk| == 64 && w.Length == 64 && forall t :: 0 <= t < 64 ==> w[t] == W(chunk, t)
    ensures end == Rounds(start, chunk, 64)
  {
    hide K, W, BigSigma0, BigSigma1, Ch, Maj, Plus;
    var Variables(a, b, c, d, e, f, g, hh) := start;
    for i := 0 to 64
      invariant Variables(a, b, c, d, e, f, g, hh) == Rounds(start, chunk, i)
    {
      var s1 := BigSigma1(e);
      var ch := Ch(e, f, g);
      var temp1 := Plus(Plus(Plus(Plus(hh, s1), ch), K()[i]), w[i]);
      var s0 := BigSigma0(a);
      var maj := Maj(a, b, c);
      var temp2 := Plus(s0, maj);
      hh := g;
      g := f;
      f := e;
      e := Plus(d, temp1);
      d := c;
      c := b;
      b := a;
      a := Plus(temp1, temp2);
    }
    end := Variables(a, b, c, d, e, f, g, hh);
  }

  method CompressChunk(h: array<Word>, chunk: seq<byte>)
    requires h.Length == 8 && |chunk| == 64
    modifies h
    ensures HashValue(h) == Compress(old(HashValue(h)), chunk)
  {
    hide W, Rounds, Plus;
    var w := FillSchedule(chunk);
    var end := RunRounds(Variables(h[0], h[1], h[2], h[3], h[4], h[5], h[6], h[7]), chunk, w);
    h[0], h[1], h[2], h[3] := Plus(h[0], end.a), Plus(h[1], end.b), Plus(h[2], end.c), Plus(h[3], end.d);
    h[4], h[5], h[6], h[7] := Plus(h[4], end.e), Plus(h[5], end.f), Plus(h[6], end.g), Plus(h[7], end.h);
  }

  // ----- What the eight variables are: two sequences -----

  /** The values `a` takes: the four before the first round, oldest first, then one per round. */
  function A(v: Variables, block: seq<byte>, t: nat): Word
    requires |block| == 64 && t < 68
    decreases t, 0
  {
    if t < 4 then (if t == 0 then v.d else if t == 1 then v.c else if t == 2 then v.b else v.a)
    else Plus(T1(v, block, t),
      Plus(BigSigma0(A(v, block, t - 1)), Maj(A(v, block, t - 1), A(v, block, t - 2), A(v, block, t - 3))))
  }

  /** The values `e` takes. */
  function E(v: Variables, block: seq<byte>, t: nat): Word
    requires |block| == 64 && t < 68
    decreases t, 0
  {
    if t < 4 then (if t == 0 then v.h else if t == 1 then v.g else if t == 2 then v.f else v.e)
    else Plus(A(v, block, t - 4), T1(v, block, t))
  }

  function T1(v: Variables, block: seq<byte>, t: nat): Word
    requires |block| == 64 && 4 <= t < 68
    decreases t - 1, 1
  {
    Plus(Plus(Plus(Plus(E(v, block, t - 4), BigSigma1(E(v, block, t - 1))),
      Ch(E(v, block, t - 1), E(v, block, t - 2), E(v, block, t - 3))), K()[t - 4]), W(block, t - 4))
  }

  /** After t rounds the eight variables are the last four values of each of two coupled
      recurrences: the rotation is only renaming. */
  lemma {:induction false} RoundsAreSequences(v: Variables, block: seq<byte>, t: nat)
    requires |block| == 64 && t <= 64
    ensures Rounds(v, block, t) == Variables(
      A(v, block, t + 3), A(v, block, t + 2), A(v, block, t + 1), A(v, block, t),
      E(v, block, t + 3), E(v, block, t + 2), E(v, block, t + 1), E(v, block, t))
  {
    hide K, W, BigSigma0, BigSigma1, Ch, Maj, Plus;
    if t > 0 {
      RoundsAreSequences(v, block, t - 1);
    }
  }

  // ----- A round loses nothing -----

  function Unround(v: Variables, k: Word, w: Word): Variables {
    var t2 := Plus(BigSigma0(v.b), Maj(v.b, v.c, v.d));
    var t1 := Minus(v.a, t2);
    Variables(v.b, v.c, v.d, Minus(v.e, t1), v.f, v.g, v.h,
      Minus(Minus(Minus(Minus(t1, w), k), Ch(v.f, v.g, v.h)), BigSigma1(v.f)))
  }

  lemma PlusMinus(x: Word, y: Word)
    ensures Minus(Plus(x, y), y) == x && Plus(Minus(x, y), y) == x
  {
  }

  lemma UnroundRound(v: Variables, k: Word, w: Word)
    ensures Unround(Round(v, k, w), k, w) == v
    ensures Round(Unround(v, k, w), k, w) == v
  {
    hide BigSigma0, BigSigma1, Ch, Maj, Plus, Minus;
    forall x, y ensures Minus(Plus(x, y), y) == x && Plus(Minus(x, y), y) == x { PlusMinus(x, y); }
  }

  /** For every block the rounds are a permutation of the states. */
  lemma {:induction false} RoundsInjective(v: Variables, u: Variables, block: seq<byte>, t: nat)
    requires |block| == 64 && t <= 64
    ensures Rounds(v, block, t) == Rounds(u, block, t) <==> v == u
  {
    hide K, W, Round;
    if t > 0 {
      RoundsInjective(v, u, block, t - 1);
      UnroundRound(Rounds(v, block, t - 1), K()[t - 1], W(block, t - 1));
      UnroundRound(Rounds(u, block, t - 1), K()[t - 1], W(block, t - 1));
    }
  }

  // ----- A whole message -----

  /** The initial hash value of section 5.3.3. */
  function Initial(): Variables {
    Variables(0x6a09e667, 0xbb67ae85, 0x3c6ef372, 0xa54ff53a, 0x510e527f, 0x9b05688c, 0x1f83d9ab, 0x5be0cd19)
  }

  /** The hash value after the first n blocks. */
  function HashBlocks(padded: seq<byte>, n: nat): Variables
    requires 64 * n <= |padded|
  {
    if n == 0 then Initial() else Compress(HashBlocks(padded, n - 1), padded[64 * (n - 1)..64 * n])
  }

  /** Blocks are taken in order, each on top of the hash value of those before it. */
  lemma {:induction false} BlocksChain(front: seq<byte>, block: seq<byte>, n: nat)
    requires |front| == 64 * n && |block| == 64
    ensures HashBlocks(front + block, n + 1) == Compress(HashBlocks(front, n), block)
  {
    hide Compress;
    var s := front + block;
    assert s[64 * n..64 * (n + 1)] == block;
    SameBlocks(s, front, n);
  }

  lemma {:induction false} SameBlocks(s: seq<byte>, t: seq<byte>, n: nat)
    requires 64 * n <= |s| && 64 * n <= |t| && s[..64 * n] == t[..64 * n]
    ensures HashBlocks(s, n) == HashBlocks(t, n)
  {
    hide Compress;
    if n > 0 {
      var m := 64 * (n - 1);
      assert s[..m] == s[..64 * n][..m] && t[..m] == t[..64 * n][..m];
      assert s[m..64 * n] == s[..64 * n][m..] && t[m..64 * n] == t[..64 * n][m..];
      SameBlocks(s, t, n - 1);
    }
  }

  function Words(v: Variables): seq<Word> { [v.a, v.b, v.c, v.d, v.e, v.f, v.g, v.h] }

  function BigEndianWords(words: seq<Word>): (s: seq<byte>)
    ensures |s| == 4 * |words|
  {
    if words == [] then [] else BigEndianWords(words[..|words| - 1]) + BigEndian(words[|words| - 1] as nat, 4)
  }

  function Digest(m: seq<byte>): seq<byte> {
    var p := Padded(m);
    BigEndianWords(Words(HashBlocks(p, |p| / 64)))
  }

  /** The rounds' result was added to the hash value they began with. */
  lemma FeedForward(h: Variables, block: seq<byte>)
    requires |block| == 64
    ensures var r, c := Rounds(h, block, 64), Compress(h, block);
      && Minus(c.a, r.a) == h.a && Minus(c.b, r.b) == h.b && Minus(c.c, r.c) == h.c && Minus(c.d, r.d) == h.d
      && Minus(c.e, r.e) == h.e && Minus(c.f, r.f) == h.f && Minus(c.g, r.g) == h.g && Minus(c.h, r.h) == h.h
  {
    var r := Rounds(h, block, 64);
    hide Rounds;
    PlusMinus(h.a, r.a);
    PlusMinus(h.b, r.b);
    PlusMinus(h.c, r.c);
    PlusMinus(h.d, r.d);
    PlusMinus(h.e, r.e);
    PlusMinus(h.f, r.f);
    PlusMinus(h.g, r.g);
    PlusMinus(h.h, r.h);
    hide Plus, Minus;
  }

  lemma {:induction false} WordsReadBack(words: seq<Word>, k: nat)
    requires k < |words|
    ensures FromBigEndian(BigEndianWords(words)[4 * k..4 * k + 4]) == words[k] as nat
  {
    hide BigEndian, FromBigEndian;
    var n, s := |words| - 1, BigEndianWords(words);
    if k == n {
      assert s[4 * n..4 * n + 4] == BigEndian(words[n] as nat, 4);
      BigEndianRoundTrip(words[n] as nat, 4);
      assert Pow256(4) == 0x1_0000_0000;
    } else {
      WordsReadBack(words[..n], k);
      assert s[4 * k..4 * k + 4] == BigEndianWords(words[..n])[4 * k..4 * k + 4];
    }
  }

  /** The digest's bytes read back, four at a time, as the words of the last hash value. */
  lemma {:induction false} DigestReadsBack(m: seq<byte>, k: nat)
    requires k < 8
    ensures |Digest(m)| == 32
    ensures FromBigEndian(Digest(m)[4 * k..4 * k + 4]) == Words(HashBlocks(Padded(m), |Padded(m)| / 64))[k] as nat
  {
    hide Padded, HashBlocks, BigEndianWords, FromBigEndian;
    WordsReadBack(Words(HashBlocks(Padded(m), |Padded(m)| / 64)), k);
  }

  method Sha256Digest(data: seq<byte>) returns (digest: seq<byte>)
    ensures digest == Digest(data) && |digest| == 32
  {
    hide Padded, Compress, BigEndian;
    var h := new Word[8];
    h[0], h[1], h[2], h[3] := 0x6a09e667, 0xbb67ae85, 0x3c6ef372, 0xa54ff53a;
    h[4], h[5], h[6], h[7] := 0x510e527f, 0x9b05688c, 0x1f83d9ab, 0x5be0cd19;
    var padded := Pad(data);
    for n := 0 to |padded| / 64
      invariant HashValue(h) == HashBlocks(padded, n)
    {
      CompressChunk(h, padded[64 * n..64 * (n + 1)]);
    }
    digest := [];
    for i := 0 to 8
      invariant digest == BigEndianWords(h[..i])
    {
      assert h[..i + 1][..i] == h[..i];
      digest := digest + BigEndian(h[i] as nat, 4);
    }
    assert h[..8] == Words(HashValue(h));
  }
}
