/**
 The WOTS+ reference signer and verifier (tools/ccq/wotsplus.py), after section 3.1 of RFC 8391
 with n = 32 and w = 16. The hash is an arbitrary function with 32-byte results.
 */
module WotsPlus {
  import opened Prelude

  type Keccak = Bytes -> Bytes

  const W := 16
  const LEN1 := 64
  const LEN := 67

  ghost predicate IsHash(keccak: Keccak) {
    forall x :: |keccak(x)| == 32
  }

  // ---------------------------------------------------------------------------------------
  // Bytes
  // ---------------------------------------------------------------------------------------

  /** Big-endian, two bytes. */
  function ToBytes2(v: nat): Bytes
    requires v < 65536
  {
    [v / 256, v % 256]
  }

  function Pow2(n: nat): nat {
    if n == 0 then 1 else 2 * Pow2(n - 1)
  }

  function XorBits(a: nat, b: nat, bits: nat): (r: nat)
    ensures r < Pow2(bits)
  {
    if bits == 0 then 0
    else (if a % 2 == b % 2 then 0 else 1) + 2 * XorBits(a / 2, b / 2, bits - 1)
  }

  function Xor(a: Byte, b: Byte): Byte {
    assert Pow2(8) == 2 * Pow2(7) == 4 * Pow2(6) == 8 * Pow2(5) == 16 * Pow2(4) == 32 * Pow2(3);
    assert Pow2(3) == 2 * Pow2(2) == 4 * Pow2(1) == 8 * Pow2(0);
    XorBits(a, b, 8)
  }

  /** Pairwise exclusive-or, as long as the shorter argument. */
  function XorBytes(x: Bytes, y: Bytes): Bytes {
    seq(if |x| < |y| then |x| else |y|, i requires 0 <= i < |x| && i < |y| => Xor(x[i], y[i]))
  }

  function Join(chunks: seq<Bytes>): Bytes {
    if chunks == [] then [] else Join(chunks[..|chunks| - 1]) + chunks[|chunks| - 1]
  }

  /** `s[a:b]` with both ends clamped to the length. */
  function Slice(s: Bytes, a: nat, b: nat): Bytes
    requires a <= b
  {
    if |s| <= a then [] else if |s| <= b then s[a..] else s[a..b]
  }

  lemma {:induction false} JoinLength(chunks: seq<Bytes>)
    requires forall i :: 0 <= i < |chunks| ==> |chunks[i]| == 32
    ensures |Join(chunks)| == 32 * |chunks|
  {
    if chunks != [] { JoinLength(chunks[..|chunks| - 1]); }
  }

  /** Slicing joined 32-byte chunks gives the chunks back. */
  lemma {:induction false} SliceJoin(chunks: seq<Bytes>, i: nat)
    requires (forall k :: 0 <= k < |chunks| ==> |chunks[k]| == 32) && i < |chunks|
    ensures Slice(Join(chunks), 32 * i, 32 * (i + 1)) == chunks[i]
  {
    var n := |chunks| - 1;
    JoinLength(chunks);
    JoinLength(chunks[..n]);
    if i < n {
      SliceJoin(chunks[..n], i);
    }
  }

  // ---------------------------------------------------------------------------------------
  // Hash chains
  // ---------------------------------------------------------------------------------------

  function Prf(keccak: Keccak, pubSeed: Bytes, chain: nat, step: nat, j: Byte): Bytes
    requires chain < 65536 && step < 65536
  {
    keccak([3] + pubSeed + ToBytes2(chain) + ToBytes2(step) + [j])
  }

  function ChainStep(keccak: Keccak, x: Bytes, i: nat, pubSeed: Bytes, chain: nat): Bytes
    requires chain < 65536 && i < 65536
  {
    keccak([0] + Prf(keccak, pubSeed, chain, i, 0) + XorBytes(x, Prf(keccak, pubSeed, chain, i, 1)))
  }

  /** Advances a chain value from step `start` to step `end`. */
  function Advance(keccak: Keccak, x: Bytes, start: nat, end: nat, pubSeed: Bytes, chain: nat): Bytes
    requires chain < 65536 && end <= 65536
    decreases end - start
  {
    if start >= end then x
    else ChainStep(keccak, Advance(keccak, x, start, end - 1, pubSeed, chain), end - 1, pubSeed, chain)
  }

  method Chain(keccak: Keccak, x: Bytes, start: nat, end: nat, pubSeed: Bytes, chain: nat) returns (y: Bytes)
    requires chain < 65536 && end <= 65536
    ensures y == Advance(keccak, x, start, end, pubSeed, chain)
  {
    y := x;
    var i := start;
    while i < end
      invariant y == Advance(keccak, x, start, if i < end then i else end, pubSeed, chain)
    {
      y := ChainStep(keccak, y, i, pubSeed, chain);
      i := i + 1;
    }
  }

  /** Two stretches of a chain compose. */
  lemma {:induction false} AdvanceCompose(keccak: Keccak, x: Bytes, a: nat, b: nat, c: nat, pubSeed: Bytes, chain: nat)
    requires chain < 65536 && a <= b <= c <= 65536
    ensures Advance(keccak, Advance(keccak, x, a, b, pubSeed, chain), b, c, pubSeed, chain)
         == Advance(keccak, x, a, c, pubSeed, chain)
    decreases c - b
  {
    if b < c {
      AdvanceCompose(keccak, x, a, b, c - 1, pubSeed, chain);
    }
  }

  lemma {:induction false} AdvanceLength(keccak: Keccak, x: Bytes, a: nat, b: nat, pubSeed: Bytes, chain: nat)
    requires IsHash(keccak) && |x| == 32 && chain < 65536 && b <= 65536
    ensures |Advance(keccak, x, a, b, pubSeed, chain)| == 32
  {
  }

  // ---------------------------------------------------------------------------------------
  // Digits and checksum
  // ---------------------------------------------------------------------------------------

  function Nibble(digest: Bytes, i: nat): nat
    requires i < 2 * |digest|
  {
    if i % 2 == 0 then digest[i / 2] / 16 else digest[i / 2] % 16
  }

  function MessageDigits(digest: Bytes): seq<nat>
    requires |digest| >= 32
  {
    seq(LEN1, i requires 0 <= i < LEN1 => Nibble(digest, i))
  }

  function Checksum(digits: seq<nat>): int {
    if digits == [] then 0 else Checksum(digits[..|digits| - 1]) + (W - 1) - digits[|digits| - 1]
  }

  function Digits(digest: Bytes): (r: seq<nat>)
    requires |digest| >= 32
    ensures |r| == LEN
  {
    var csum := Checksum(MessageDigits(digest));
    MessageDigits(digest) + [csum / 256 % 16, csum / 16 % 16, csum % 16]
  }

  method ToDigits(digest: Bytes) returns (digits: seq<nat>)
    requires |digest| >= 32
    ensures digits == Digits(digest)
  {
    digits := [];
    var csum := 0;
    for i := 0 to LEN1
      invariant digits == MessageDigits(digest)[..i]
      invariant csum == Checksum(digits)
    {
      var d := if i % 2 == 0 then digest[i / 2] / 16 % 16 else digest[i / 2] % 16;
      digits := digits + [d];
      csum := csum + (W - 1) - d;
    }
    assert digits == MessageDigits(digest);
    digits := digits + [csum / 256 % 16, csum / 16 % 16, csum % 16];
  }

  lemma {:induction false} ChecksumBound(digits: seq<nat>)
    requires forall i :: 0 <= i < |digits| ==> digits[i] < 16
    ensures 0 <= Checksum(digits) <= 15 * |digits|
  {
    if digits != [] {
      ChecksumBound(digits[..|digits| - 1]);
    }
  }

  /** All 67 digits are below 16, and the last three represent the checksum, at most 960, exactly. */
  lemma {:induction false} DigitsExact(digest: Bytes)
    requires |digest| >= 32
    ensures forall i :: 0 <= i < LEN ==> Digits(digest)[i] < 16
    ensures var csum := Checksum(MessageDigits(digest));
            && 0 <= csum <= 960
            && csum == 256 * Digits(digest)[64] + 16 * Digits(digest)[65] + Digits(digest)[66]
  {
    var msg := MessageDigits(digest);
    forall i | 0 <= i < LEN1 ensures msg[i] < 16 {
      NibbleBound(digest, i);
    }
    ChecksumBound(msg);
    HexDigits(Checksum(msg));
    assert Digits(digest)[..LEN1] == msg;
  }

  lemma {:induction false} NibbleBound(digest: Bytes, i: nat)
    requires i < 2 * |digest|
    ensures Nibble(digest, i) < 16
  {
  }

  lemma {:induction false} HexDigits(v: nat)
    requires v < 4096
    ensures v == 256 * (v / 256 % 16) + 16 * (v / 16 % 16) + v % 16
  {
    assert v / 16 / 16 == v / 256 && v / 256 < 16;
    assert v == 16 * (v / 16) + v % 16 && v / 16 == 16 * (v / 16 / 16) + v / 16 % 16;
  }

  lemma {:induction false} ChecksumStrict(a: seq<nat>, b: seq<nat>)
    requires |a| == |b| && forall i :: 0 <= i < |a| ==> a[i] <= b[i]
    ensures Checksum(a) >= Checksum(b)
    ensures a != b ==> Checksum(a) > Checksum(b)
  {
    if a != [] {
      var n := |a| - 1;
      ChecksumStrict(a[..n], b[..n]);
      assert a == a[..n] + [a[n]] && b == b[..n] + [b[n]];
    }
  }

  lemma {:induction false} MessageDigitsInjective(a: Bytes, b: Bytes)
    requires |a| == |b| == 32 && MessageDigits(a) == MessageDigits(b)
    ensures a == b
  {
    forall k | 0 <= k < 32 ensures a[k] == b[k] {
      assert MessageDigits(a)[2 * k] == a[k] / 16 && MessageDigits(b)[2 * k] == b[k] / 16;
      assert MessageDigits(a)[2 * k + 1] == a[k] % 16 && MessageDigits(b)[2 * k + 1] == b[k] % 16;
    }
  }

  /**
   Digit vectors form an antichain: one lies below another at every position only if the digests
   are equal. So between any two different digests, some chain would have to run backward.
   */
  lemma {:induction false} DigitsAntichain(a: Bytes, b: Bytes)
    requires |a| == |b| == 32
    ensures (forall i :: 0 <= i < LEN ==> Digits(a)[i] <= Digits(b)[i]) <==> a == b
  {
    if forall i :: 0 <= i < LEN ==> Digits(a)[i] <= Digits(b)[i] {
      var x, y := MessageDigits(a), MessageDigits(b);
      forall i | 0 <= i < LEN1 ensures x[i] <= y[i] {
        assert Digits(a)[i] <= Digits(b)[i];
      }
      ChecksumStrict(x, y);
      DigitsExact(a);
      DigitsExact(b);
      assert Digits(a)[64] <= Digits(b)[64] && Digits(a)[65] <= Digits(b)[65] && Digits(a)[66] <= Digits(b)[66];
      MessageDigitsInjective(a, b);
    }
  }

  // Section 2.6 of RFC 8391: base-w digits, most significant first, reading a byte whenever the
  // bits of the previous one are used up.
  function BaseW(x: Bytes, input: nat, total: Byte, bits: nat, outLen: nat): seq<nat>
    requires bits == 0 || bits == 4
    requires 2 * input + outLen <= 2 * |x| + bits / 4
    decreases outLen
  {
    if outLen == 0 then []
    else if bits == 0 then [x[input] / 16 % 16] + BaseW(x, input + 1, x[input], 4, outLen - 1)
    else [total % 16] + BaseW(x, input, total, 0, outLen - 1)
  }

  lemma {:induction false} BaseWNibbles(x: Bytes, input: nat, n: nat)
    requires 2 * input + n <= 2 * |x|
    ensures |BaseW(x, input, 0, 0, n)| == n
    ensures forall i :: 0 <= i < n ==> BaseW(x, input, 0, 0, n)[i] == Nibble(x, 2 * input + i)
    decreases n
  {
    if n > 0 {
      assert Nibble(x, 2 * input) == x[input] / 16 % 16;
      if n == 1 {
        assert BaseW(x, input, 0, 0, 1) == [x[input] / 16 % 16] + [];
      } else {
        assert Nibble(x, 2 * input + 1) == x[input] % 16;
        BaseWNibbles(x, input + 1, n - 2);
        BaseWIgnoresTotal(x, input + 1, x[input], n - 2);
        var rest := BaseW(x, input + 1, 0, 0, n - 2);
        assert BaseW(x, input, 0, 0, n) == [x[input] / 16 % 16] + ([x[input] % 16] + rest);
        forall k | 0 <= k < n - 2 ensures rest[k] == Nibble(x, 2 * input + (k + 2)) {
          assert 2 * (input + 1) + k == 2 * input + (k + 2);
        }
      }
    }
  }

  lemma {:induction false} BaseWIgnoresTotal(x: Bytes, input: nat, total: Byte, n: nat)
    requires 2 * input + n <= 2 * |x|
    ensures BaseW(x, input, total, 0, n) == BaseW(x, input, 0, 0, n)
  {
  }

  /**
   The digits of section 3.1.5 of RFC 8391: the checksum is shifted left so that its 12 bits
   start at a byte boundary, written as two bytes, and split into base-w digits.
   */
  function RfcDigits(digest: Bytes): seq<nat>
    requires |digest| >= 32 && 0 <= Checksum(BaseW(digest, 0, 0, 0, LEN1)) < 4096
  {
    var msg := BaseW(digest, 0, 0, 0, LEN1);
    msg + BaseW(ToBytes2(Checksum(msg) * 16), 0, 0, 0, 3)
  }

  /** Three nibbles of a number, and of the number shifted left by one nibble. */
  lemma {:induction false} ThreeNibbles(v: nat, a: nat, b: nat, c: nat)
    requires a < 16 && b < 16 && c < 16 && v == 256 * a + 16 * b + c
    ensures v / 256 == a && v / 16 == 16 * a + b && v % 16 == c
    ensures v * 16 / 256 == 16 * a + b && v * 16 % 256 == 16 * c
  {
  }

  lemma {:induction false} ShiftedChecksum(csum: nat)
    requires csum < 4096
    ensures BaseW(ToBytes2(csum * 16), 0, 0, 0, 3) == [csum / 256 % 16, csum / 16 % 16, csum % 16]
  {
    var a, b, c := csum / 256, csum / 16 % 16, csum % 16;
    ThreeNibbles(csum, a, b, c);
    var tail := ToBytes2(csum * 16);
    assert tail == [16 * a + b, 16 * c];
    BaseWNibbles(tail, 0, 3);
    var d := BaseW(tail, 0, 0, 0, 3);
    assert d == [Nibble(tail, 0), Nibble(tail, 1), Nibble(tail, 2)];
  }

  lemma {:induction false} DigitsAreRfcDigits(digest: Bytes)
    requires |digest| >= 32
    ensures 0 <= Checksum(BaseW(digest, 0, 0, 0, LEN1)) < 4096
    ensures Digits(digest) == RfcDigits(digest)
  {
    BaseWNibbles(digest, 0, LEN1);
    assert BaseW(digest, 0, 0, 0, LEN1) == MessageDigits(digest);
    DigitsExact(digest);
    ShiftedChecksum(Checksum(MessageDigits(digest)));
  }

  // ---------------------------------------------------------------------------------------
  // Keys and signatures
  // ---------------------------------------------------------------------------------------

  function SecretKey(keccak: Keccak, secretSeed: Bytes): (sk: seq<Bytes>)
    ensures |sk| == LEN
  {
    seq(LEN, i requires 0 <= i < LEN => keccak([4] + secretSeed + ToBytes2(i)))
  }

  function PublicKey(keccak: Keccak, sk: seq<Bytes>, pubSeed: Bytes): (pk: seq<Bytes>)
    requires |sk| >= LEN
    ensures |pk| == LEN
  {
    seq(LEN, i requires 0 <= i < LEN => Advance(keccak, sk[i], 0, W - 1, pubSeed, i))
  }

  function Compress(keccak: Keccak, pubSeed: Bytes, pk: seq<Bytes>): Bytes {
    keccak([7] + pubSeed + Join(pk))
  }

  /** The 67 chain values that a signature reveals. */
  function SignatureChunks(keccak: Keccak, digits: seq<nat>, sk: seq<Bytes>, pubSeed: Bytes): (chunks: seq<Bytes>)
    requires |digits| == LEN && |sk| >= LEN && forall i :: 0 <= i < LEN ==> digits[i] <= 65536
    ensures |chunks| == LEN
  {
    seq(LEN, i requires 0 <= i < LEN => Advance(keccak, sk[i], 0, digits[i], pubSeed, i))
  }

  function Sign(keccak: Keccak, digest: Bytes, sk: seq<Bytes>, pubSeed: Bytes): Bytes
    requires |digest| >= 32 && |sk| >= LEN
  {
    DigitsExact(digest);
    Join(SignatureChunks(keccak, Digits(digest), sk, pubSeed))
  }

  /** The chain ends a verifier reaches from the signature's chunks. */
  function RecoveredKey(keccak: Keccak, digits: seq<nat>, sig: Bytes, pubSeed: Bytes): (pk: seq<Bytes>)
    requires |digits| == LEN
    ensures |pk| == LEN
  {
    seq(LEN, i requires 0 <= i < LEN =>
      Advance(keccak, Slice(sig, 32 * i, 32 * (i + 1)), digits[i], W - 1, pubSeed, i))
  }

  predicate Verify(keccak: Keccak, digest: Bytes, sig: Bytes, pubSeed: Bytes, pkHash: Bytes)
    requires |digest| >= 32
  {
    Compress(keccak, pubSeed, RecoveredKey(keccak, Digits(digest), sig, pubSeed)) == pkHash
  }

  /** Verification recovers the public key from a signature, chain by chain. */
  lemma {:induction false} RecoversPublicKey(keccak: Keccak, digest: Bytes, sk: seq<Bytes>, pubSeed: Bytes)
    requires IsHash(keccak) && |digest| >= 32 && |sk| == LEN && forall i :: 0 <= i < LEN ==> |sk[i]| == 32
    ensures RecoveredKey(keccak, Digits(digest), Sign(keccak, digest, sk, pubSeed), pubSeed) == PublicKey(keccak, sk, pubSeed)
    ensures |Sign(keccak, digest, sk, pubSeed)| == 2144
  {
    DigitsExact(digest);
    var digits := Digits(digest);
    var chunks := SignatureChunks(keccak, digits, sk, pubSeed);
    forall i | 0 <= i < LEN ensures |chunks[i]| == 32 {
      AdvanceLength(keccak, sk[i], 0, digits[i], pubSeed, i);
    }
    JoinLength(chunks);
    var sig := Join(chunks);
    forall i | 0 <= i < LEN
      ensures Advance(keccak, Slice(sig, 32 * i, 32 * (i + 1)), digits[i], W - 1, pubSeed, i)
           == Advance(keccak, sk[i], 0, W - 1, pubSeed, i)
    {
      SliceJoin(chunks, i);
      AdvanceCompose(keccak, sk[i], 0, digits[i], W - 1, pubSeed, i);
    }
  }

  lemma {:induction false} JoinInjective(a: seq<Bytes>, b: seq<Bytes>)
    requires |a| == |b| && Join(a) == Join(b)
    requires forall i :: 0 <= i < |a| ==> |a[i]| == 32 && |b[i]| == 32
    ensures a == b
  {
    forall i | 0 <= i < |a| ensures a[i] == b[i] {
      SliceJoin(a, i);
      SliceJoin(b, i);
    }
  }

  /** Verification reads the first 2144 bytes of a signature and ignores what follows. */
  lemma {:induction false} TailIgnored(keccak: Keccak, digest: Bytes, sig: Bytes, pubSeed: Bytes, pkHash: Bytes)
    requires |digest| >= 32 && |sig| >= 2144
    ensures RecoveredKey(keccak, Digits(digest), sig, pubSeed) == RecoveredKey(keccak, Digits(digest), sig[..2144], pubSeed)
    ensures Verify(keccak, digest, sig, pubSeed, pkHash) <==> Verify(keccak, digest, sig[..2144], pubSeed, pkHash)
  {
    forall i | 0 <= i < LEN ensures Slice(sig, 32 * i, 32 * (i + 1)) == Slice(sig[..2144], 32 * i, 32 * (i + 1)) {
      assert 32 * (i + 1) <= 2144;
    }
    assert RecoveredKey(keccak, Digits(digest), sig, pubSeed) == RecoveredKey(keccak, Digits(digest), sig[..2144], pubSeed);
  }

  /** The compression does not collide on just these two keys. */
  ghost predicate NoCollision(keccak: Keccak, pubSeed: Bytes, a: seq<Bytes>, b: seq<Bytes>) {
    keccak([7] + pubSeed + Join(a)) == keccak([7] + pubSeed + Join(b)) ==> [7] + pubSeed + Join(a) == [7] + pubSeed + Join(b)
  }

  lemma {:induction false} SameAfter(head: Bytes, x: Bytes, y: Bytes)
    ensures head + x == head + y <==> x == y
  {
    if head + x == head + y {
      assert (head + x)[|head|..] == x && (head + y)[|head|..] == y;
    }
  }

  /**
   A signature of any length is accepted exactly when its chains, joined, are the public key's
   bytes. If it is long enough, this means that each chain ends in its part of the public key.
   */
  lemma {:induction false} AcceptedExactlyWhen(keccak: Keccak, digest: Bytes, sig: Bytes, pubSeed: Bytes, pk: seq<Bytes>)
    requires IsHash(keccak) && |digest| >= 32 && |pk| == LEN && forall i :: 0 <= i < LEN ==> |pk[i]| == 32
    requires NoCollision(keccak, pubSeed, RecoveredKey(keccak, Digits(digest), sig, pubSeed), pk)
    ensures var recovered := RecoveredKey(keccak, Digits(digest), sig, pubSeed);
            && (Verify(keccak, digest, sig, pubSeed, Compress(keccak, pubSeed, pk)) <==> Join(recovered) == Join(pk))
            && (|sig| >= 2144 ==> (Join(recovered) == Join(pk) <==> recovered == pk))
  {
    var recovered := RecoveredKey(keccak, Digits(digest), sig, pubSeed);
    SameAfter([7] + pubSeed, Join(recovered), Join(pk));
    if |sig| >= 2144 && Join(recovered) == Join(pk) {
      forall i | 0 <= i < LEN ensures |recovered[i]| == 32 {
        assert 32 * (i + 1) <= 2144;
        AdvanceLength(keccak, Slice(sig, 32 * i, 32 * (i + 1)), Digits(digest)[i], W - 1, pubSeed, i);
      }
      JoinInjective(recovered, pk);
    }
  }

  /** Every signature made with a generated key verifies under that key's hash. */
  lemma {:induction false} SignVerifies(keccak: Keccak, secretSeed: Bytes, pubSeed: Bytes, digest: Bytes)
    requires IsHash(keccak) && |digest| >= 32
    ensures var sk := SecretKey(keccak, secretSeed);
            var pkHash := Compress(keccak, pubSeed, PublicKey(keccak, sk, pubSeed));
            Verify(keccak, digest, Sign(keccak, digest, sk, pubSeed), pubSeed, pkHash)
  {
    var sk := SecretKey(keccak, secretSeed);
    forall i | 0 <= i < LEN ensures |sk[i]| == 32 {
      assert |keccak([4] + secretSeed + ToBytes2(i))| == 32;
    }
    RecoversPublicKey(keccak, digest, sk, pubSeed);
  }
}
