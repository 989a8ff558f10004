/**
 The 64-bit FNV-1a hash of rate limit keys (section 2 of draft-eastlake-fnv).
 */
module Fnv {

  const FNV_OFFSET: bv64 := 0xcbf29ce484222325
  /** One multiplication by the 64-bit FNV prime, wrapping at 2^64. The prime is odd, so
      multiplying by its inverse modulo 2^64 takes it back. */
  function TimesPrime(x: bv64): (product: bv64)
    ensures TimesInverse(product) == x
  {
    InverseUndoes(x);
    x * 0x00000100000001B3
  }

  function TimesInverse(x: bv64): bv64 {
    x * 0xce965057aff6957b
  }

  lemma InverseUndoes(x: bv64)
    ensures TimesInverse(x * 0x00000100000001B3) == x
  {
    assert TimesInverse(x * 0x00000100000001B3) == x * 0x00000100000001B3 * 0xce965057aff6957b;
  }

  function Step(hash: bv64, byte: bv8): bv64 {
    TimesPrime(hash ^ (byte as bv64))
  }

  /** The hash of `input` continued from `hash`. */
  function HashFrom(hash: bv64, input: seq<bv8>): bv64
    decreases |input|
  {
    if input == [] then hash else HashFrom(Step(hash, input[0]), input[1..])
  }

  function Hash(input: seq<bv8>): bv64 {
    HashFrom(FNV_OFFSET, input)
  }

  lemma HashFromNext(hash: bv64, input: seq<bv8>, i: nat)
    requires i < |input|
    ensures HashFrom(hash, input[i..]) == HashFrom(Step(hash, input[i]), input[i + 1..])
  {
    assert input[i..][1..] == input[i + 1..];
  }

  /** "foobar" */
  const FOOBAR: seq<bv8> := [0x66, 0x6f, 0x6f, 0x62, 0x61, 0x72]

  /** The published test vectors for "", "a" and "foobar". */
  lemma KnownAnswers()
    ensures Hash([]) == 0xcbf29ce484222325
    ensures Hash([0x61]) == 0xaf63dc4c8601ec8c
    ensures Hash(FOOBAR) == 0x85944171f73967e8
  {
    assert HashFrom(FNV_OFFSET, [0x61]) == Step(FNV_OFFSET, 0x61);
    var hash1 := Step(FNV_OFFSET, 0x66);
    var hash2 := Step(hash1, 0x6f);
    var hash3 := Step(hash2, 0x6f);
    var hash4 := Step(hash3, 0x62);
    var hash5 := Step(hash4, 0x61);
    assert FOOBAR[0..] == FOOBAR;
    HashFromNext(FNV_OFFSET, FOOBAR, 0);
    HashFromNext(hash1, FOOBAR, 1);
    HashFromNext(hash2, FOOBAR, 2);
    HashFromNext(hash3, FOOBAR, 3);
    HashFromNext(hash4, FOOBAR, 4);
    HashFromNext(hash5, FOOBAR, 5);
  }

  method Fnv1aHash(input: seq<bv8>) returns (hash: bv64)
    ensures hash == Hash(input)
  {
    hash := FNV_OFFSET;
    for i := 0 to |input|
      invariant HashFrom(hash, input[i..]) == Hash(input)
    {
      HashFromNext(hash, input, i);
      var mixed := hash ^ (input[i] as bv64);
      hash := TimesPrime(mixed);
    }
  }

  lemma XorInjective(a: bv64, b: bv64, w: bv64)
    ensures a ^ w == b ^ w <==> a == b
    ensures w ^ a == w ^ b <==> a == b
  {
  }

  lemma StepInjectiveInHash(a: bv64, b: bv64, byte: bv8)
    requires Step(a, byte) == Step(b, byte)
    ensures a == b
  {
    XorInjective(a, b, byte as bv64);
  }

  lemma StepInjectiveInByte(hash: bv64, x: bv8, y: bv8)
    requires Step(hash, x) == Step(hash, y)
    ensures x == y
  {
    XorInjective(x as bv64, y as bv64, hash);
  }

  /** Hashing the same bytes from two states keeps them equal or keeps them apart. */
  lemma {:induction false} HashFromInjective(a: bv64, b: bv64, suffix: seq<bv8>)
    ensures HashFrom(a, suffix) == HashFrom(b, suffix) <==> a == b
    decreases |suffix|
  {
    if suffix != [] {
      HashFromInjective(Step(a, suffix[0]), Step(b, suffix[0]), suffix[1..]);
      if Step(a, suffix[0]) == Step(b, suffix[0]) {
        StepInjectiveInHash(a, b, suffix[0]);
      }
    }
  }

  lemma {:induction false} HashFromConcat(hash: bv64, a: seq<bv8>, b: seq<bv8>)
    ensures HashFrom(hash, a + b) == HashFrom(HashFrom(hash, a), b)
    decreases |a|
  {
    if a == [] {
      assert a + b == b;
    } else {
      assert (a + b)[1..] == a[1..] + b;
      HashFromConcat(Step(hash, a[0]), a[1..], b);
    }
  }

  /** A common suffix neither creates nor removes a collision. */
  lemma SuffixPreservesCollisions(a: seq<bv8>, b: seq<bv8>, suffix: seq<bv8>)
    ensures Hash(a + suffix) == Hash(b + suffix) <==> Hash(a) == Hash(b)
  {
    HashFromConcat(FNV_OFFSET, a, suffix);
    HashFromConcat(FNV_OFFSET, b, suffix);
    HashFromInjective(Hash(a), Hash(b), suffix);
  }

  /** Inputs of equal length that differ in exactly one byte never collide. */
  lemma OneByteNeverCollides(input: seq<bv8>, i: nat, byte: bv8)
    requires i < |input| && input[i] != byte
    ensures Hash(input[i := byte]) != Hash(input)
  {
    var prefix, suffix := input[..i], input[i + 1..];
    var hash := Hash(prefix);
    assert input == prefix + ([input[i]] + suffix);
    assert input[i := byte] == prefix + ([byte] + suffix);
    HashFromConcat(FNV_OFFSET, prefix, [input[i]] + suffix);
    HashFromConcat(FNV_OFFSET, prefix, [byte] + suffix);
    assert ([input[i]] + suffix)[1..] == suffix && ([byte] + suffix)[1..] == suffix;
    if Step(hash, input[i]) == Step(hash, byte) {
      StepInjectiveInByte(hash, input[i], byte);
    }
    HashFromInjective(Step(hash, input[i]), Step(hash, byte), suffix);
  }
}
