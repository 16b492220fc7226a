/** Where the constants of SHA-256 come from: the first 32 bits of the fractional parts of square and cube roots of the
    first primes (sections 4.2.2 and 5.3.3 of FIPS 180-4). */
module Sha256Constants {
  import opened Machine
  import opened Sha256

  // The first 64 primes.

  const PRIMES_0: seq<nat> := [
    2, 3, 5, 7, 11, 13, 17, 19, 23, 29, 31, 37, 41, 43, 47, 53]

  const PRIMES_1: seq<nat> := [
    59, 61, 67, 71, 73, 79, 83, 89, 97, 101, 103, 107, 109, 113, 127, 131]

  const PRIMES_2: seq<nat> := [
    137, 139, 149, 151, 157, 163, 167, 173, 179, 181, 191, 193, 197, 199, 211, 223]

  const PRIMES_3: seq<nat> := [
    227, 229, 233, 239, 241, 251, 257, 263, 269, 271, 277, 281, 283, 293, 307, 311]

  const PRIMES: seq<nat> := (PRIMES_0 + PRIMES_1) + (PRIMES_2 + PRIMES_3)

  /** `whole + bits / 2^32` is the square root of `p`, cut after 32 bits. */
  predicate IsSquareRoot(p: nat, whole: nat, bits: nat) {
    var x := whole * TWO_TO_THE_32 + bits;
    x * x <= p * TWO_TO_THE_64 < (x + 1) * (x + 1)
  }

  /** The same for the cube root. */
  predicate IsCubeRoot(p: nat, whole: nat, bits: nat) {
    var x := whole * TWO_TO_THE_32 + bits;
    x * x * x <= p * TWO_TO_THE_64 * TWO_TO_THE_32 < (x + 1) * (x + 1) * (x + 1)
  }

  /** The whole part of the cube root of a prime up to 311. */
  function WholeCubeRoot(p: nat): nat {
    if p < 8 then 1 else if p < 27 then 2 else if p < 64 then 3 else if p < 125 then 4 else if p < 216 then 5 else 6
  }

  lemma Roots0()
    ensures forall i :: 0 <= i < 16 ==> IsCubeRoot(PRIMES_0[i], WholeCubeRoot(PRIMES_0[i]), K_0[i])
  {
  }

  lemma Roots1()
    ensures forall i :: 0 <= i < 16 ==> IsCubeRoot(PRIMES_1[i], WholeCubeRoot(PRIMES_1[i]), K_1[i])
  {
  }

  lemma Roots2()
    ensures forall i :: 0 <= i < 16 ==> IsCubeRoot(PRIMES_2[i], WholeCubeRoot(PRIMES_2[i]), K_2[i])
  {
  }

  lemma Roots3()
    ensures forall i :: 0 <= i < 16 ==> IsCubeRoot(PRIMES_3[i], WholeCubeRoot(PRIMES_3[i]), K_3[i])
  {
  }

  /** Round constant `i` belongs to prime `i`. */
  lemma KIsCubeRoots(i: nat)
    requires i < 64
    ensures IsCubeRoot(PRIMES[i], WholeCubeRoot(PRIMES[i]), K[i])
  {
    if i < 16 {
      Roots0();
      assert PRIMES[i] == PRIMES_0[i] && K[i] == K_0[i];
    } else if i < 32 {
      Roots1();
      assert PRIMES[i] == PRIMES_1[i - 16] && K[i] == K_1[i - 16];
    } else if i < 48 {
      Roots2();
      assert PRIMES[i] == PRIMES_2[i - 32] && K[i] == K_2[i - 32];
    } else {
      Roots3();
      assert PRIMES[i] == PRIMES_3[i - 48] && K[i] == K_3[i - 48];
    }
  }

  /** Each word of the initial state belongs to one of the first eight primes. */
  lemma InitialIsSquareRoots()
    ensures IsSquareRoot(2, 1, INITIAL.a) && IsSquareRoot(3, 1, INITIAL.b) && IsSquareRoot(5, 2, INITIAL.c)
    ensures IsSquareRoot(7, 2, INITIAL.d) && IsSquareRoot(11, 3, INITIAL.e) && IsSquareRoot(13, 3, INITIAL.f)
    ensures IsSquareRoot(17, 4, INITIAL.g) && IsSquareRoot(19, 4, INITIAL.h)
  {
  }
}
