/** The codes that the generator produces are those of section 3.3.2.3 of IS-GPS-200: both register
    sequences repeat after 1023 chips, and delaying G2 by the chips of the source's table is the
    same as adding two of its ten stages, the phase selection that the standard assigns to each
    satellite.

    The proofs climb by powers of two.  Over two elements the square of a sum is the sum of the
    squares, so a relation between a sequence and its shifts gives one for twice the shifts, and
    the recurrence brings it back to ten consecutive values. */
module GpsPhase {
  import opened GpsCaCode

  // ---------------------------------------------------------------- the recurrences

  predicate IsG1(f: nat -> bool, n: nat) {
    f(n + 10) == Xor(f(n + 7), f(n))
  }

  ghost predicate ObeysG1(f: nat -> bool) {
    forall n: nat :: IsG1(f, n)
  }

  predicate IsG2(f: nat -> bool, n: nat) {
    f(n + 10) == Xor(Xor(Xor(Xor(Xor(f(n + 8), f(n + 7)), f(n + 4)), f(n + 2)), f(n + 1)), f(n))
  }

  ghost predicate ObeysG2(f: nat -> bool) {
    forall n: nat :: IsG2(f, n)
  }

  // ---------------------------------------------------------------- shifts by powers of two

  lemma {:induction false} G1Jump16(f: nat -> bool, n: nat)
    requires ObeysG1(f)
    ensures f(n + 16) == Xor(Xor(Xor(f(n), f(n + 3)), f(n + 6)), f(n + 7))
  {
    assert IsG1(f, n) && IsG1(f, n + 1) && IsG1(f, n + 2) && IsG1(f, n + 3) && IsG1(f, n + 4) && IsG1(f, n + 5);
    assert IsG1(f, n + 6);
  }

  lemma {:induction false} G1Jump32(f: nat -> bool, n: nat)
    requires ObeysG1(f)
    ensures f(n + 32) == Xor(Xor(Xor(Xor(Xor(Xor(f(n), f(n + 1)), f(n + 2)), f(n + 4)), f(n + 6)), f(n + 8)), f(n + 9))
  {
    G1Jump16(f, n);
    G1Jump16(f, n + 3);
    G1Jump16(f, n + 6);
    G1Jump16(f, n + 7);
    G1Jump16(f, n + 16);
    assert IsG1(f, n) && IsG1(f, n + 1) && IsG1(f, n + 2) && IsG1(f, n + 3) && IsG1(f, n + 4);
  }

  lemma {:induction false} G1Jump64(f: nat -> bool, n: nat)
    requires ObeysG1(f)
    ensures f(n + 64) == Xor(Xor(Xor(Xor(Xor(f(n + 2), f(n + 3)), f(n + 4)), f(n + 5)), f(n + 6)), f(n + 7))
  {
    G1Jump32(f, n);
    G1Jump32(f, n + 1);
    G1Jump32(f, n + 2);
    G1Jump32(f, n + 4);
    G1Jump32(f, n + 6);
    G1Jump32(f, n + 8);
    G1Jump32(f, n + 9);
    G1Jump32(f, n + 32);
    assert IsG1(f, n) && IsG1(f, n + 1) && IsG1(f, n + 2) && IsG1(f, n + 3) && IsG1(f, n + 4) && IsG1(f, n + 5);
    assert IsG1(f, n + 6) && IsG1(f, n + 7) && IsG1(f, n + 8);
  }

  lemma {:induction false} G1Jump128(f: nat -> bool, n: nat)
    requires ObeysG1(f)
    ensures f(n + 128) == Xor(Xor(Xor(Xor(Xor(f(n), f(n + 1)), f(n + 2)), f(n + 6)), f(n + 7)), f(n + 9))
  {
    G1Jump64(f, n + 2);
    G1Jump64(f, n + 3);
    G1Jump64(f, n + 4);
    G1Jump64(f, n + 5);
    G1Jump64(f, n + 6);
    G1Jump64(f, n + 7);
    G1Jump64(f, n + 64);
    assert IsG1(f, n) && IsG1(f, n + 1) && IsG1(f, n + 2) && IsG1(f, n + 3) && IsG1(f, n + 4);
  }

  lemma {:induction false} G1Jump256(f: nat -> bool, n: nat)
    requires ObeysG1(f)
    ensures f(n + 256) == Xor(Xor(Xor(f(n), f(n + 1)), f(n + 2)), f(n + 5))
  {
    G1Jump128(f, n);
    G1Jump128(f, n + 1);
    G1Jump128(f, n + 2);
    G1Jump128(f, n + 6);
    G1Jump128(f, n + 7);
    G1Jump128(f, n + 9);
    G1Jump128(f, n + 128);
    assert IsG1(f, n) && IsG1(f, n + 1) && IsG1(f, n + 2) && IsG1(f, n + 3) && IsG1(f, n + 4) && IsG1(f, n + 5);
    assert IsG1(f, n + 6) && IsG1(f, n + 7) && IsG1(f, n + 8);
  }

  lemma {:induction false} G1Jump512(f: nat -> bool, n: nat)
    requires ObeysG1(f)
    ensures f(n + 512) == Xor(Xor(f(n + 2), f(n + 4)), f(n + 7))
  {
    G1Jump256(f, n);
    G1Jump256(f, n + 1);
    G1Jump256(f, n + 2);
    G1Jump256(f, n + 5);
    G1Jump256(f, n + 256);
    assert IsG1(f, n);
  }

  lemma {:induction false} G1Jump1024(f: nat -> bool, n: nat)
    requires ObeysG1(f)
    ensures f(n + 1024) == f(n + 1)
  {
    G1Jump512(f, n + 2);
    G1Jump512(f, n + 4);
    G1Jump512(f, n + 7);
    G1Jump512(f, n + 512);
    assert IsG1(f, n) && IsG1(f, n + 1) && IsG1(f, n + 2) && IsG1(f, n + 3) && IsG1(f, n + 4);
  }

  lemma {:induction false} G2Jump16(f: nat -> bool, n: nat)
    requires ObeysG2(f)
    ensures f(n + 16) == Xor(Xor(Xor(Xor(Xor(f(n), f(n + 1)), f(n + 6)), f(n + 7)), f(n + 8)), f(n + 9))
  {
    assert IsG2(f, n) && IsG2(f, n + 1) && IsG2(f, n + 2) && IsG2(f, n + 3) && IsG2(f, n + 4) && IsG2(f, n + 5);
    assert IsG2(f, n + 6);
  }

  lemma {:induction false} G2Jump24(f: nat -> bool, n: nat)
    requires ObeysG2(f)
    ensures f(n + 24) == Xor(Xor(Xor(Xor(f(n), f(n + 2)), f(n + 3)), f(n + 5)), f(n + 6))
  {
    G2Jump16(f, n + 8);
    assert IsG2(f, n) && IsG2(f, n + 1) && IsG2(f, n + 2) && IsG2(f, n + 3) && IsG2(f, n + 4) && IsG2(f, n + 5);
    assert IsG2(f, n + 6) && IsG2(f, n + 7);
  }

  lemma {:induction false} G2Jump32(f: nat -> bool, n: nat)
    requires ObeysG2(f)
    ensures f(n + 32) == Xor(Xor(Xor(f(n), f(n + 2)), f(n + 3)), f(n + 5))
  {
    G2Jump24(f, n + 8);
    assert IsG2(f, n) && IsG2(f, n + 1) && IsG2(f, n + 2) && IsG2(f, n + 3) && IsG2(f, n + 4);
  }

  lemma {:induction false} G2Jump64(f: nat -> bool, n: nat)
    requires ObeysG2(f)
    ensures f(n + 64) == Xor(Xor(Xor(Xor(f(n + 1), f(n + 2)), f(n + 6)), f(n + 7)), f(n + 8))
  {
    G2Jump32(f, n);
    G2Jump32(f, n + 2);
    G2Jump32(f, n + 3);
    G2Jump32(f, n + 5);
    G2Jump32(f, n + 32);
    assert IsG2(f, n);
  }

  lemma {:induction false} G2Jump128(f: nat -> bool, n: nat)
    requires ObeysG2(f)
    ensures f(n + 128) == Xor(Xor(Xor(f(n), f(n + 3)), f(n + 7)), f(n + 8))
  {
    G2Jump64(f, n + 1);
    G2Jump64(f, n + 2);
    G2Jump64(f, n + 6);
    G2Jump64(f, n + 7);
    G2Jump64(f, n + 8);
    G2Jump64(f, n + 64);
    assert IsG2(f, n) && IsG2(f, n + 1) && IsG2(f, n + 2) && IsG2(f, n + 3) && IsG2(f, n + 4) && IsG2(f, n + 5);
    assert IsG2(f, n + 6);
  }

  lemma {:induction false} G2Jump256(f: nat -> bool, n: nat)
    requires ObeysG2(f)
    ensures f(n + 256) == Xor(Xor(Xor(Xor(f(n), f(n + 1)), f(n + 2)), f(n + 4)), f(n + 9))
  {
    G2Jump128(f, n);
    G2Jump128(f, n + 3);
    G2Jump128(f, n + 7);
    G2Jump128(f, n + 8);
    G2Jump128(f, n + 128);
    assert IsG2(f, n) && IsG2(f, n + 1) && IsG2(f, n + 2) && IsG2(f, n + 3) && IsG2(f, n + 4) && IsG2(f, n + 5);
    assert IsG2(f, n + 6);
  }

  lemma {:induction false} G2Jump512(f: nat -> bool, n: nat)
    requires ObeysG2(f)
    ensures f(n + 512) == Xor(f(n + 5), f(n + 7))
  {
    G2Jump256(f, n);
    G2Jump256(f, n + 1);
    G2Jump256(f, n + 2);
    G2Jump256(f, n + 4);
    G2Jump256(f, n + 9);
    G2Jump256(f, n + 256);
    assert IsG2(f, n) && IsG2(f, n + 1) && IsG2(f, n + 2) && IsG2(f, n + 3) && IsG2(f, n + 4) && IsG2(f, n + 5);
    assert IsG2(f, n + 6) && IsG2(f, n + 7) && IsG2(f, n + 8);
  }

  lemma {:induction false} G2Jump1024(f: nat -> bool, n: nat)
    requires ObeysG2(f)
    ensures f(n + 1024) == f(n + 1)
  {
    G2Jump512(f, n + 5);
    G2Jump512(f, n + 7);
    G2Jump512(f, n + 512);
    assert IsG2(f, n) && IsG2(f, n + 1) && IsG2(f, n + 2) && IsG2(f, n + 3) && IsG2(f, n + 4);
  }

  // ---------------------------------------------------------------- sums of two shifts

  lemma {:induction false} G2Jump160(f: nat -> bool, n: nat)
    requires ObeysG2(f)
    ensures f(n + 160) == Xor(f(n), f(n + 5))
  {
    G2Jump128(f, n + 32);
    G2Jump32(f, n);
    G2Jump32(f, n + 3);
    G2Jump32(f, n + 7);
    G2Jump32(f, n + 8);
    assert IsG2(f, n) && IsG2(f, n + 1) && IsG2(f, n + 2) && IsG2(f, n + 3);
  }

  lemma {:induction false} G2Jump548(f: nat -> bool, n: nat)
    requires ObeysG2(f)
    ensures f(n + 548) == Xor(f(n), f(n + 3))
  {
    G2Jump512(f, n + 36);
    G2Jump32(f, n + 9);
    G2Jump32(f, n + 11);
    assert IsG2(f, n) && IsG2(f, n + 1) && IsG2(f, n + 2) && IsG2(f, n + 3) && IsG2(f, n + 4) && IsG2(f, n + 5);
    assert IsG2(f, n + 6);
  }

  lemma {:induction false} G2Jump768(f: nat -> bool, n: nat)
    requires ObeysG2(f)
    ensures f(n + 768) == Xor(f(n + 3), f(n + 4))
  {
    G2Jump512(f, n + 256);
    G2Jump256(f, n + 5);
    G2Jump256(f, n + 7);
    assert IsG2(f, n) && IsG2(f, n + 1) && IsG2(f, n + 2) && IsG2(f, n + 3) && IsG2(f, n + 4) && IsG2(f, n + 5);
    assert IsG2(f, n + 6);
  }

  lemma {:induction false} G2Jump896(f: nat -> bool, n: nat)
    requires ObeysG2(f)
    ensures f(n + 896) == Xor(f(n + 14), f(n + 21))
  {
    G2Jump768(f, n + 128);
    G2Jump128(f, n + 3);
    G2Jump128(f, n + 4);
    assert IsG2(f, n) && IsG2(f, n + 1) && IsG2(f, n + 2) && IsG2(f, n + 3) && IsG2(f, n + 4) && IsG2(f, n + 5);
    assert IsG2(f, n + 6) && IsG2(f, n + 7) && IsG2(f, n + 8) && IsG2(f, n + 9) && IsG2(f, n + 10) && IsG2(f, n + 11);
  }

  // ---------------------------------------------------------------- the period

  lemma {:induction false} G1Repeats(f: nat -> bool, n: nat)
    requires ObeysG1(f)
    ensures f(n + 1023) == f(n)
  {
    if n > 0 {
      G1Jump1024(f, n - 1);
    } else {
      assert IsG1(f, 0) && IsG1(f, 1023);
      G1Jump1024(f, 9);
      G1Jump1024(f, 6);
    }
  }

  lemma {:induction false} G2Repeats(f: nat -> bool, n: nat)
    requires ObeysG2(f)
    ensures f(n + 1023) == f(n)
  {
    if n > 0 {
      G2Jump1024(f, n - 1);
    } else {
      assert IsG2(f, 0) && IsG2(f, 1023);
      G2Jump1024(f, 9);
      G2Jump1024(f, 7);
      G2Jump1024(f, 6);
      G2Jump1024(f, 3);
      G2Jump1024(f, 1);
      G2Jump1024(f, 0);
    }
  }

  lemma RegistersObey()
    ensures ObeysG1(G1) && ObeysG2(G2)
  {
    forall n: nat ensures IsG1(G1, n) && IsG2(G2, n) {
      assert G1(n + 10) == Xor(G1(n + 7), G1(n));
    }
  }

  /** Both registers repeat after 1023 chips, from the first chip on. */
  lemma {:induction false} Period(n: nat)
    ensures G1(n + CODE_LENGTH) == G1(n) && G2(n + CODE_LENGTH) == G2(n)
  {
    RegistersObey();
    G1Repeats(G1, n);
    G2Repeats(G2, n);
  }

  lemma {:induction false} Reduced(f: nat -> bool, n: nat)
    requires ObeysG2(f)
    ensures f(n % CODE_LENGTH) == f(n)
  {
    if n >= CODE_LENGTH {
      var m := n - CODE_LENGTH;
      Reduced(f, m);
      G2Repeats(f, m);
      assert n % CODE_LENGTH == m % CODE_LENGTH;
    }
  }

  // ---------------------------------------------------------------- two stages are one delay

  lemma {:induction false} Pair1(f: nat -> bool, n: nat)
    requires ObeysG2(f)
    ensures f(n + 765) == Xor(f(n), f(n + 1))
  {
    G2Repeats(f, n + 765);
    G2Jump768(f, n + 1020);
    G2Repeats(f, n);
    G2Repeats(f, n + 1);
  }

  lemma {:induction false} Pair2(f: nat -> bool, n: nat)
    requires ObeysG2(f)
    ensures f(n + 507) == Xor(f(n), f(n + 2))
  {
    G2Repeats(f, n + 507);
    Pair1(f, n + 765);
    Pair1(f, n);
    Pair1(f, n + 1);
  }

  lemma {:induction false} Pair4(f: nat -> bool, n: nat)
    requires ObeysG2(f)
    ensures f(n + 1014) == Xor(f(n), f(n + 4))
  {
    Pair2(f, n + 507);
    Pair2(f, n);
    Pair2(f, n + 2);
  }

  lemma {:induction false} Pair8(f: nat -> bool, n: nat)
    requires ObeysG2(f)
    ensures f(n + 1005) == Xor(f(n), f(n + 8))
  {
    G2Repeats(f, n + 1005);
    Pair4(f, n + 1014);
    Pair4(f, n);
    Pair4(f, n + 4);
  }

  lemma {:induction false} Pair7(f: nat -> bool, n: nat)
    requires ObeysG2(f)
    ensures f(n + 882) == Xor(f(n), f(n + 7))
  {
    G2Repeats(f, n + 882);
    G2Jump896(f, n + 1009);
    G2Repeats(f, n);
    G2Repeats(f, n + 7);
  }

  /** The shift that adds a chip to the one `gap` chips later. */
  function ShiftOf(gap: nat): nat {
    match gap
    case 1 => 765
    case 2 => 507
    case 3 => 548
    case 4 => 1014
    case 5 => 160
    case 7 => 882
    case 8 => 1005
    case _ => 0
  }

  lemma {:induction false} PairShift(f: nat -> bool, n: nat, gap: nat)
    requires ObeysG2(f) && ShiftOf(gap) != 0
    ensures f(n + ShiftOf(gap)) == Xor(f(n), f(n + gap))
  {
    match gap
    case 1 => Pair1(f, n);
    case 2 => Pair2(f, n);
    case 3 => G2Jump548(f, n);
    case 4 => Pair4(f, n);
    case 5 => G2Jump160(f, n);
    case 7 => Pair7(f, n);
    case 8 => Pair8(f, n);
  }

  /** Two stages are one delay. */
  lemma {:induction false} StagesDelay(f: nat -> bool, n: nat, s1: nat, s2: nat, delay: int)
    requires ObeysG2(f) && 1 <= s1 < s2 <= 10 && ShiftOf(s2 - s1) != 0
    requires delay == 1013 + s2 - ShiftOf(s2 - s1) && 0 < delay < CODE_LENGTH
    ensures f((n + CODE_LENGTH - delay) % CODE_LENGTH) == Xor(f(n + 10 - s1), f(n + 10 - s2))
  {
    PairShift(f, n + 10 - s2, s2 - s1);
    Reduced(f, n + CODE_LENGTH - delay);
  }

  // ---------------------------------------------------------------- the assigned phases

  /** The two stages of G2 that the standard adds for each satellite. */
  function Stages(prn: int): (nat, nat)
    requires 1 <= prn <= 32
  {
    match prn
    case 1 => (2, 6)
    case 2 => (3, 7)
    case 3 => (4, 8)
    case 4 => (5, 9)
    case 5 => (1, 9)
    case 6 => (2, 10)
    case 7 => (1, 8)
    case 8 => (2, 9)
    case 9 => (3, 10)
    case 10 => (2, 3)
    case 11 => (3, 4)
    case 12 => (5, 6)
    case 13 => (6, 7)
    case 14 => (7, 8)
    case 15 => (8, 9)
    case 16 => (9, 10)
    case 17 => (1, 4)
    case 18 => (2, 5)
    case 19 => (3, 6)
    case 20 => (4, 7)
    case 21 => (5, 8)
    case 22 => (6, 9)
    case 23 => (1, 3)
    case 24 => (4, 6)
    case 25 => (5, 7)
    case 26 => (6, 8)
    case 27 => (7, 9)
    case 28 => (8, 10)
    case 29 => (1, 6)
    case 30 => (2, 7)
    case 31 => (3, 8)
    case _ => (4, 9)
  }

  /** Delay and stages that belong together. */
  predicate Matches(delay: int, s1: nat, s2: nat) {
    && 1 <= s1 < s2 <= 10 && ShiftOf(s2 - s1) != 0
    && delay == 1013 + s2 - ShiftOf(s2 - s1) && 0 < delay < CODE_LENGTH
  }

  lemma DelaysTo11(prn: int, stray: int)
    requires 1 <= prn <= 11
    ensures Matches(DelayOf(prn, stray), Stages(prn).0, Stages(prn).1)
  {
    match prn
    case 1 =>
    case 2 =>
    case 3 =>
    case 4 =>
    case 5 =>
    case 6 =>
    case 7 =>
    case 8 =>
    case 9 =>
    case 10 =>
    case _ =>
  }

  lemma DelaysTo22(prn: int, stray: int)
    requires 12 <= prn <= 22
    ensures Matches(DelayOf(prn, stray), Stages(prn).0, Stages(prn).1)
  {
    match prn
    case 12 =>
    case 13 =>
    case 14 =>
    case 15 =>
    case 16 =>
    case 17 =>
    case 18 =>
    case 19 =>
    case 20 =>
    case 21 =>
    case _ =>
  }

  lemma DelaysTo32(prn: int, stray: int)
    requires 23 <= prn <= 32
    ensures Matches(DelayOf(prn, stray), Stages(prn).0, Stages(prn).1)
  {
    match prn
    case 23 =>
    case 24 =>
    case 25 =>
    case 26 =>
    case 27 =>
    case 28 =>
    case 29 =>
    case 30 =>
    case 31 =>
    case _ =>
  }

  lemma DelayMatchesStages(prn: int, stray: int)
    requires 1 <= prn <= 32
    ensures Matches(DelayOf(prn, stray), Stages(prn).0, Stages(prn).1)
  {
    if prn <= 11 {
      DelaysTo11(prn, stray);
    } else if prn <= 22 {
      DelaysTo22(prn, stray);
    } else {
      DelaysTo32(prn, stray);
    }
  }

  /** G2 delayed as the source delays it, at chip `n`, is the sum of the stages `s1` and `s2`. */
  predicate Selects(delay: int, s1: nat, s2: nat, n: nat)
    requires 0 < delay < CODE_LENGTH && 1 <= s1 < s2 <= 10
  {
    G2((n + CODE_LENGTH - delay) % CODE_LENGTH) == Xor(G2(n + 10 - s1), G2(n + 10 - s2))
  }

  lemma {:induction false} MatchingSelects(delay: int, s1: nat, s2: nat, n: nat)
    requires Matches(delay, s1, s2)
    ensures Selects(delay, s1, s2, n)
  {
    RegistersObey();
    StagesDelay(G2, n, s1, s2, delay);
  }

  /** Phase selection: for each GPS satellite and every chip, G2 delayed as the source delays it is the
      sum of the two stages that the standard selects. */
  lemma {:induction false} PhaseSelection(prn: int, stray: int, n: nat)
    requires 1 <= prn <= 32
    ensures var delay, s1, s2 := DelayOf(prn, stray), Stages(prn).0, Stages(prn).1;
            0 < delay < CODE_LENGTH && 1 <= s1 < s2 <= 10 && Selects(delay, s1, s2, n)
  {
    DelayMatchesStages(prn, stray);
    MatchingSelects(DelayOf(prn, stray), Stages(prn).0, Stages(prn).1, n);
  }

  /** Chip `k` of the code with the given delay is the sum of G1 and two stages of G2. */
  predicate AddsStages(delay: int, s1: nat, s2: nat, k: nat)
    requires 0 < delay < CODE_LENGTH && 1 <= s1 < s2 <= 10
  {
    Chip(delay, k) == if Xor(G1(k), Xor(G2(k + 10 - s1), G2(k + 10 - s2))) then 1 else -1
  }

  lemma {:induction false} ChipOfStages(delay: int, s1: nat, s2: nat, k: nat)
    requires 0 < delay < CODE_LENGTH && 1 <= s1 < s2 <= 10 && k < CODE_LENGTH && Selects(delay, s1, s2, k)
    ensures AddsStages(delay, s1, s2, k)
  {
  }

  /** So every chip of the code is the sum of G1 and the two selected stages of G2. */
  lemma {:induction false} StandardCode(prn: int, stray: int, k: nat)
    requires 1 <= prn <= 32 && k < CODE_LENGTH
    ensures var delay, s1, s2 := DelayOf(prn, stray), Stages(prn).0, Stages(prn).1;
            0 < delay < CODE_LENGTH && 1 <= s1 < s2 <= 10 && AddsStages(delay, s1, s2, k)
  {
    PhaseSelection(prn, stray, k);
    ChipOfStages(DelayOf(prn, stray), Stages(prn).0, Stages(prn).1, k);
  }

  /** The delays of the SBAS satellites. */
  lemma SbasDelays(prn: int, stray: int)
    requires 120 <= prn <= 138
    ensures DelayOf(prn, stray) ==
            match prn
            case 120 => 145
            case 121 => 175
            case 122 => 52
            case 123 => 21
            case 124 => 237
            case 125 => 235
            case 126 => 886
            case 127 => 657
            case 128 => 634
            case 129 => 762
            case 130 => 355
            case 131 => 1012
            case 132 => 176
            case 133 => 603
            case 134 => 130
            case 135 => 359
            case 136 => 595
            case 137 => 68
            case _ => 386
  {
  }
}
