/** The GPS L1 C/A code generator (src/algorithms/libs/gps_sdr_signal_replica.cc): two ten-stage
    shift registers, as section 3.3.2.3 of IS-GPS-200 defines them, and a delayed sum. */
module GpsCaCode {
  import opened Modular

  const CODE_LENGTH := 1023
  const UINT32 := 0x1_0000_0000

  /** A G2 delay in chips. */
  type Delay = d: int | 0 < d < CODE_LENGTH witness 1

  /** The delays of PRN 1 to 32, then those of PRN 120 to 138. */
  const DELAYS: seq<Delay> :=
    [5, 6, 7, 8, 17, 18, 139, 140, 141, 251, 252, 254, 255, 256, 257, 258, 469, 470, 471, 472] +
    [473, 474, 509, 512, 513, 514, 515, 516, 859, 860, 861, 862] +
    [145, 175, 52, 21, 237, 235, 886, 657, 634, 762] +
    [355, 1012, 176, 603, 130, 359, 595, 68, 386]

  predicate Xor(a: bool, b: bool) {
    a != b
  }

  // ---------------------------------------------------------------- the register sequences

  /** The G1 sequence: all ones, then s[n] = s[n-3] + s[n-10] (polynomial 1 + X^3 + X^10). */
  function G1(n: nat): bool {
    if n < 10 then true else Xor(G1(n - 3), G1(n - 10))
  }

  /** The G2 sequence (polynomial 1 + X^2 + X^3 + X^6 + X^8 + X^9 + X^10). */
  function G2(n: nat): bool {
    if n < 10 then true
    else Xor(Xor(Xor(Xor(Xor(G2(n - 2), G2(n - 3)), G2(n - 6)), G2(n - 8)), G2(n - 9)), G2(n - 10))
  }

  lemma {:induction false} G1ZeroBackwards(n: nat)
    ensures (forall j :: n <= j < n + 10 ==> !G1(j)) ==> !G1(0)
  {
    if n > 0 && forall j :: n <= j < n + 10 ==> !G1(j) {
      assert G1(n + 9) == Xor(G1(n + 6), G1(n - 1));
      assert forall j :: n - 1 <= j < n + 9 ==> !G1(j);
      G1ZeroBackwards(n - 1);
    }
  }

  lemma {:induction false} G2ZeroBackwards(n: nat)
    ensures (forall j :: n <= j < n + 10 ==> !G2(j)) ==> !G2(0)
  {
    if n > 0 && forall j :: n <= j < n + 10 ==> !G2(j) {
      assert !G2(n + 9) && !G2(n + 7) && !G2(n + 6) && !G2(n + 3) && !G2(n + 1) && !G2(n);
      assert G2(n + 9) == G2(n - 1);
      assert forall j :: n - 1 <= j < n + 9 ==> !G2(j);
      G2ZeroBackwards(n - 1);
    }
  }

  /** Neither register ever holds only zeros: any ten consecutive outputs contain a one. */
  lemma RegistersNeverZero(n: nat)
    ensures exists j :: n <= j < n + 10 && G1(j)
    ensures exists j :: n <= j < n + 10 && G2(j)
  {
    G1ZeroBackwards(n);
    G2ZeroBackwards(n);
    assert G1(0) && G2(0);
  }

  // ---------------------------------------------------------------- the code

  /** Index into the delay table, as the source computes it. */
  function PrnIndex(prn: int): int {
    if 120 <= prn <= 138 then prn - 88 else prn - 1
  }

  /** The generator goes on for these satellites and returns at once for all others. */
  predicate Accepted(prn: int) {
    0 <= PrnIndex(prn) <= 51
  }

  /** The range check admits one index too many: of the accepted satellites exactly PRN 52 lies
      beyond the delay table. */
  lemma DelayTableCovers(prn: int)
    ensures Accepted(prn) <==> 1 <= prn <= 52 || 120 <= prn <= 138
    ensures Accepted(prn) ==> (PrnIndex(prn) < |DELAYS| <==> prn != 52)
  {
  }

  /** Chip `k` of the unshifted code: G1 plus the G2 sequence delayed by the satellite's delay. */
  function Chip(delay: nat, k: nat): int
    requires delay <= CODE_LENGTH
  {
    if Xor(G1(k), G2((k + CODE_LENGTH - delay) % CODE_LENGTH)) then 1 else -1
  }

  lemma DelaysInRange(index: nat)
    requires index < |DELAYS|
    ensures 0 < DELAYS[index] <= CODE_LENGTH
  {
  }

  /** Shift both registers by one and insert the feedback. */
  method ShiftRegisters(r1: array<bool>, r2: array<bool>, feedback1: bool, feedback2: bool)
    requires r1 != r2 && r1.Length == 10 && r2.Length == 10
    modifies r1, r2
    ensures forall j :: 0 <= j < 9 ==> r1[j] == old(r1[j + 1]) && r2[j] == old(r2[j + 1])
    ensures r1[9] == feedback1 && r2[9] == feedback2
  {
    for k := 0 to 9
      invariant forall j :: 0 <= j < k ==> r1[j] == old(r1[j + 1]) && r2[j] == old(r2[j + 1])
      invariant forall j :: k <= j < 10 ==> r1[j] == old(r1[j]) && r2[j] == old(r2[j])
    {
      r1[k] := r1[k + 1];
      r2[k] := r2[k + 1];
    }
    r1[9] := feedback1;
    r2[9] := feedback2;
  }

  /** The register contents after `k` shifts. */
  ghost predicate Windows(r1: seq<bool>, r2: seq<bool>, k: nat) {
    |r1| == 10 && |r2| == 10 && forall j :: 0 <= j < 10 ==> r1[j] == G1(k + j) && r2[j] == G2(k + j)
  }

  lemma NextWindows(r1: seq<bool>, r2: seq<bool>, s1: seq<bool>, s2: seq<bool>, k: nat)
    requires Windows(r1, r2, k) && |s1| == 10 && |s2| == 10
    requires forall j :: 0 <= j < 9 ==> s1[j] == r1[j + 1] && s2[j] == r2[j + 1]
    requires s1[9] == Xor(r1[7], r1[0])
    requires s2[9] == Xor(Xor(Xor(Xor(Xor(r2[8], r2[7]), r2[4]), r2[2]), r2[1]), r2[0])
    ensures Windows(s1, s2, k + 1)
  {
    assert G1(k + 10) == Xor(G1(k + 7), G1(k));
    forall j | 0 <= j < 10 ensures s1[j] == G1(k + 1 + j) && s2[j] == G2(k + 1 + j) {
      if j < 9 {
        assert r1[j + 1] == G1(k + (j + 1)) && r2[j + 1] == G2(k + (j + 1));
      }
    }
  }

  /** One chip of both registers: feed back and shift. */
  method StepRegisters(r1: array<bool>, r2: array<bool>, ghost k: nat)
    requires r1 != r2 && Windows(r1[..], r2[..], k)
    modifies r1, r2
    ensures Windows(r1[..], r2[..], k + 1)
  {
    var feedback1 := Xor(r1[7], r1[0]);
    var feedback2 := Xor(Xor(Xor(Xor(Xor(r2[8], r2[7]), r2[4]), r2[2]), r2[1]), r2[0]);
    ghost var s1, s2 := r1[..], r2[..];
    ShiftRegisters(r1, r2, feedback1, feedback2);
    NextWindows(s1, s2, r1[..], r2[..], k);
  }

  /** Run the registers for a number of chips: the outputs are the two recurrences. */
  method GenerateRegisters(length: nat) returns (g1: seq<bool>, g2: seq<bool>)
    ensures |g1| == length && |g2| == length
    ensures forall i :: 0 <= i < length ==> g1[i] == G1(i) && g2[i] == G2(i)
  {
    g1, g2 := [], [];
    var r1, r2 := new bool[10](_ => true), new bool[10](_ => true);
    for k := 0 to length
      invariant |g1| == k && |g2| == k
      invariant forall i :: 0 <= i < k ==> g1[i] == G1(i) && g2[i] == G2(i)
      invariant Windows(r1[..], r2[..], k)
    {
      assert r1[0] == r1[..][0] == G1(k + 0) && r2[0] == r2[..][0] == G2(k + 0);
      g1, g2 := g1 + [r1[0]], g2 + [r2[0]];
      StepRegisters(r1, r2, k);
    }
  }

  /** The delay the source reads for an accepted satellite; beyond its table that is whatever
      `stray` value lies there. */
  function DelayOf(prn: int, stray: int): int
    requires Accepted(prn)
  {
    if PrnIndex(prn) < |DELAYS| then DELAYS[PrnIndex(prn)] else stray
  }

  /** Where the second loop starts in G2, in 32-bit unsigned arithmetic. */
  function FirstDelay(delay: int, chipShift: nat): (r: nat)
    ensures r < CODE_LENGTH
  {
    Reduce32((CODE_LENGTH - delay) % UINT32 + chipShift)
  }

  /** Chip `j` of the output, whatever the delay and the shift. */
  function Output(delay: int, chipShift: nat, j: nat): int {
    if Xor(G1(Reduce32(j + chipShift)), G2((FirstDelay(delay, chipShift) + j) % CODE_LENGTH)) then 1 else -1
  }

  /** The unshifted code of a satellite, rotated by `chipShift`. */
  ghost predicate Rotated(dest: seq<int>, delay: int, chipShift: nat) {
    && CODE_LENGTH <= |dest| && 0 < delay <= CODE_LENGTH
    && forall j :: 0 <= j < CODE_LENGTH ==> dest[j] == Chip(delay, (j + chipShift) % CODE_LENGTH)
  }

  /** gps_l1_ca_code_gen_int: every chip of the output, for any shift; and for every shift that does
      not wrap around 32 bits and every satellite of the table, the unshifted code rotated by it. */
  method CaCodeGenInt(dest: array<int>, prn: int, chipShift: nat, stray: int)
    requires dest.Length >= CODE_LENGTH && chipShift < UINT32
    modifies dest
    ensures !Accepted(prn) ==> dest[..] == old(dest[..])
    ensures Accepted(prn) ==> forall j :: 0 <= j < CODE_LENGTH ==> dest[j] == Output(DelayOf(prn, stray), chipShift, j)
    ensures Accepted(prn) && prn != 52 && chipShift + CODE_LENGTH <= UINT32 ==> Rotated(dest[..], DelayOf(prn, stray), chipShift)
    ensures forall i :: CODE_LENGTH <= i < dest.Length ==> dest[i] == old(dest[i])
  {
    var index := PrnIndex(prn);
    if index < 0 || index > 51 {
      return;
    }
    DelayTableCovers(prn);
    var g1, g2 := GenerateRegisters(CODE_LENGTH);
    var delay := DelayOf(prn, stray);
    WriteCode(dest, g1, g2, delay, chipShift);
    if prn != 52 && chipShift + CODE_LENGTH <= UINT32 {
      DelaysInRange(index);
      forall j | 0 <= j < CODE_LENGTH ensures dest[j] == Chip(delay, (j + chipShift) % CODE_LENGTH) {
        OutputIsRotated(delay, chipShift, j);
      }
    }
  }

  /** The second loop: a running delay index into G2, reduced after every increment. */
  method WriteCode(dest: array<int>, g1: seq<bool>, g2: seq<bool>, delay: int, chipShift: nat)
    requires dest.Length >= CODE_LENGTH && chipShift < UINT32
    requires |g1| == CODE_LENGTH && |g2| == CODE_LENGTH
    requires forall i :: 0 <= i < CODE_LENGTH ==> g1[i] == G1(i) && g2[i] == G2(i)
    modifies dest
    ensures forall j :: 0 <= j < CODE_LENGTH ==> dest[j] == Output(delay, chipShift, j)
    ensures forall i :: CODE_LENGTH <= i < dest.Length ==> dest[i] == old(dest[i])
  {
    var first := FirstDelay(delay, chipShift);
    var running := first;
    assert first % CODE_LENGTH == first;
    for i := 0 to CODE_LENGTH
      invariant running == (first + i) % CODE_LENGTH
      invariant forall j :: 0 <= j < i ==> dest[j] == Output(delay, chipShift, j)
      invariant forall j :: CODE_LENGTH <= j < dest.Length ==> dest[j] == old(dest[j])
    {
      dest[i] := if Xor(g1[Reduce32(i + chipShift)], g2[running]) then 1 else -1;
      NextDelay(first + i);
      running := Increment(running);
    }
  }

  /** Without wrap-around the loop runs through G2 from the delayed position. */
  lemma RunningDelay(delay: int, chipShift: nat, j: nat)
    requires 0 < delay <= CODE_LENGTH && chipShift + CODE_LENGTH <= UINT32
    ensures (FirstDelay(delay, chipShift) + j) % CODE_LENGTH == (CODE_LENGTH - delay + chipShift + j) % CODE_LENGTH
  {
    var start := CODE_LENGTH - delay;
    assert start % UINT32 == start;
    NoWrap(start + chipShift);
    RotatedDelay(start + chipShift, j);
  }

  /** Without wrap-around the output is the satellite's code, rotated. */
  lemma {:induction false} OutputIsRotated(delay: nat, chipShift: nat, j: nat)
    requires 0 < delay <= CODE_LENGTH && chipShift + CODE_LENGTH <= UINT32 && j < CODE_LENGTH
    ensures Output(delay, chipShift, j) == Chip(delay, (j + chipShift) % CODE_LENGTH)
  {
    NoWrap(j + chipShift);
    RunningDelay(delay, chipShift, j);
    ChipAt(delay, j, chipShift);
  }

  /** 32-bit unsigned arithmetic followed by reduction modulo the code length. */
  function Reduce32(x: nat): (r: nat)
    ensures r < CODE_LENGTH
  {
    (x % UINT32) % CODE_LENGTH
  }

  function Increment(delay: nat): (r: nat)
    ensures r < CODE_LENGTH
  {
    (delay + 1) % CODE_LENGTH
  }

  lemma NoWrap(x: nat)
    requires x < UINT32
    ensures Reduce32(x) == x % CODE_LENGTH
  {
  }

  lemma {:induction false} ChipAt(delay: nat, i: nat, chipShift: nat)
    requires delay <= CODE_LENGTH
    ensures Chip(delay, (i + chipShift) % CODE_LENGTH) ==
            if Xor(G1((i + chipShift) % CODE_LENGTH), G2((CODE_LENGTH - delay + chipShift + i) % CODE_LENGTH)) then 1 else -1
  {
    var k, start := (i + chipShift) % CODE_LENGTH, CODE_LENGTH - delay;
    RotatedDelay(i + chipShift, start);
    assert i + chipShift + start == start + chipShift + i && k + CODE_LENGTH - delay == k + start;
  }

  lemma NextDelay(x: nat)
    ensures Increment(x % CODE_LENGTH) == (x + 1) % CODE_LENGTH
  {
    RotatedDelay(x, 1);
  }

  /** Reducing the position before or after adding the delay makes no difference. */
  lemma RotatedDelay(p: nat, start: nat)
    ensures (p + start) % CODE_LENGTH == (p % CODE_LENGTH + start) % CODE_LENGTH
  {
    var q, r := p / CODE_LENGTH, p % CODE_LENGTH;
    var x := r + start;
    ModIs(p + start, q + x / CODE_LENGTH, x % CODE_LENGTH, CODE_LENGTH);
  }
}
