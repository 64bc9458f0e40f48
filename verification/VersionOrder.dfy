/** The version comparison `my_strverscmp` (src/core/libs/uio_fpga.cc), which orders device
    directories.  The packed transition and result tables are kept as they are, and the method
    that walks them is proved to compute the lexicographic order of an explicit sort key:
    a string total order in which digit runs without leading zeros compare as numbers. */
module VersionOrder {

  /** A C string: its characters as unsigned bytes, without the terminating NUL. */
  type CString = s: seq<int> | forall i :: 0 <= i < |s| ==> 0 < s[i] < 256

  /** The byte a valid pointer at offset `i` reads; offset |s| is the terminating NUL. */
  function At(s: CString, i: nat): int
    requires i <= |s|
  {
    if i < |s| then s[i] else 0
  }

  predicate IsDigit(c: int) {
    48 <= c <= 57
  }

  /** Symbol class of a byte: 0 for other characters, 1 for '1'..'9', 2 for '0'. */
  function Class(c: int): int {
    (if c == 48 then 1 else 0) + (if IsDigit(c) then 1 else 0)
  }

  function Sign(x: int): int {
    if x < 0 then -1 else if x == 0 then 0 else 1
  }

  // ---------------------------------------------------------------- the source's tables

  const S_N := 0
  const S_I := 3
  const S_F := 6
  const S_Z := 9
  const CMP := 2
  const LEN := 3

  const NEXT_STATE: seq<int> := [
    S_N, S_I, S_Z,
    S_N, S_I, S_I,
    S_N, S_F, S_F,
    S_N, S_F, S_Z]

  const RESULT_TYPE: seq<int> := [
    CMP, CMP, CMP, CMP, LEN, CMP, CMP, CMP, CMP,
    CMP, -1, -1, 1, LEN, LEN, 1, LEN, LEN,
    CMP, CMP, CMP, CMP, CMP, CMP, CMP, CMP, CMP,
    CMP, 1, 1, -1, CMP, CMP, -1, CMP, CMP]

  // ---------------------------------------------------------------- the reference order

  /** Where a position stands relative to digit runs: outside any run, inside a run that began
      with 1..9, inside a run of zeros only, or inside a run that began with zeros. */
  datatype Mode = Plain | Integer | Zeros | Fraction

  /** Length of the digit run starting at offset `i`. */
  function RunLength(s: CString, i: nat): nat
    requires i <= |s|
    decreases |s| - i
  {
    if i < |s| && IsDigit(s[i]) then 1 + RunLength(s, i + 1) else 0
  }

  /** Sort key of an empty digit string after zeros: above every digit, so "00" < "0". */
  const AFTER_ZEROS := 1000

  /** The sort key of `s[i..]`.  A run that starts with 1..9 is announced by its length, so
      that longer numbers sort later; a run that starts with 0 sorts digit by digit, and the
      shorter of two runs of zeros sorts later; everything else sorts by character code. */
  function KeyFrom(s: CString, i: nat, m: Mode): seq<int>
    requires i <= |s|
    decreases |s| - i
  {
    if i == |s| then [if m.Zeros? then AFTER_ZEROS else 0]
    else
      var c := s[i];
      if !IsDigit(c) then
        [if m.Zeros? then AFTER_ZEROS + c else c] + KeyFrom(s, i + 1, Plain)
      else
        match m
        case Plain =>
          if c == 48 then [c] + KeyFrom(s, i + 1, Zeros)
          else [49, RunLength(s, i), c] + KeyFrom(s, i + 1, Integer)
        case Integer => [c] + KeyFrom(s, i + 1, Integer)
        case Fraction => [c] + KeyFrom(s, i + 1, Fraction)
        case Zeros => [c] + KeyFrom(s, i + 1, if c == 48 then Zeros else Fraction)
  }

  function Key(s: CString): seq<int> {
    KeyFrom(s, 0, Plain)
  }

  /** Three-way lexicographic comparison of integer sequences. */
  function Lex(a: seq<int>, b: seq<int>): int {
    if a == [] || b == [] then Sign(|a| - |b|)
    else if a[0] != b[0] then Sign(a[0] - b[0])
    else Lex(a[1..], b[1..])
  }

  /** The order the comparison realises: negative, zero or positive as strcmp. */
  function Order(s1: CString, s2: CString): int {
    Lex(Key(s1), Key(s2))
  }

  // ---------------------------------------------------------------- lexicographic facts

  lemma {:induction false} LexPrefix(p: seq<int>, a: seq<int>, b: seq<int>)
    ensures Lex(p + a, p + b) == Lex(a, b)
  {
    if p == [] {
      assert p + a == a && p + b == b;
    } else {
      assert (p + a)[1..] == p[1..] + a && (p + b)[1..] == p[1..] + b;
      LexPrefix(p[1..], a, b);
    }
  }

  lemma LexNumberHeads(r1: int, r2: int, c1: int, c2: int, x: seq<int>, y: seq<int>)
    requires c1 != c2
    ensures Lex([49, r1, c1] + x, [49, r2, c2] + y) == if r1 != r2 then Sign(r1 - r2) else Sign(c1 - c2)
  {
    var a, b := [r1, c1] + x, [r2, c2] + y;
    LexPrefix([49], a, b);
    assert [49] + a == [49, r1, c1] + x && [49] + b == [49, r2, c2] + y;
    if r1 == r2 {
      LexPrefix([r1], [c1] + x, [c2] + y);
      assert [r1] + ([c1] + x) == a && [r1] + ([c2] + y) == b;
    }
  }

  lemma {:induction false} LexAntisymmetric(a: seq<int>, b: seq<int>)
    ensures Lex(a, b) == -Lex(b, a)
  {
    if a != [] && b != [] && a[0] == b[0] {
      LexAntisymmetric(a[1..], b[1..]);
    }
  }

  lemma {:induction false} LexZero(a: seq<int>, b: seq<int>)
    ensures Lex(a, b) == 0 <==> a == b
  {
    if a != [] && b != [] {
      if a[0] == b[0] {
        LexZero(a[1..], b[1..]);
        assert a == [a[0]] + a[1..] && b == [b[0]] + b[1..];
      }
    }
  }

  lemma {:induction false} LexTransitive(a: seq<int>, b: seq<int>, c: seq<int>)
    requires Lex(a, b) <= 0 && Lex(b, c) <= 0
    ensures Lex(a, c) <= 0
    ensures Lex(a, b) < 0 || Lex(b, c) < 0 ==> Lex(a, c) < 0
  {
    if a != [] && b != [] && c != [] && a[0] == b[0] == c[0] {
      LexTransitive(a[1..], b[1..], c[1..]);
    }
  }

  // ---------------------------------------------------------------- walking a common prefix

  /** The order still to be decided when both strings agree before offset `k` and stand in
      mode `m` there.  Inside an integer run a difference in run length decides. */
  function Remaining(s1: CString, s2: CString, k: nat, m: Mode): int
    requires k <= |s1| && k <= |s2|
  {
    if m.Integer? && RunLength(s1, k) != RunLength(s2, k)
    then Sign(RunLength(s1, k) - RunLength(s2, k))
    else Lex(KeyFrom(s1, k, m), KeyFrom(s2, k, m))
  }

  function NextMode(m: Mode, c: int): Mode {
    if !IsDigit(c) then Plain
    else match m
      case Plain => if c == 48 then Zeros else Integer
      case Integer => Integer
      case Fraction => Fraction
      case Zeros => if c == 48 then Zeros else Fraction
  }

  /** Table row of a mode. */
  function Row(m: Mode): int {
    match m
    case Plain => S_N
    case Integer => S_I
    case Fraction => S_F
    case Zeros => S_Z
  }

  lemma NextStateIsNextMode(m: Mode, c: int)
    ensures 0 <= Row(m) + Class(c) < |NEXT_STATE|
    ensures NEXT_STATE[Row(m) + Class(c)] == Row(NextMode(m, c))
  {
  }

  /** Stepping over one equal character leaves the undecided order as it was. */
  lemma RemainingStep(s1: CString, s2: CString, k: nat, m: Mode)
    requires k < |s1| && k < |s2| && s1[k] == s2[k]
    ensures Remaining(s1, s2, k, m) == Remaining(s1, s2, k + 1, NextMode(m, s1[k]))
  {
    var c := s1[k];
    if m.Plain? && IsDigit(c) && c != 48 {
      var k1, k2 := KeyFrom(s1, k + 1, Integer), KeyFrom(s2, k + 1, Integer);
      var r1, r2 := RunLength(s1, k), RunLength(s2, k);
      LexPrefix([49], [r1, c] + k1, [r2, c] + k2);
      assert [49] + ([r1, c] + k1) == [49, r1, c] + k1;
      assert [49] + ([r2, c] + k2) == [49, r2, c] + k2;
      if r1 == r2 {
        LexPrefix([r1, c], k1, k2);
      }
    } else {
      var h := [if m.Zeros? && !IsDigit(c) then AFTER_ZEROS + c else c];
      LexPrefix(h, KeyFrom(s1, k + 1, NextMode(m, c)), KeyFrom(s2, k + 1, NextMode(m, c)));
    }
  }

  /** What the result table says of two different characters met in mode `m`. */
  function Verdict(s1: CString, s2: CString, k: nat, m: Mode): int
    requires k <= |s1| && k <= |s2| && At(s1, k) != At(s2, k)
  {
    var c1, c2 := At(s1, k), At(s2, k);
    var t := RESULT_TYPE[(Row(m) + Class(c1)) * 3 + Class(c2)];
    if t == CMP then Sign(c1 - c2)
    else if t == LEN then
      if RunLength(s1, k) != RunLength(s2, k)
      then Sign(RunLength(s1, k) - RunLength(s2, k)) else Sign(c1 - c2)
    else t
  }

  lemma KeyHead(s: CString, k: nat, m: Mode)
    requires k <= |s|
    ensures KeyFrom(s, k, m) != []
    ensures m.Plain? && k < |s| && IsDigit(s[k]) && s[k] != 48 ==>
              KeyFrom(s, k, m)[..3] == [49, RunLength(s, k), s[k]]
    ensures !(m.Plain? && k < |s| && IsDigit(s[k]) && s[k] != 48) ==>
              KeyFrom(s, k, m)[0] ==
              (if m.Zeros? && !IsDigit(At(s, k)) then AFTER_ZEROS + At(s, k) else At(s, k))
  {
  }

  /** The result table, read by mode and by the classes of the two characters. */
  lemma ResultTypeByMode(m: Mode, x: int, y: int)
    requires 0 <= x <= 2 && 0 <= y <= 2
    ensures RESULT_TYPE[(Row(m) + x) * 3 + y] ==
            match m
            case Plain => if x == 1 && y == 1 then LEN else CMP
            case Integer => if x == 0 && y == 0 then CMP else if x == 0 then -1 else if y == 0 then 1 else LEN
            case Fraction => CMP
            case Zeros => if x == 0 && y != 0 then 1 else if x != 0 && y == 0 then -1 else CMP
  {
  }

  /** Keys of two numbers that start at the same place and differ in their first digit. */
  lemma {:induction false} IntegerHeads(s1: CString, s2: CString, k: nat)
    requires k < |s1| && k < |s2| && s1[k] != s2[k]
    requires Class(s1[k]) == 1 && Class(s2[k]) == 1
    ensures Lex(KeyFrom(s1, k, Plain), KeyFrom(s2, k, Plain)) ==
            if RunLength(s1, k) != RunLength(s2, k)
            then Sign(RunLength(s1, k) - RunLength(s2, k)) else Sign(s1[k] - s2[k])
  {
    LexNumberHeads(RunLength(s1, k), RunLength(s2, k), s1[k], s2[k],
                   KeyFrom(s1, k + 1, Integer), KeyFrom(s2, k + 1, Integer));
  }

  /** Outside the start of a number the first keys differ, and decide. */
  lemma {:induction false} HeadsDecide(s1: CString, s2: CString, k: nat, m: Mode)
    requires k <= |s1| && k <= |s2| && At(s1, k) != At(s2, k)
    requires !(m.Plain? && Class(At(s1, k)) == 1 && Class(At(s2, k)) == 1)
    ensures var c1, c2 := At(s1, k), At(s2, k);
            Lex(KeyFrom(s1, k, m), KeyFrom(s2, k, m)) ==
            if m.Zeros? && IsDigit(c1) != IsDigit(c2) then (if IsDigit(c1) then -1 else 1) else Sign(c1 - c2)
  {
    KeyHead(s1, k, m);
    KeyHead(s2, k, m);
  }

  lemma {:induction false} RunHead(s: CString, k: nat)
    requires k <= |s|
    ensures RunLength(s, k) > 0 <==> IsDigit(At(s, k))
    ensures IsDigit(At(s, k)) ==> k < |s| && RunLength(s, k) == 1 + RunLength(s, k + 1)
  {
  }

  /** Inside an integer run the run lengths decide first. */
  lemma {:induction false} VerdictInInteger(s1: CString, s2: CString, k: nat)
    requires k <= |s1| && k <= |s2| && At(s1, k) != At(s2, k)
    ensures Verdict(s1, s2, k, Integer) == Remaining(s1, s2, k, Integer) != 0
  {
    ResultTypeByMode(Integer, Class(At(s1, k)), Class(At(s2, k)));
    RunHead(s1, k);
    RunHead(s2, k);
    HeadsDecide(s1, s2, k, Integer);
  }

  /** Two numbers that start here are decided by their lengths. */
  lemma {:induction false} VerdictAtNumbers(s1: CString, s2: CString, k: nat)
    requires k <= |s1| && k <= |s2| && At(s1, k) != At(s2, k)
    requires Class(At(s1, k)) == 1 && Class(At(s2, k)) == 1
    ensures Verdict(s1, s2, k, Plain) == Remaining(s1, s2, k, Plain) != 0
  {
    ResultTypeByMode(Plain, 1, 1);
    IntegerHeads(s1, s2, k);
  }

  /** Elsewhere the two characters decide. */
  lemma {:induction false} VerdictByHeads(s1: CString, s2: CString, k: nat, m: Mode)
    requires k <= |s1| && k <= |s2| && At(s1, k) != At(s2, k) && !m.Integer?
    requires !(m.Plain? && Class(At(s1, k)) == 1 && Class(At(s2, k)) == 1)
    ensures Verdict(s1, s2, k, m) == Remaining(s1, s2, k, m) != 0
  {
    ResultTypeByMode(m, Class(At(s1, k)), Class(At(s2, k)));
    HeadsDecide(s1, s2, k, m);
  }

  /** At the first difference the table decides as the keys do. */
  lemma {:induction false} VerdictIsRemaining(s1: CString, s2: CString, k: nat, m: Mode)
    requires k <= |s1| && k <= |s2| && At(s1, k) != At(s2, k)
    ensures Verdict(s1, s2, k, m) == Remaining(s1, s2, k, m) != 0
  {
    if m.Integer? {
      VerdictInInteger(s1, s2, k);
    } else if m.Plain? && Class(At(s1, k)) == 1 && Class(At(s2, k)) == 1 {
      VerdictAtNumbers(s1, s2, k);
    } else {
      VerdictByHeads(s1, s2, k, m);
    }
  }

  // ---------------------------------------------------------------- the comparison itself

  /** The source's comparison: two offsets advance while the characters agree, then the packed
      table decides.  Every table index and every read is within bounds. */
  method MyStrverscmp(s1: CString, s2: CString, samePointer: bool) returns (r: int)
    requires samePointer ==> s1 == s2
    ensures Sign(r) == Order(s1, s2)
  {
    if samePointer {
      LexZero(Key(s1), Key(s2));
      return 0;
    }
    var p1, p2 := 0, 0;
    var c1, c2 := At(s1, p1), At(s2, p2);
    p1, p2 := p1 + 1, p2 + 1;
    var state := S_N + Class(c1);
    ghost var m := Plain;
    while c1 == c2
      invariant 1 <= p1 == p2 && p1 <= |s1| + 1 && p2 <= |s2| + 1
      invariant c1 == At(s1, p1 - 1) && c2 == At(s2, p2 - 1)
      invariant state == Row(m) + Class(c1)
      invariant Remaining(s1, s2, p1 - 1, m) == Order(s1, s2)
      decreases |s1| + 1 - p1
    {
      if c1 == 0 {
        LexZero(KeyFrom(s1, p1 - 1, m), KeyFrom(s2, p1 - 1, m));
        return 0;
      }
      RemainingStep(s1, s2, p1 - 1, m);
      NextStateIsNextMode(m, c1);
      m := NextMode(m, c1);
      state := NEXT_STATE[state];
      c1, c2 := At(s1, p1), At(s2, p2);
      p1, p2 := p1 + 1, p2 + 1;
      state := state + Class(c1);
    }
    VerdictIsRemaining(s1, s2, p1 - 1, m);
    r := ResolveDifference(s1, s2, p1, p2, c1 - c2, state * 3 + Class(c2), m);
  }

  /** The switch on the result table, one step past the first difference. */
  method ResolveDifference(s1: CString, s2: CString, p1: nat, p2: nat, diff: int, index: int, ghost m: Mode)
      returns (r: int)
    requires 1 <= p1 == p2 && p1 <= |s1| + 1 && p2 <= |s2| + 1 && At(s1, p1 - 1) != At(s2, p2 - 1)
    requires diff == At(s1, p1 - 1) - At(s2, p2 - 1)
    requires index == (Row(m) + Class(At(s1, p1 - 1))) * 3 + Class(At(s2, p2 - 1))
    ensures Sign(r) == Verdict(s1, s2, p1 - 1, m)
  {
    TableCoversRun(s1, s2, p1 - 1, m);
    var kind := RESULT_TYPE[index];
    if kind == CMP {
      r := diff;
    } else if kind == LEN {
      r := CompareRunLengths(s1, s2, p1, p2, diff);
    } else {
      r := kind;
    }
  }

  /** The result table is indexed within bounds, and decides by run length only between digits. */
  lemma {:induction false} TableCoversRun(s1: CString, s2: CString, k: nat, m: Mode)
    requires k <= |s1| && k <= |s2| && At(s1, k) != At(s2, k)
    ensures var x := (Row(m) + Class(At(s1, k))) * 3 + Class(At(s2, k));
            && 0 <= x < |RESULT_TYPE|
            && (RESULT_TYPE[x] == LEN ==>
                 && k < |s1| && k < |s2|
                 && RunLength(s1, k) == 1 + RunLength(s1, k + 1) && RunLength(s2, k) == 1 + RunLength(s2, k + 1))
            && (RESULT_TYPE[x] != LEN && RESULT_TYPE[x] != CMP ==> RESULT_TYPE[x] == 1 || RESULT_TYPE[x] == -1)
  {
    ResultTypeByMode(m, Class(At(s1, k)), Class(At(s2, k)));
    RunHead(s1, k);
    RunHead(s2, k);
  }

  /** The LEN branch: walk both digit runs in step; the longer one is greater, and `diff`
      decides when they end together. */
  method CompareRunLengths(s1: CString, s2: CString, from1: nat, from2: nat, diff: int) returns (r: int)
    requires from1 <= |s1| && from2 <= |s2|
    ensures r == if RunLength(s1, from1) > RunLength(s2, from2) then 1
                 else if RunLength(s1, from1) < RunLength(s2, from2) then -1 else diff
  {
    var p1, p2 := from1, from2;
    while IsDigit(At(s1, p1))
      invariant p1 <= |s1| && p2 <= |s2|
      invariant p1 - from1 == p2 - from2 >= 0
      invariant RunLength(s1, from1) == p1 - from1 + RunLength(s1, p1)
      invariant RunLength(s2, from2) == p2 - from2 + RunLength(s2, p2)
      decreases |s1| - p1
    {
      p1 := p1 + 1;
      if !IsDigit(At(s2, p2)) {
        return 1;
      }
      p2 := p2 + 1;
    }
    r := if IsDigit(At(s2, p2)) then -1 else diff;
  }

  // ---------------------------------------------------------------- it is a total order

  lemma SameKeySameCharacter(s1: CString, s2: CString, k: nat, m: Mode)
    requires k <= |s1| && k <= |s2|
    requires KeyFrom(s1, k, m) == KeyFrom(s2, k, m)
    ensures At(s1, k) == At(s2, k)
  {
    KeyHead(s1, k, m);
    KeyHead(s2, k, m);
    var a, b := KeyFrom(s1, k, m), KeyFrom(s2, k, m);
    if m.Plain? && Class(At(s1, k)) == 1 && Class(At(s2, k)) == 1 {
      assert a[..3][2] == b[..3][2];
    }
  }

  /** The key determines the string, from any offset and mode. */
  lemma {:induction false} KeyInjective(s1: CString, s2: CString, k: nat, m: Mode)
    requires k <= |s1| && k <= |s2|
    requires KeyFrom(s1, k, m) == KeyFrom(s2, k, m)
    ensures s1[k..] == s2[k..]
    decreases |s1| - k
  {
    SameKeySameCharacter(s1, s2, k, m);
    if k < |s1| {
      var n := if m.Plain? && Class(s1[k]) == 1 then 3 else 1;
      assert KeyFrom(s1, k, m)[n..] == KeyFrom(s1, k + 1, NextMode(m, s1[k]));
      assert KeyFrom(s2, k, m)[n..] == KeyFrom(s2, k + 1, NextMode(m, s2[k]));
      KeyInjective(s1, s2, k + 1, NextMode(m, s1[k]));
      assert s1[k..] == [s1[k]] + s1[k + 1..] && s2[k..] == [s2[k]] + s2[k + 1..];
    }
  }

  /** The comparison is a strict total order on all C strings: zero exactly on equal strings,
      antisymmetric in sign, and transitive. */
  lemma TotalOrder(a: CString, b: CString, c: CString)
    ensures Order(a, b) == 0 <==> a == b
    ensures Order(a, b) == -Order(b, a)
    ensures Order(a, b) < 0 && Order(b, c) < 0 ==> Order(a, c) < 0
    ensures Order(a, b) <= 0 && Order(b, c) <= 0 ==> Order(a, c) <= 0
  {
    LexZero(Key(a), Key(b));
    if Key(a) == Key(b) {
      KeyInjective(a, b, 0, Plain);
      assert a == a[0..] && b == b[0..];
    }
    LexAntisymmetric(Key(a), Key(b));
    if Order(a, b) <= 0 && Order(b, c) <= 0 {
      LexTransitive(Key(a), Key(b), Key(c));
    }
  }

  // ---------------------------------------------------------------- what the order means

  /** The mode in which offset `k` is reached. */
  function ModeAt(s: CString, k: nat): Mode
    requires k <= |s|
  {
    if k == 0 then Plain else NextMode(ModeAt(s, k - 1), s[k - 1])
  }

  /** The digits from `j` to `k` are the end of `s[..k]` and no digit precedes them. */
  ghost predicate RunBefore(s: CString, j: nat, k: nat) {
    j <= k <= |s| && (forall i :: j <= i < k ==> IsDigit(s[i])) && (j > 0 ==> !IsDigit(s[j - 1]))
  }

  ghost predicate AllZeros(s: CString, j: nat, k: nat) {
    j <= k <= |s| && forall i :: j <= i < k ==> s[i] == 48
  }

  lemma {:induction false} ModeOfRun(s: CString, j: nat, k: nat)
    requires RunBefore(s, j, k)
    ensures ModeAt(s, k) == if j == k then Plain else if s[j] != 48 then Integer
                            else if AllZeros(s, j, k) then Zeros else Fraction
  {
    if j < k {
      ModeOfRun(s, j, k - 1);
      assert AllZeros(s, j, k) <==> AllZeros(s, j, k - 1) && s[k - 1] == 48;
    }
  }

  lemma {:induction false} OrderRemains(s1: CString, s2: CString, k: nat)
    requires k <= |s1| && k <= |s2| && s1[..k] == s2[..k]
    ensures Order(s1, s2) == Remaining(s1, s2, k, ModeAt(s1, k))
  {
    if k > 0 {
      assert s1[..k][..k - 1] == s1[..k - 1] && s2[..k][..k - 1] == s2[..k - 1];
      assert s1[..k][k - 1] == s1[k - 1] && s2[..k][k - 1] == s2[k - 1];
      OrderRemains(s1, s2, k - 1);
      RemainingStep(s1, s2, k - 1, ModeAt(s1, k - 1));
    }
  }

  /** How different characters decide in each mode. */
  lemma {:induction false} RemainingReads(s1: CString, s2: CString, k: nat, m: Mode, c1: int, c2: int)
    requires k <= |s1| && k <= |s2| && c1 == At(s1, k) != c2 == At(s2, k)
    ensures Remaining(s1, s2, k, m) ==
            if (m.Integer? || (m.Plain? && 49 <= c1 <= 57 && 49 <= c2 <= 57)) && RunLength(s1, k) != RunLength(s2, k)
            then Sign(RunLength(s1, k) - RunLength(s2, k))
            else if m.Zeros? && IsDigit(c1) != IsDigit(c2) then (if IsDigit(c1) then -1 else 1)
            else Sign(c1 - c2)
  {
    if m.Plain? && Class(c1) == 1 && Class(c2) == 1 {
      IntegerHeads(s1, s2, k);
    } else {
      HeadsDecide(s1, s2, k, m);
    }
  }

  /** The order read off the first difference, at offset `k`, with the digits from `j` to `k` before it.
      Inside a number, and where two numbers start, the longer one is greater.  Behind zeros, and nothing
      but zeros, a string that has a further digit is smaller than one that has not.  In all other cases
      the character codes decide, the end of a string counting as 0: between other characters, between
      a leading zero and a number, and between the digits of numerals that start with zero. */
  lemma FirstDifference(s1: CString, s2: CString, j: nat, k: nat)
    requires k <= |s1| && k <= |s2| && s1[..k] == s2[..k] && At(s1, k) != At(s2, k) && RunBefore(s1, j, k)
    ensures var c1, c2 := At(s1, k), At(s2, k);
            var number := if j < k then s1[j] != 48 else 49 <= c1 <= 57 && 49 <= c2 <= 57;
            Order(s1, s2) ==
            if number && RunLength(s1, k) != RunLength(s2, k) then Sign(RunLength(s1, k) - RunLength(s2, k))
            else if j < k && AllZeros(s1, j, k) && IsDigit(c1) != IsDigit(c2) then (if IsDigit(c1) then -1 else 1)
            else Sign(c1 - c2)
  {
    ModeOfRun(s1, j, k);
    OrderRemains(s1, s2, k);
    RemainingReads(s1, s2, k, ModeAt(s1, k), At(s1, k), At(s2, k));
  }
}
