/** Finding the uio device driver of an FPGA accelerator (src/core/libs/uio_fpga.cc): the
    directory listing is sorted with the version comparison and searched for the device_num-th
    entry whose driver has the wanted name. */
module UioFpga {
  import opened Collections
  import opened VersionOrder

  // ---------------------------------------------------------------- decimal numerals

  function Pow10(n: nat): nat {
    if n == 0 then 1 else 10 * Pow10(n - 1)
  }

  predicate AllDigits(ds: seq<int>) {
    forall i :: 0 <= i < |ds| ==> IsDigit(ds[i])
  }

  /** The decimal numeral of `n`, without leading zeros. */
  function Dec(n: nat): (ds: CString)
    ensures |ds| >= 1 && AllDigits(ds)
    ensures ds[0] == 48 <==> n == 0
    ensures n == 0 ==> ds == [48]
  {
    if n < 10 then [48 + n] else Dec(n / 10) + [48 + n % 10]
  }

  /** The number a string of digits denotes. */
  function Value(ds: seq<int>): int {
    if ds == [] then 0 else (ds[0] - 48) * Pow10(|ds| - 1) + Value(ds[1..])
  }

  lemma {:induction false} ValueBounds(ds: seq<int>)
    requires AllDigits(ds)
    ensures 0 <= Value(ds) < Pow10(|ds|)
    ensures ds != [] && ds[0] != 48 ==> Pow10(|ds| - 1) <= Value(ds)
  {
    if ds != [] {
      ValueBounds(ds[1..]);
      DigitTimes(ds[0] - 48, Pow10(|ds| - 1));
    }
  }

  lemma DigitTimes(d: int, p: nat)
    requires 0 <= d <= 9
    ensures 0 <= d * p <= 9 * p
    ensures d >= 1 ==> p <= d * p
  {
    assert d >= 1 ==> (d - 1) * p >= 0;
    assert (9 - d) * p >= 0;
  }

  lemma {:induction false} ValueAppend(ds: seq<int>, c: int)
    ensures Value(ds + [c]) == 10 * Value(ds) + (c - 48)
  {
    if ds == [] {
      assert ds + [c] == [c];
    } else {
      assert (ds + [c])[1..] == ds[1..] + [c];
      ValueAppend(ds[1..], c);
      var d, p := ds[0] - 48, Pow10(|ds| - 1);
      assert d * (10 * p) == 10 * (d * p);
    }
  }

  /** Reading back a printed number. */
  lemma {:induction false} ValueOfDec(n: nat)
    ensures Value(Dec(n)) == n
  {
    if n < 10 {
      assert Dec(n)[1..] == [];
    } else {
      ValueOfDec(n / 10);
      ValueAppend(Dec(n / 10), 48 + n % 10);
    }
  }

  lemma {:induction false} Pow10Monotone(m: nat, n: nat)
    requires m <= n
    ensures Pow10(m) <= Pow10(n)
    decreases n
  {
    if m < n {
      Pow10Monotone(m, n - 1);
    }
  }

  /** Numerals of equal length compare digit by digit as their values do. */
  lemma {:induction false} EqualLengthOrder(a: seq<int>, b: seq<int>)
    requires |a| == |b| && AllDigits(a) && AllDigits(b)
    ensures Lex(a, b) == Sign(Value(a) - Value(b))
  {
    if a != [] {
      EqualLengthOrder(a[1..], b[1..]);
      ValueBounds(a[1..]);
      ValueBounds(b[1..]);
      var p := Pow10(|a| - 1);
      if a[0] < b[0] {
        DigitGap(a[0] - 48, b[0] - 48, p);
      } else if b[0] < a[0] {
        DigitGap(b[0] - 48, a[0] - 48, p);
      }
    }
  }

  lemma {:induction false} DigitGap(d: int, e: int, p: nat)
    requires d < e
    ensures d * p + p <= e * p
    decreases e - d
  {
    if e == d + 1 {
      assert (d + 1) * p == d * p + p;
    } else {
      DigitGap(d, e - 1, p);
      assert e * p == (e - 1) * p + p;
    }
  }

  /** Numerals compare first by length, then digit by digit. */
  lemma NumeralOrder(a: nat, b: nat)
    ensures Sign(a - b) == if |Dec(a)| != |Dec(b)| then Sign(|Dec(a)| - |Dec(b)|) else Lex(Dec(a), Dec(b))
  {
    ValueOfDec(a);
    ValueOfDec(b);
    ValueBounds(Dec(a));
    ValueBounds(Dec(b));
    if |Dec(a)| < |Dec(b)| {
      Pow10Monotone(|Dec(a)|, |Dec(b)| - 1);
    } else if |Dec(b)| < |Dec(a)| {
      Pow10Monotone(|Dec(b)|, |Dec(a)| - 1);
    } else {
      EqualLengthOrder(Dec(a), Dec(b));
    }
  }

  // ---------------------------------------------------------------- the version order on numerals

  /** The mode in which a prefix leaves the comparison. */
  function ModeAfter(p: CString): Mode {
    if p == [] then Plain else NextMode(ModeAfter(p[..|p| - 1]), p[|p| - 1])
  }

  lemma {:induction false} RemainingAfterPrefix(s1: CString, s2: CString, k: nat)
    requires k <= |s1| && k <= |s2| && s1[..k] == s2[..k]
    ensures Remaining(s1, s2, k, ModeAfter(s1[..k])) == Order(s1, s2)
  {
    if k > 0 {
      assert s1[..k][..k - 1] == s1[..k - 1] && s2[..k][..k - 1] == s2[..k - 1];
      RemainingAfterPrefix(s1, s2, k - 1);
      assert s1[..k][k - 1] == s1[k - 1] && s2[..k][k - 1] == s2[k - 1];
      RemainingStep(s1, s2, k - 1, ModeAfter(s1[..k - 1]));
    }
  }

  lemma {:induction false} RunToEnd(s: CString, i: nat)
    requires i <= |s| && AllDigits(s[i..])
    ensures RunLength(s, i) == |s| - i
    ensures KeyFrom(s, i, Integer) == s[i..] + [0]
    decreases |s| - i
  {
    if i < |s| {
      assert IsDigit(s[i..][0]);
      assert s[i..] == [s[i]] + s[i + 1..];
      assert s[i + 1..] == s[i..][1..];
      RunToEnd(s, i + 1);
    }
  }

  lemma {:induction false} NumeralKey(p: CString, n: nat)
    ensures IsNumeralKey(n, KeyFrom(p + Dec(n), |p|, Plain))
  {
    if n > 0 {
      DigitsKey(p, Dec(n));
    } else {
      assert (p + Dec(n))[|p|] == 48;
    }
  }

  lemma {:induction false} DigitsKey(p: CString, d: CString)
    requires AllDigits(d) && d != [] && d[0] != 48
    ensures KeyFrom(p + d, |p|, Plain) == [49, |d|] + (d + [0])
  {
    var s: CString := p + d;
    assert s[|p|..] == d && s[|p| + 1..] == d[1..];
    RunToEnd(s, |p|);
    RunToEnd(s, |p| + 1);
    assert d == [d[0]] + d[1..];
  }

  lemma {:induction false} LexSameTail(a: seq<int>, b: seq<int>, x: int)
    requires |a| == |b|
    ensures Lex(a + [x], b + [x]) == Lex(a, b)
  {
    if a == [] {
      assert a + [x] == b + [x];
      LexZero(a + [x], b + [x]);
    } else {
      assert (a + [x])[1..] == a[1..] + [x] && (b + [x])[1..] == b[1..] + [x];
      LexSameTail(a[1..], b[1..], x);
    }
  }

  /** Keys that begin with a length compare by length, then by content. */
  lemma {:induction false} LengthFirst(d: seq<int>, e: seq<int>)
    ensures Lex([49, |d|] + (d + [0]), [49, |e|] + (e + [0])) ==
            if |d| != |e| then Sign(|d| - |e|) else Lex(d, e)
  {
    var x, y := d + [0], e + [0];
    LexPrefix([49], [|d|] + x, [|e|] + y);
    assert [49, |d|] + x == [49] + ([|d|] + x);
    assert [49, |e|] + y == [49] + ([|e|] + y);
    if |d| == |e| {
      LexPrefix([|d|], x, y);
      LexSameTail(d, e, 0);
    }
  }

  /** After a shared prefix that does not end in a digit, the comparison agrees with numeric
      order on decimals without leading zeros. */
  lemma {:induction false} NumericOrder(p: CString, a: nat, b: nat)
    requires p == [] || !IsDigit(p[|p| - 1])
    ensures Order(p + Dec(a), p + Dec(b)) == Sign(a - b)
  {
    var s1: CString, s2: CString := p + Dec(a), p + Dec(b);
    assert s1[..|p|] == p == s2[..|p|];
    RemainingAfterPrefix(s1, s2, |p|);
    NumeralKey(p, a);
    NumeralKey(p, b);
    NumeralKeys(a, b, KeyFrom(s1, |p|, Plain), KeyFrom(s2, |p|, Plain));
  }

  /** The key of a numeral: 48 first for zero, and its length first for a positive number. */
  ghost predicate IsNumeralKey(n: nat, x: seq<int>) {
    if n == 0 then x != [] && x[0] == 48 else x == [49, |Dec(n)|] + (Dec(n) + [0])
  }

  lemma {:induction false} NumeralKeys(a: nat, b: nat, x: seq<int>, y: seq<int>)
    requires IsNumeralKey(a, x) && IsNumeralKey(b, y) && (a == b ==> x == y)
    ensures Lex(x, y) == Sign(a - b)
  {
    if a > 0 && b > 0 {
      NumeralOrder(a, b);
      LengthFirst(Dec(a), Dec(b));
    } else if a == 0 && b == 0 {
      LexZero(x, y);
    }
  }

  // ---------------------------------------------------------------- the number of a device path

  function FirstDigit(s: CString, i: nat): (f: nat)
    requires i <= |s|
    ensures i <= f <= |s|
    decreases |s| - i
  {
    if i < |s| && !IsDigit(s[i]) then FirstDigit(s, i + 1) else i
  }

  /** The value of the first digit run, and 0 when the path has no digit (atoi of ""). */
  function UioNumber(s: CString): int {
    var f := FirstDigit(s, 0);
    RunBound(s, f);
    Value(s[f..f + RunLength(s, f)])
  }

  lemma {:induction false} RunBound(s: CString, i: nat)
    requires i <= |s|
    ensures i + RunLength(s, i) <= |s|
    ensures AllDigits(s[i..i + RunLength(s, i)])
    decreases |s| - i
  {
    if i < |s| && IsDigit(s[i]) {
      RunBound(s, i + 1);
      assert s[i..i + RunLength(s, i)] == [s[i]] + s[i + 1..i + 1 + RunLength(s, i + 1)];
    }
  }

  /** get_uio_num: skip to the first digit, then convert the rest with atoi. */
  method GetUioNum(name: CString) returns (n: int)
    ensures n == UioNumber(name) >= 0
  {
    var i := 0;
    while i < |name| && !IsDigit(name[i])
      invariant 0 <= i <= |name|
      invariant FirstDigit(name, 0) == FirstDigit(name, i)
    {
      i := i + 1;
    }
    n := ParseDigits(name, i);
  }

  /** atoi, on the digits that start at offset `i`. */
  method ParseDigits(name: CString, i: nat) returns (n: int)
    requires i <= |name|
    ensures i + RunLength(name, i) <= |name| && n == Value(name[i..i + RunLength(name, i)]) >= 0
  {
    RunBound(name, i);
    ValueBounds(name[i..i + RunLength(name, i)]);
    n := 0;
    var j := i;
    while j < |name| && IsDigit(name[j])
      invariant i <= j <= |name|
      invariant RunLength(name, i) == j - i + RunLength(name, j)
      invariant n == Value(name[i..j])
    {
      ValueAppend(name[i..j], name[j]);
      assert name[i..j + 1] == name[i..j] + [name[j]];
      n := 10 * n + (name[j] - 48);
      j := j + 1;
    }
  }

  predicate DigitFree(p: CString) {
    forall i :: 0 <= i < |p| ==> !IsDigit(p[i])
  }

  lemma {:induction false} FirstDigitAfterPrefix(p: CString, ds: CString, i: nat)
    requires DigitFree(p) && |ds| >= 1 && IsDigit(ds[0]) && i <= |p|
    ensures FirstDigit(p + ds, i) == |p|
    decreases |p| - i
  {
    if i < |p| {
      FirstDigitAfterPrefix(p, ds, i + 1);
    }
  }

  /** A numbered path yields its number. */
  lemma UioNumberOfPath(p: CString, n: nat)
    requires DigitFree(p)
    ensures UioNumber(p + Dec(n)) == n
  {
    var s: CString := p + Dec(n);
    FirstDigitAfterPrefix(p, Dec(n), 0);
    assert s[|p|..] == Dec(n);
    RunToEnd(s, |p|);
    ValueOfDec(n);
    assert s[|p|..|p| + RunLength(s, |p|)] == Dec(n);
  }

  // ---------------------------------------------------------------- sorting the listing

  ghost predicate Ascending(paths: seq<CString>) {
    forall i, j :: 0 <= i < j < |paths| ==> Order(paths[i], paths[j]) <= 0
  }

  function InsertPath(x: CString, paths: seq<CString>): (r: seq<CString>)
    ensures multiset(r) == multiset{x} + multiset(paths)
  {
    if paths == [] then [x]
    else if Order(x, paths[0]) < 0 then [x] + paths
    else
      assert paths == [paths[0]] + paths[1..];
      [paths[0]] + InsertPath(x, paths[1..])
  }

  /** The listing sorted by `sort_directories`.  The order is total, so any correct sort
      returns this sequence. */
  function SortPaths(paths: seq<CString>): (r: seq<CString>)
    ensures multiset(r) == multiset(paths)
  {
    if paths == [] then []
    else
      assert paths == [paths[0]] + paths[1..];
      InsertPath(paths[0], SortPaths(paths[1..]))
  }

  lemma {:induction false} InsertAscending(x: CString, paths: seq<CString>)
    requires Ascending(paths)
    ensures Ascending(InsertPath(x, paths))
  {
    if paths == [] {
    } else if Order(x, paths[0]) < 0 {
      forall j | 0 <= j < |paths| ensures Order(x, paths[j]) <= 0 {
        TotalOrder(x, paths[0], paths[j]);
        TotalOrder(paths[0], paths[0], x);
      }
    } else {
      InsertAscending(x, paths[1..]);
      var rest := InsertPath(x, paths[1..]);
      forall j | 0 <= j < |rest| ensures Order(paths[0], rest[j]) <= 0 {
        assert rest[j] in multiset(rest);
        TotalOrder(x, paths[0], x);
        assert rest[j] == x || rest[j] in paths[1..];
      }
    }
  }

  lemma {:induction false} SortAscending(paths: seq<CString>)
    ensures Ascending(SortPaths(paths))
  {
    if paths != [] {
      SortAscending(paths[1..]);
      InsertAscending(paths[0], SortPaths(paths[1..]));
    }
  }

  lemma LeastHead(a: seq<CString>, b: seq<CString>)
    requires Ascending(b) && a != [] && multiset(a) == multiset(b)
    ensures b != [] && Order(b[0], a[0]) <= 0
  {
    assert a[0] in multiset(b);
    var i :| 0 <= i < |b| && b[i] == a[0];
    TotalOrder(a[0], a[0], a[0]);
  }

  /** Sorting has one result: two ascending permutations of a listing are the same. */
  lemma {:induction false} SortIsUnique(a: seq<CString>, b: seq<CString>)
    requires Ascending(a) && Ascending(b) && multiset(a) == multiset(b)
    ensures a == b
  {
    if a == [] {
      assert |multiset(b)| == 0;
    } else {
      LeastHead(a, b);
      LeastHead(b, a);
      TotalOrder(a[0], b[0], a[0]);
      TailOf(a);
      TailOf(b);
      SortIsUnique(a[1..], b[1..]);
    }
  }

  lemma TailOf(a: seq<CString>)
    requires Ascending(a) && a != []
    ensures a == [a[0]] + a[1..] && Ascending(a[1..])
    ensures multiset(a[1..]) == multiset(a) - multiset{a[0]}
  {
  }

  // ---------------------------------------------------------------- the search

  /** What find_uio_num does: return a number (-1 when nothing matches), or throw because a
      device information file cannot be read. */
  datatype Outcome = Returned(value: int) | Thrown

  function Scan(dirs: seq<CString>, names: map<int, CString>, device: CString, num: nat): Outcome {
    if dirs == [] then Returned(-1)
    else
      var n := UioNumber(dirs[0]);
      if n !in names then Thrown
      else if names[n] != device then Scan(dirs[1..], names, device, num)
      else if num == 0 then Returned(n)
      else Scan(dirs[1..], names, device, num - 1)
  }

  /** find_uio_num: `names` holds the readable driver names by uio number. */
  method FindUioNum(listing: seq<CString>, names: map<int, CString>, device: CString, deviceNum: nat)
    returns (r: Outcome)
    ensures r == Scan(SortPaths(listing), names, device, deviceNum)
  {
    r := CountMatches(SortPaths(listing), names, device, deviceNum);
  }

  /** The loop of find_uio_num over the sorted listing. */
  method CountMatches(dirs: seq<CString>, names: map<int, CString>, device: CString, deviceNum: nat)
    returns (r: Outcome)
    ensures r == Scan(dirs, names, device, deviceNum)
  {
    var count := 0;
    assert dirs[0..] == dirs;
    for k := 0 to |dirs|
      invariant 0 <= count <= deviceNum
      invariant Scan(dirs, names, device, deviceNum) == Scan(dirs[k..], names, device, deviceNum - count)
    {
      var n := GetUioNum(dirs[k]);
      if n >= 0 {
        if n !in names {
          return Thrown;
        }
        if names[n] == device {
          if count == deviceNum {
            return Returned(n);
          }
          count := count + 1;
        }
      }
    }
    r := Returned(-1);
  }

  // ---------------------------------------------------------------- the device_num-th match

  lemma {:induction false} DistinctCount<T>(s: seq<T>, x: T)
    requires Distinct(s)
    ensures multiset(s)[x] <= 1
  {
    if s != [] {
      assert s == [s[0]] + s[1..];
      DistinctCount(s[1..], x);
    }
  }

  lemma RepeatedCount<T>(s: seq<T>, i: nat, j: nat)
    requires i < j < |s| && s[i] == s[j]
    ensures multiset(s)[s[i]] >= 2
  {
    assert s == s[..j] + ([s[j]] + s[j + 1..]);
    assert s[..j][i] == s[i] && s[i] in multiset(s[..j]);
  }

  lemma DistinctPermutation<T>(a: seq<T>, b: seq<T>)
    requires Distinct(a) && multiset(a) == multiset(b)
    ensures Distinct(b)
  {
    forall i, j | 0 <= i < j < |b| ensures b[i] != b[j] {
      DistinctCount(a, b[i]);
      if b[i] == b[j] {
        RepeatedCount(b, i, j);
      }
    }
  }

  function PathOf(p: CString, n: nat): CString {
    p + Dec(n)
  }

  /** The listing of devices numbered `numbers` under a common prefix. */
  function Paths(p: CString, numbers: seq<nat>): (r: seq<CString>)
    ensures |r| == |numbers| && forall i :: 0 <= i < |r| ==> r[i] == p + Dec(numbers[i])
  {
    seq(|numbers|, i requires 0 <= i < |numbers| => PathOf(p, numbers[i]))
  }

  ghost function Matching(numbers: seq<nat>, names: map<int, CString>, device: CString): set<nat> {
    set n | n in numbers && n in names && names[n] == device
  }

  /** `r` is the number with exactly `num` smaller ones in `s`, or -1 when `s` is too small. */
  ghost predicate IsNth(r: Outcome, s: set<nat>, num: nat) {
    if |s| <= num then r == Returned(-1)
    else r.Returned? && r.value in s && |set m | m in s && m < r.value| == num
  }

  ghost predicate AllAbove(s: set<nat>, h: nat) {
    forall n :: n in s ==> h < n
  }

  lemma NthSkip(r: Outcome, rest: set<nat>, h: nat, num: nat)
    requires num > 0 && IsNth(r, rest, num - 1)
    requires AllAbove(rest, h)
    ensures IsNth(r, rest + {h}, num)
  {
    if |rest| > num - 1 {
      assert (set m | m in rest + {h} && m < r.value) == (set m | m in rest && m < r.value) + {h};
    }
  }

  lemma NthFirst(rest: set<nat>, h: nat)
    requires AllAbove(rest, h)
    ensures IsNth(Returned(h), rest + {h}, 0)
  {
    assert (set m | m in rest + {h} && m < h) == {};
    assert h in rest + {h};
  }

  lemma MatchingCons(numbers: seq<nat>, names: map<int, CString>, device: CString)
    requires numbers != [] && numbers[0] in names
    ensures Matching(numbers, names, device) ==
            Matching(numbers[1..], names, device) + (if names[numbers[0]] == device then {numbers[0]} else {})
  {
    assert numbers == [numbers[0]] + numbers[1..];
  }

  /** The search, on device numbers instead of paths. */
  function ScanNumbers(numbers: seq<nat>, names: map<int, CString>, device: CString, num: nat): Outcome {
    if numbers == [] then Returned(-1)
    else if numbers[0] !in names then Thrown
    else if names[numbers[0]] != device then ScanNumbers(numbers[1..], names, device, num)
    else if num == 0 then Returned(numbers[0])
    else ScanNumbers(numbers[1..], names, device, num - 1)
  }

  lemma {:induction false} ScanPaths(p: CString, numbers: seq<nat>, names: map<int, CString>, device: CString, num: nat)
    requires DigitFree(p)
    ensures Scan(Paths(p, numbers), names, device, num) == ScanNumbers(numbers, names, device, num)
    decreases |numbers|
  {
    if numbers != [] {
      UioNumberOfPath(p, numbers[0]);
      assert Paths(p, numbers)[0] == p + Dec(numbers[0]);
      assert Paths(p, numbers)[1..] == Paths(p, numbers[1..]);
      ScanPaths(p, numbers[1..], names, device, num);
      if num > 0 {
        ScanPaths(p, numbers[1..], names, device, num - 1);
      }
    }
  }

  ghost predicate StrictlyUp(numbers: seq<nat>) {
    forall i, j :: 0 <= i < j < |numbers| ==> numbers[i] < numbers[j]
  }

  /** What the first device adds to the search of the rest. */
  lemma {:induction false} ScanFirst(numbers: seq<nat>, names: map<int, CString>, device: CString, num: nat)
    requires numbers != [] && StrictlyUp(numbers) && numbers[0] in names
    requires var t, rest := numbers[1..], Matching(numbers[1..], names, device);
             if names[numbers[0]] != device then IsNth(ScanNumbers(t, names, device, num), rest, num)
             else num > 0 ==> IsNth(ScanNumbers(t, names, device, num - 1), rest, num - 1)
    ensures IsNth(ScanNumbers(numbers, names, device, num), Matching(numbers, names, device), num)
  {
    var h, t := numbers[0], numbers[1..];
    var rest := Matching(t, names, device);
    MatchingCons(numbers, names, device);
    if names[h] != device {
      assert rest + {} == rest;
    } else if num == 0 {
      NthFirst(rest, h);
    } else {
      NthSkip(ScanNumbers(t, names, device, num - 1), rest, h, num);
    }
  }

  ghost function Below(s: set<nat>, u: nat): set<nat> {
    set m | m in s && m < u
  }

  /** Some device whose name cannot be read comes before the match asked for. */
  ghost predicate Blocked(numbers: seq<nat>, names: map<int, CString>, device: CString, num: nat) {
    exists u :: u in numbers && u !in names && |Below(Matching(numbers, names, device), u)| <= num
  }

  lemma BelowPlusHead(rest: set<nat>, h: nat, u: nat)
    requires h !in rest && h < u
    ensures |Below(rest + {h}, u)| == |Below(rest, u)| + 1
  {
    assert Below(rest + {h}, u) == Below(rest, u) + {h};
  }

  /** A readable first device is no obstacle; if it matches, one match fewer is left to find. */
  lemma BlockedByRest(numbers: seq<nat>, names: map<int, CString>, device: CString, num: nat)
    requires numbers != [] && StrictlyUp(numbers) && numbers[0] in names
    ensures var t := numbers[1..];
            Blocked(numbers, names, device, num) <==>
            if names[numbers[0]] != device then Blocked(t, names, device, num)
            else num > 0 && Blocked(t, names, device, num - 1)
  {
    var h, t := numbers[0], numbers[1..];
    var all, rest := Matching(numbers, names, device), Matching(t, names, device);
    MatchingCons(numbers, names, device);
    assert numbers == [h] + t;
    forall u | u in t && u !in names
      ensures |Below(all, u)| == |Below(rest, u)| + if names[h] == device then 1 else 0
    {
      if names[h] == device {
        BelowPlusHead(rest, h, u);
      } else {
        assert all == rest;
      }
    }
  }

  lemma {:induction false} ScanAscending(numbers: seq<nat>, names: map<int, CString>, device: CString, num: nat)
    requires StrictlyUp(numbers)
    ensures var r := ScanNumbers(numbers, names, device, num);
            if Blocked(numbers, names, device, num) then r == Thrown else IsNth(r, Matching(numbers, names, device), num)
    decreases |numbers|
  {
    if numbers == [] {
      assert Matching(numbers, names, device) == {};
    } else if numbers[0] !in names {
    } else {
      BlockedByRest(numbers, names, device, num);
      if names[numbers[0]] != device {
        ScanAscending(numbers[1..], names, device, num);
      } else if num > 0 {
        ScanAscending(numbers[1..], names, device, num - 1);
      }
      if !Blocked(numbers, names, device, num) {
        ScanFirst(numbers, names, device, num);
      }
    }
  }

  lemma MemberOfListing(p: CString, numbers: seq<nat>, dirs: seq<CString>, i: nat)
    requires multiset(dirs) == multiset(Paths(p, numbers)) && i < |dirs|
    ensures exists k :: 0 <= k < |numbers| && dirs[i] == p + Dec(numbers[k])
  {
    assert dirs[i] in multiset(Paths(p, numbers));
  }

  /** The numbers behind a permutation of a listing. */
  lemma NumbersOf(p: CString, numbers: seq<nat>, dirs: seq<CString>) returns (ns: seq<nat>)
    requires multiset(dirs) == multiset(Paths(p, numbers)) && DigitFree(p)
    ensures dirs == Paths(p, ns)
    ensures forall n :: n in ns <==> n in numbers
  {
    forall i | 0 <= i < |dirs| ensures exists k :: 0 <= k < |numbers| && dirs[i] == p + Dec(numbers[k]) {
      MemberOfListing(p, numbers, dirs, i);
    }
    ns := seq(|dirs|, i requires 0 <= i < |dirs| => NumberIn(p, numbers, dirs[i]));
    assert dirs == Paths(p, ns);
    AllNumbersFound(p, numbers, ns);
  }

  lemma AllNumbersFound(p: CString, numbers: seq<nat>, ns: seq<nat>)
    requires multiset(Paths(p, ns)) == multiset(Paths(p, numbers)) && DigitFree(p)
    ensures forall n :: n in numbers ==> n in ns
  {
    forall k | 0 <= k < |numbers| ensures numbers[k] in ns {
      assert Paths(p, numbers)[k] in multiset(Paths(p, ns));
      var i :| 0 <= i < |ns| && Paths(p, ns)[i] == Paths(p, numbers)[k];
      UioNumberOfPath(p, numbers[k]);
      UioNumberOfPath(p, ns[i]);
    }
  }

  /** The sorted listing of numbered devices is the listing of the sorted numbers. */
  lemma SortedListing(p: CString, numbers: seq<nat>) returns (sorted: seq<nat>)
    requires DigitFree(p) && Distinct(numbers)
    ensures SortPaths(Paths(p, numbers)) == Paths(p, sorted)
    ensures StrictlyUp(sorted)
    ensures forall n :: n in sorted <==> n in numbers
  {
    var paths := Paths(p, numbers);
    var dirs := SortPaths(paths);
    SortAscending(paths);
    PathsDistinct(p, numbers);
    DistinctPermutation(paths, dirs);
    sorted := NumbersOf(p, numbers, dirs);
    forall i, j | 0 <= i < j < |sorted| ensures sorted[i] < sorted[j] {
      assert dirs[i] == p + Dec(sorted[i]) && dirs[j] == p + Dec(sorted[j]);
      NumericOrder(p, sorted[i], sorted[j]);
      assert dirs[i] != dirs[j];
    }
  }

  ghost function NumberIn(p: CString, numbers: seq<nat>, path: CString): (n: nat)
    requires exists k :: 0 <= k < |numbers| && path == p + Dec(numbers[k])
    ensures n in numbers && path == p + Dec(n)
  {
    var k :| 0 <= k < |numbers| && path == p + Dec(numbers[k]);
    numbers[k]
  }

  lemma PathsDistinct(p: CString, numbers: seq<nat>)
    requires DigitFree(p) && Distinct(numbers)
    ensures Distinct(Paths(p, numbers))
  {
    var paths := Paths(p, numbers);
    forall i, j | 0 <= i < j < |paths| ensures paths[i] != paths[j] {
      UioNumberOfPath(p, numbers[i]);
      UioNumberOfPath(p, numbers[j]);
    }
  }

  /** For every listing order of distinctly numbered devices, the search throws exactly when a device
      whose name cannot be read comes before the device_num-th match; otherwise it returns that
      match in ascending uio number, and -1 exactly when fewer match. */
  lemma FindsNthDevice(p: CString, numbers: seq<nat>, names: map<int, CString>, device: CString, num: nat)
    requires DigitFree(p) && Distinct(numbers)
    ensures var r := Scan(SortPaths(Paths(p, numbers)), names, device, num);
            if Blocked(numbers, names, device, num) then r == Thrown else IsNth(r, Matching(numbers, names, device), num)
  {
    var sorted := SortedListing(p, numbers);
    assert Matching(sorted, names, device) == Matching(numbers, names, device);
    ScanPaths(p, sorted, names, device, num);
    ScanAscending(sorted, names, device, num);
  }
}
