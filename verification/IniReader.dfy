/** INIReader (src/core/libs/INIReader.cc): the map of configuration values, its case-insensitive
    keys, and the section test that looks only at one lower-bound key. */
module IniReader {

  // ---------------------------------------------------------------- keys

  /** tolower in the C locale. */
  function Lower(c: char): char {
    if 'A' <= c <= 'Z' then ((c as int) + 32) as char else c
  }

  function LowerAll(s: string): (r: string)
    ensures |r| == |s| && forall i :: 0 <= i < |s| ==> r[i] == Lower(s[i])
  {
    seq(|s|, i requires 0 <= i < |s| => Lower(s[i]))
  }

  function Key(section: string, name: string): string {
    LowerAll(section + "." + name)
  }

  /** MakeKey: the key is built and then lowered in place. */
  method MakeKey(section: string, name: string) returns (key: string)
    ensures key == Key(section, name)
  {
    key := section + "." + name;
    var n := |key|;
    for i := 0 to n
      invariant |key| == n
      invariant forall j :: 0 <= j < n ==> key[j] == if j < i then Lower((section + "." + name)[j]) else (section + "." + name)[j]
    {
      key := key[i := Lower(key[i])];
    }
  }

  /** The same character, or the same letter of the alphabet in two cases. */
  predicate SameUpToCase(a: char, b: char) {
    || a == b
    || ('A' <= a <= 'Z' && 'a' <= b <= 'z' && (a as int) - ('A' as int) == (b as int) - ('a' as int))
    || ('a' <= a <= 'z' && 'A' <= b <= 'Z' && (a as int) - ('a' as int) == (b as int) - ('A' as int))
  }

  lemma CaseExactly(a: char, b: char)
    ensures Lower(a) == Lower(b) <==> SameUpToCase(a, b)
  {
    assert (Lower(a) as int) == if 'A' <= a <= 'Z' then (a as int) + 32 else a as int;
    assert (Lower(b) as int) == if 'A' <= b <= 'Z' then (b as int) + 32 else b as int;
  }

  /** Two pairs have one key if and only if they spell the same up to case, a dot between section and
      name. */
  lemma KeysEqualExactly(s: string, n: string, t: string, m: string)
    ensures Key(s, n) == Key(t, m) <==>
            var a, b := s + "." + n, t + "." + m;
            |a| == |b| && forall i :: 0 <= i < |a| ==> SameUpToCase(a[i], b[i])
  {
    var a, b := s + "." + n, t + "." + m;
    forall i | 0 <= i < |a| && i < |b| ensures SameUpToCase(a[i], b[i]) <==> Lower(a[i]) == Lower(b[i]) {
      CaseExactly(a[i], b[i]);
    }
  }

  // ---------------------------------------------------------------- string order

  /** Strict lexicographic order, as std::map orders its keys. */
  predicate Less(a: string, b: string) {
    b != "" && (a == "" || a[0] < b[0] || (a[0] == b[0] && Less(a[1..], b[1..])))
  }

  predicate AtMost(a: string, b: string) {
    !Less(b, a)
  }

  lemma {:induction false} LessTotal(a: string, b: string)
    ensures Less(a, b) || Less(b, a) || a == b
    ensures !(Less(a, b) && Less(b, a)) && !Less(a, a)
    decreases |a|
  {
    if a != "" {
      LessTotal(a[1..], a[1..]);
      if b != "" {
        LessTotal(a[1..], b[1..]);
        assert a == [a[0]] + a[1..] && b == [b[0]] + b[1..];
      }
    }
  }

  lemma {:induction false} LessTransitive(a: string, b: string, c: string)
    requires Less(a, b) && Less(b, c)
    ensures Less(a, c)
  {
    if a != "" && a[0] == b[0] == c[0] {
      LessTransitive(a[1..], b[1..], c[1..]);
    }
  }

  /** Strings that start with `p` come at or after `p`, and lie together. */
  lemma {:induction false} PrefixIsInterval(p: string, m: string, k: string)
    requires p <= k && AtMost(p, m) && AtMost(m, k)
    ensures p <= m
  {
    if p != "" {
      assert k[0] == p[0];
      if m != "" {
        assert m[0] == p[0];
        assert p[1..] <= k[1..];
        PrefixIsInterval(p[1..], m[1..], k[1..]);
        assert p == [p[0]] + p[1..] && m == [m[0]] + m[1..];
      }
    }
  }

  lemma {:induction false} PrefixFirst(p: string, k: string)
    requires p <= k
    ensures AtMost(p, k)
  {
    if p != "" {
      assert p[0] == k[0];
      assert p[1..] <= k[1..];
      PrefixFirst(p[1..], k[1..]);
    }
  }

  // ---------------------------------------------------------------- the reader

  /** One handler call of the parser. */
  datatype Call = Call(section: string, name: string, value: string)

  /** The map after a history of handler calls. */
  function Values(calls: seq<Call>): map<string, string> {
    if calls == [] then map[]
    else
      var c := calls[|calls| - 1];
      Values(calls[..|calls| - 1])[Key(c.section, c.name) := c.value]
  }

  /** Index of the last call whose key is `key`, or -1. */
  function LastCall(calls: seq<Call>, key: string): (i: int)
    ensures -1 <= i < |calls|
    ensures i >= 0 ==> Key(calls[i].section, calls[i].name) == key
    ensures forall j :: i < j < |calls| ==> Key(calls[j].section, calls[j].name) != key
  {
    if calls == [] then -1
    else
      var n := |calls| - 1;
      if Key(calls[n].section, calls[n].name) == key then n else LastCall(calls[..n], key)
  }

  /** The map holds, for each key, the value of the last call with that key. */
  lemma {:induction false} LastCallWins(calls: seq<Call>, key: string)
    ensures key in Values(calls) <==> LastCall(calls, key) >= 0
    ensures LastCall(calls, key) >= 0 ==> Values(calls)[key] == calls[LastCall(calls, key)].value
  {
    if calls != [] {
      LastCallWins(calls[..|calls| - 1], key);
    }
  }

  /** The least key of a map that is not less than `key`, if any (std::map::lower_bound). */
  ghost predicate IsLowerBound(values: map<string, string>, key: string, k: string) {
    k in values && AtMost(key, k) && forall m :: m in values && AtMost(key, m) ==> AtMost(k, m)
  }

  class Reader {
    var values: map<string, string>
    ghost var calls: seq<Call>

    /** The map agrees with the parse history. */
    ghost predicate Valid()
      reads this
    {
      values == Values(calls)
    }

    constructor ()
      ensures Valid() && calls == []
    {
      values, calls := map[], [];
    }

    /** ValueHandler: records a parsed pair and reports success. */
    method ValueHandler(section: string, name: string, value: string) returns (ok: int)
      requires Valid()
      modifies this
      ensures Valid() && calls == old(calls) + [Call(section, name, value)] && ok == 1
    {
      var key := MakeKey(section, name);
      values := values[key := value];
      calls := calls + [Call(section, name, value)];
      assert calls[..|calls| - 1] == old(calls);
      ok := 1;
    }

    /** Get: the last parsed value with a case-insensitively equal key, else the default. */
    method Get(section: string, name: string, defaultValue: string) returns (r: string)
      requires Valid()
      ensures var i := LastCall(calls, Key(section, name));
              r == if i >= 0 then calls[i].value else defaultValue
    {
      var key := MakeKey(section, name);
      LastCallWins(calls, key);
      r := if key in values then values[key] else defaultValue;
    }

    /** HasValue */
    method HasValue(section: string, name: string) returns (r: bool)
      requires Valid()
      ensures r <==> exists i :: 0 <= i < |calls| && Key(calls[i].section, calls[i].name) == Key(section, name)
    {
      var key := MakeKey(section, name);
      LastCallWins(calls, key);
      r := key in values;
    }

    /** HasSection inspects only the lower bound of "section.", yet is true exactly when some
        parsed key starts with it. */
    method HasSection(section: string) returns (r: bool)
      requires Valid()
      ensures r <==> SomeKeyStartsWith(calls, Key(section, ""))
      ensures '.' !in section && UndottedSections(calls) ==> (r <==> SomeSection(calls, section))
    {
      var key := MakeKey(section, "");
      var found, bound := LowerBound(key);
      r := found && key <= bound;
      SectionPrefix(calls, key, found, bound);
      if '.' !in section && UndottedSections(calls) {
        UndottedIsRight(calls, section);
      }
    }

    /** std::map::lower_bound, by a scan over the keys. */
    method LowerBound(key: string) returns (found: bool, bound: string)
      ensures found ==> IsLowerBound(values, key, bound)
      ensures !found ==> forall m :: m in values ==> !AtMost(key, m)
    {
      found, bound := false, "";
      var todo := values.Keys;
      while todo != {}
        invariant todo <= values.Keys
        invariant found ==> bound in values && AtMost(key, bound) && forall m :: m in values && m !in todo && AtMost(key, m) ==> AtMost(bound, m)
        invariant !found ==> forall m :: m in values && m !in todo ==> !AtMost(key, m)
        decreases |todo|
      {
        var k :| k in todo;
        todo := todo - {k};
        LessTotal(k, k);
        if AtMost(key, k) {
          if !found {
            found, bound := true, k;
          } else if Less(k, bound) {
            SmallerBound(values, key, bound, k, todo);
            bound := k;
          }
        }
      }
    }
  }

  lemma SmallerBound(values: map<string, string>, key: string, bound: string, k: string, todo: set<string>)
    requires Less(k, bound)
    requires forall m :: m in values && m !in todo && m != k && AtMost(key, m) ==> AtMost(bound, m)
    ensures forall m :: m in values && m !in todo && AtMost(key, m) ==> AtMost(k, m)
  {
    forall m | m in values && m !in todo && AtMost(key, m) ensures AtMost(k, m) {
      LessTotal(k, m);
      LessTotal(bound, m);
      if m != k && Less(m, k) {
        LessTransitive(m, k, bound);
      }
    }
  }

  ghost predicate SomeKeyStartsWith(calls: seq<Call>, key: string) {
    exists i :: 0 <= i < |calls| && key <= Key(calls[i].section, calls[i].name)
  }

  lemma BoundIsRecorded(calls: seq<Call>, key: string, bound: string)
    requires bound in Values(calls) && key <= bound
    ensures SomeKeyStartsWith(calls, key)
  {
    LastCallWins(calls, bound);
    var i := LastCall(calls, bound);
    assert key <= Key(calls[i].section, calls[i].name);
  }

  lemma RecordedIsBounded(calls: seq<Call>, key: string, i: nat)
    requires i < |calls| && key <= Key(calls[i].section, calls[i].name)
    ensures exists m :: m in Values(calls) && AtMost(key, m)
    ensures forall bound :: IsLowerBound(Values(calls), key, bound) ==> key <= bound
  {
    var k := Key(calls[i].section, calls[i].name);
    LastCallWins(calls, k);
    PrefixFirst(key, k);
    forall bound | IsLowerBound(Values(calls), key, bound) ensures key <= bound {
      PrefixIsInterval(key, bound, k);
    }
  }

  /** The lower bound starts with the prefix exactly when some recorded key does. */
  lemma SectionPrefix(calls: seq<Call>, key: string, found: bool, bound: string)
    requires found ==> IsLowerBound(Values(calls), key, bound)
    requires !found ==> forall m :: m in Values(calls) ==> !AtMost(key, m)
    ensures found && key <= bound <==> SomeKeyStartsWith(calls, key)
  {
    if found && key <= bound {
      BoundIsRecorded(calls, key, bound);
    }
    if SomeKeyStartsWith(calls, key) {
      var i :| 0 <= i < |calls| && key <= Key(calls[i].section, calls[i].name);
      RecordedIsBounded(calls, key, i);
    }
  }

  // ---------------------------------------------------------------- what HasSection answers

  predicate SameSection(s: string, section: string) {
    LowerAll(s) == LowerAll(section)
  }

  /** The parsed section begins with `s` and a dot. */
  predicate Nested(s: string, section: string) {
    LowerAll(s) + "." <= LowerAll(section)
  }

  /** `s` runs past the parsed section and a dot into the name, where a dot follows. */
  predicate RunsInto(s: string, section: string, name: string) {
    LowerAll(section) + "." <= LowerAll(s) && LowerAll(s)[|section| + 1..] + "." <= LowerAll(name)
  }

  lemma KeyIs(section: string, name: string)
    ensures Key(section, name) == LowerAll(section) + "." + LowerAll(name)
  {
  }

  /** A longer one covers the first part and goes on into the second. */
  lemma LongPrefix(x: string, q: string, y: string)
    ensures x + q <= x + y <==> q <= y
  {
    if x + q <= x + y {
      assert x + q == (x + y)[..|x| + |q|] == x + y[..|q|];
      assert q == (x + q)[|x|..] && y[..|q|] == (x + y[..|q|])[|x|..];
    }
    if q <= y {
      assert x + y == (x + q) + y[|q|..];
    }
  }

  lemma CoversFirst(a: string, x: string, y: string)
    requires |x| <= |a| && a + "." <= x + y
    ensures x <= a
  {
    assert a == (a + ".")[..|a|] == (x + y)[..|a|];
    assert x == (x + y)[..|x|];
  }

  lemma DottedPrefix(a: string, c: string, y: string)
    ensures a + "." <= c + "." + y <==>
            a == c || a + "." <= c || (c + "." <= a && a[|c| + 1..] + "." <= y)
  {
    var p, x := a + ".", c + ".";
    if |a| <= |c| {
      if |a| < |c| {
      } else {
        assert p <= x ==> p[..|a|] == x[..|a|];
      }
    } else {
      if p <= x + y {
        CoversFirst(a, x, y);
      }
      if x <= a {
        assert a == x + a[|x|..];
        assert p == x + (a[|x|..] + ".");
        LongPrefix(x, a[|x|..] + ".", y);
      }
    }
  }

  /** Exactly when the key of "s." is a prefix of a parsed key: the sections are equal up to case,
      the parsed one is nested in `s`, or `s` runs into the parsed name. */
  lemma SectionKeyExactly(s: string, section: string, name: string)
    ensures Key(s, "") <= Key(section, name) <==>
            SameSection(s, section) || Nested(s, section) || RunsInto(s, section, name)
  {
    KeyIs(s, "");
    KeyIs(section, name);
    assert LowerAll(s) + "." + LowerAll("") == LowerAll(s) + ".";
    DottedPrefix(LowerAll(s), LowerAll(section), LowerAll(name));
  }

  ghost predicate SomeSection(calls: seq<Call>, s: string) {
    exists i :: 0 <= i < |calls| && SameSection(s, calls[i].section)
  }

  ghost predicate UndottedSections(calls: seq<Call>) {
    forall i :: 0 <= i < |calls| ==> '.' !in calls[i].section
  }

  lemma PrefixDot(p: string, t: string)
    requires p + "." <= t
    ensures '.' in t
  {
    assert t[|p|] == '.';
  }

  /** Without dots in section names the answer is right. */
  lemma UndottedIsRight(calls: seq<Call>, s: string)
    requires '.' !in s && UndottedSections(calls)
    ensures SomeKeyStartsWith(calls, Key(s, "")) <==> SomeSection(calls, s)
  {
    forall i | 0 <= i < |calls| ensures Key(s, "") <= Key(calls[i].section, calls[i].name) <==> SameSection(s, calls[i].section) {
      SectionKeyExactly(s, calls[i].section, calls[i].name);
      if Nested(s, calls[i].section) {
        PrefixDot(LowerAll(s), LowerAll(calls[i].section));
      }
      if RunsInto(s, calls[i].section, calls[i].name) {
        PrefixDot(LowerAll(calls[i].section), LowerAll(s));
      }
    }
  }

  /** For a name without dots and any history of calls, HasSection is right if and only if the section
      exists or no parsed section is nested in it. */
  lemma NestedExactly(calls: seq<Call>, s: string)
    requires '.' !in s
    ensures (SomeKeyStartsWith(calls, Key(s, "")) <==> SomeSection(calls, s)) <==>
            SomeSection(calls, s) || forall i :: 0 <= i < |calls| ==> !Nested(s, calls[i].section)
  {
    forall i | 0 <= i < |calls|
      ensures Key(s, "") <= Key(calls[i].section, calls[i].name) <==> SameSection(s, calls[i].section) || Nested(s, calls[i].section)
    {
      SectionKeyExactly(s, calls[i].section, calls[i].name);
      if RunsInto(s, calls[i].section, calls[i].name) {
        PrefixDot(LowerAll(calls[i].section), LowerAll(s));
      }
    }
  }
}
