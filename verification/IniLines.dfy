/** What the INI parser (src/core/libs/ini.cc) makes of lines as people write them: spaces around
    names and values, trailing comments, continuation lines, overlong lines. */
module IniLines {
  import opened Collections
  import opened IniReader
  import opened Ini

  // ---------------------------------------------------------------- spaces

  predicate BlankChar(c: char) {
    c == ' ' || c == '\t' || c == '\n' || c == '\U{0B}' || c == '\U{0C}' || c == '\r'
  }

  predicate Blank(s: string) {
    forall i :: 0 <= i < |s| ==> BlankChar(s[i])
  }

  /** Does not start or end with a space. */
  predicate Solid(s: string) {
    s == "" || (!BlankChar(s[0]) && !BlankChar(s[|s| - 1]))
  }

  /** Spaces, then nothing or a comment. */
  predicate Trailer(s: string) {
    exists n :: 0 <= n <= |s| && Blank(s[..n]) && (n < |s| ==> s[n] == ';')
  }

  lemma BlankParts(s: string, n: nat)
    requires n <= |s|
    ensures Blank(s[..n]) <==> forall i :: 0 <= i < n ==> IsSpace(s[i])
    ensures Blank(s[n..]) <==> forall i :: n <= i < |s| ==> IsSpace(s[i])
  {
    if Blank(s[n..]) {
      forall i | n <= i < |s| ensures IsSpace(s[i]) {
        assert s[n..][i - n] == s[i];
      }
    }
    if Blank(s[..n]) {
      forall i | 0 <= i < n ensures IsSpace(s[i]) {
        assert s[..n][i] == s[i];
      }
    }
  }

  lemma SolidIsTrimmed(s: string)
    ensures Solid(s) <==> Trimmed(s)
  {
  }

  lemma {:induction false} TrimIs(s: string, n: nat)
    requires n <= |s| && Blank(s[n..]) && (n > 0 ==> !IsSpace(s[n - 1]))
    ensures TrimRight(s) == s[..n]
  {
    BlankParts(s, n);
    TrimRightFacts(s);
  }

  lemma {:induction false} SkipIs(s: string, n: nat)
    requires n <= |s| && Blank(s[..n]) && (n < |s| ==> !IsSpace(s[n]))
    ensures SkipSpaces(s, 0) == n
  {
    BlankParts(s, n);
    SkipSpacesFacts(s, 0);
  }

  // ---------------------------------------------------------------- what the buffer holds

  lemma {:induction false} BeforeNulKeeps(head: string, rest: string)
    requires NUL !in head
    ensures BeforeNul(head + rest) == head + BeforeNul(rest)
  {
    if head == "" {
      assert head + rest == rest;
    } else {
      assert (head + rest)[1..] == head[1..] + rest;
      BeforeNulKeeps(head[1..], rest);
      assert head == [head[0]] + head[1..];
    }
  }

  lemma {:induction false} BeforeNulPrefix(s: string)
    ensures BeforeNul(s) <= s
  {
    if s != "" && s[0] != NUL {
      BeforeNulPrefix(s[1..]);
    }
  }

  /** The text of a line is what fits of it, up to a NUL, without the spaces at its end. */
  lemma TextShape(head: string, rest: string) returns (kept: string)
    requires NUL !in head && |head| < 200
    ensures kept <= rest && Text(head + rest) == TrimRight(head + kept)
  {
    var cut := Take(head + rest, 199);
    var part := cut[|head|..];
    assert cut == head + part;
    BeforeNulKeeps(head, part);
    BeforeNulPrefix(part);
    kept := BeforeNul(part);
  }

  lemma TrailerPrefix(s: string, p: string)
    requires Trailer(s) && p <= s
    ensures Trailer(p)
  {
    var n :| 0 <= n <= |s| && Blank(s[..n]) && (n < |s| ==> s[n] == ';');
    var m := if n <= |p| then n else |p|;
    assert p[..m] == s[..n][..m];
    assert Blank(p[..m]);
  }

  // ---------------------------------------------------------------- pairs

  /** A value between spaces and a trailer, of which spaces at the end may be missing. */
  lemma {:induction false} ValueBetween(w: string, value: string, trailer: string, s: string)
    requires Blank(w) && Solid(value) && ';' !in value && Trailer(trailer)
    requires s <= w + value + trailer && Blank((w + value + trailer)[|s|..])
    ensures ValueText(s) == value
  {
    SolidIsTrimmed(value);
    if value == "" {
      assert w + value + trailer == w + trailer;
      BlankThenTrailer(w, trailer);
      EmptyValue(w + trailer, s);
    } else {
      FilledValue(w, value, trailer, s);
    }
  }

  lemma BlankThenTrailer(w: string, t: string)
    requires Blank(w) && Trailer(t)
    ensures Trailer(w + t)
  {
    var n :| 0 <= n <= |t| && Blank(t[..n]) && (n < |t| ==> t[n] == ';');
    assert (w + t)[..|w| + n] == w + t[..n];
    assert Blank((w + t)[..|w| + n]);
  }

  lemma {:induction false} FilledValue(w: string, value: string, trailer: string, s: string)
    requires Blank(w) && Trimmed(value) && value != "" && ';' !in value && Trailer(trailer)
    requires s <= w + value + trailer && Blank((w + value + trailer)[|s|..])
    ensures ValueText(s) == value
  {
    var all, n := w + value + trailer, |w + value|;
    BlankParts(all, |s|);
    assert all[n - 1] == value[|value| - 1];
    assert |s| >= n;
    assert s[..|w|] == w && s[|w|] == value[0];
    SkipIs(s, |w|);
    var v, t := s[|w|..], s[n..];
    assert v == value + t;
    assert t <= trailer;
    TrailerPrefix(trailer, t);
    CutAfter(value, t);
  }

  lemma {:induction false} CutAfter(value: string, t: string)
    requires Trimmed(value) && value != "" && ';' !in value && Trailer(t)
    ensures var v := value + t; TrimRight(v[..Find(v, 0, ';')]) == value
  {
    var v := value + t;
    var n :| 0 <= n <= |t| && Blank(t[..n]) && (n < |t| ==> t[n] == ';');
    var k := |value| + n;
    BlankParts(t, n);
    assert forall j :: |value| <= j < k ==> v[j] == t[j - |value|];
    FindIs(v, 0, ';', k);
    assert v[..k][|value|..] == t[..n] && v[..k][..|value|] == value;
    TrimIs(v[..k], |value|);
  }

  lemma {:induction false} EmptyValue(all: string, s: string)
    requires s <= all && Blank(all[|s|..]) && Trailer(all)
    ensures ValueText(s) == ""
  {
    TrailerPrefix(all, s);
    var n :| 0 <= n <= |s| && Blank(s[..n]) && (n < |s| ==> s[n] == ';');
    SkipIs(s, n);
    var v := s[n..];
    assert v != "" ==> v[0] == ';';
  }

  /** Names and values of a pair, in whatever spaces they stand. */
  predicate Pair(name: string, value: string) {
    && Solid(name) && '=' !in name && ';' !in name && '\0' !in name && (name != "" ==> name[0] != '[')
    && Solid(value) && ';' !in value && '\0' !in value
  }

  /** What a pair does: the handler call, and its name, cut to 49 characters, as the previous name. */
  function PairResult(section: string, name: string, value: string): LineResult {
    LineResult(section, if |name| < 50 then name else name[..49], Some(Call(section, name, value)), false)
  }

  /** A pair is read as written: spaces around the equals sign, spaces after the value and a comment
      after it make no difference.  Only what precedes the end of the value has to fit the buffer; the
      comment may contain anything. */
  lemma PairLine(section: string, prevName: string, name: string, w1: string, w2: string, value: string, trailer: string)
    requires Pair(name, value) && Blank(w1) && Blank(w2) && Trailer(trailer)
    requires (name == "" ==> w1 == "") && |name + w1 + "=" + w2 + value| < 200
    ensures ParseLine(section, prevName, name + w1 + "=" + w2 + value + trailer) == PairResult(section, name, value)
  {
    var head := name + w1 + "=" + w2 + value;
    PlainPair(name, w1, w2, value);
    var kept := TextShape(head, trailer);
    TrailerPrefix(trailer, kept);
    Regroup(name + w1 + "=", w2, value, kept);
    PairParsed(section, prevName, name + w1 + "=", name, w1, w2 + value + kept, value, w2, kept);
  }

  lemma PlainPair(name: string, w1: string, w2: string, value: string)
    requires Pair(name, value) && Blank(w1) && Blank(w2)
    ensures '\0' !in name + w1 + "=" + w2 + value
  {
    assert '\0' !in w1 && '\0' !in w2;
    assert '\0' !in name + w1;
    assert '\0' !in name + w1 + "=";
    assert '\0' !in name + w1 + "=" + w2;
  }

  lemma Regroup(a: string, b: string, c: string, d: string)
    ensures a + b + c + d == a + (b + c + d)
  {
  }

  lemma {:induction false} PairParsed(section: string, prevName: string, head: string, name: string, w1: string,
                                      rest: string, value: string, w2: string, trailer: string)
    requires Pair(name, value) && Blank(w1) && Blank(w2) && Trailer(trailer) && (name == "" ==> w1 == "")
    requires head == name + w1 + "=" && rest == w2 + value + trailer
    ensures ParseText(section, prevName, TrimRight(head + rest)) == PairResult(section, name, value)
  {
    var text, k := TrimRight(head + rest), |name + w1|;
    PairKeeps(head, rest);
    NameEnds(name, w1, text);
    ValueBetween(w2, value, trailer, text[k + 1..]);
    PairEvaluates(section, prevName, text, k, name, value);
  }

  /** Only spaces after the equals sign are cut from the end of a line. */
  lemma {:induction false} PairKeeps(head: string, rest: string)
    requires head != "" && head[|head| - 1] == '='
    ensures var text := TrimRight(head + rest);
            head <= text && text[|head|..] <= rest && Blank(rest[|text[|head|..]|..])
  {
    var all := head + rest;
    var text := TrimRight(all);
    TrimRightFacts(all);
    assert all[|head| - 1] == '=';
    assert |text| >= |head|;
    assert text == head + rest[..|text| - |head|];
    BlankParts(all, |text|);
    assert rest[|text| - |head|..] == all[|text|..];
  }

  /** Where the name of a pair ends. */
  lemma {:induction false} NameEnds(name: string, w: string, text: string)
    requires Solid(name) && '=' !in name && ';' !in name && (name != "" ==> name[0] != '[') && Blank(w)
    requires (name == "" ==> w == "") && name + w + "=" <= text
    ensures var k := |name + w|; PairAt(text, k) && TrimRight(text[..k]) == name
  {
    var k := |name + w|;
    SolidIsTrimmed(name);
    assert text[..k] == name + w && text[k] == '=';
    assert forall j :: 0 <= j < k ==> text[j] == (name + w)[j];
    FindIs(text, 0, '=', k);
    assert (name + w)[|name|..] == w && (name + w)[..|name|] == name;
    TrimIs(name + w, |name|);
  }

  /** The text is a pair with its equals sign at `k`. */
  predicate PairAt(text: string, k: nat) {
    && k < |text| && text[k] == '=' && Find(text, 0, '=') == k
    && SkipSpaces(text, 0) == 0 && text[0] != ';' && text[0] != '['
  }

  lemma {:induction false} PairEvaluates(section: string, prevName: string, text: string, k: nat, name: string, value: string)
    requires PairAt(text, k) && TrimRight(text[..k]) == name && ValueText(text[k + 1..]) == value
    ensures ParseText(section, prevName, text) == PairResult(section, name, value)
  {
  }

  // ---------------------------------------------------------------- other lines

  /** A line that starts with a space and is not blank continues the previous name: the handler gets
      the rest of the line as it stands, comments included, without the spaces at both ends. */
  lemma ContinuationLine(section: string, prevName: string, w: string, value: string, trailing: string)
    requires Blank(w) && w != "" && Solid(value) && value != "" && '\0' !in value && Blank(trailing) && |w + value| < 200
    ensures ParseLine(section, prevName, w + value + trailing) ==
            LineResult(section, prevName, Some(Call(section, prevName, value)), false)
  {
    SolidIsTrimmed(value);
    var kept := TextShape(w + value, trailing);
    var all := w + value + kept;
    assert all[|w + value|..] == kept && all[..|w + value|] == w + value;
    TrimIs(all, |w + value|);
    var text := w + value;
    assert text[..|w|] == w;
    SkipIs(text, |w|);
    assert text[|w|..] == value;
  }

  /** A section line opens its section, of whose name 49 characters are kept, whatever follows the
      bracket. */
  lemma SectionHeading(section: string, prevName: string, name: string, rest: string)
    requires ']' !in name && ';' !in name && '\0' !in name && |name| < 198
    ensures ParseLine(section, prevName, "[" + name + "]" + rest) ==
            LineResult(if |name| < 50 then name else name[..49], prevName, None, false)
  {
    var head := "[" + name + "]";
    var kept := TextShape(head, rest);
    HeadingParsed(section, prevName, name, head + kept, TrimRight(head + kept));
  }

  lemma {:induction false} HeadingParsed(section: string, prevName: string, name: string, all: string, text: string)
    requires "[" + name + "]" <= all && ']' !in name && ';' !in name && text == TrimRight(all)
    ensures ParseText(section, prevName, text) ==
            LineResult(if |name| < 50 then name else name[..49], prevName, None, false)
  {
    var k := 1 + |name|;
    TrimRightFacts(all);
    assert all[k] == ']';
    assert |text| > k;
    assert text[1..k] == name;
    assert forall j :: 1 <= j < k ==> text[j] == name[j - 1];
    FindIs(text, 1, ']', k);
  }

  /** Blank lines and lines that start with a semicolon do nothing. */
  lemma IgnoredLine(section: string, prevName: string, raw: string)
    requires Blank(raw) || raw[0] == ';'
    ensures ParseLine(section, prevName, raw) == LineResult(section, prevName, None, false)
  {
    if Blank(raw) {
      var kept := TextShape("", raw);
      assert "" + raw == raw && "" + kept == kept;
      assert kept[0..] == kept;
      TrimIs(kept, 0);
    } else {
      var kept := TextShape(";", raw[1..]);
      assert raw == ";" + raw[1..];
      TrimRightFacts(";" + kept);
    }
  }
}
