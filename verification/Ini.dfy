/** What the INI parser (src/core/libs/ini.cc) makes of the lines of a file, as functions on strings:
    the handler calls, the first malformed line, and the round trip through printed lines. */
module Ini {
  import opened Collections
  import opened IniReader

  const MAX_LINE := 200
  const MAX_SECTION := 50
  const MAX_NAME := 50

  const NUL: char := '\0'

  /** isspace in the C locale. */
  predicate IsSpace(c: char) {
    c == ' ' || '\t' <= c <= '\r'
  }

  // ---------------------------------------------------------------- string functions

  function Take(s: string, n: nat): string {
    if |s| <= n then s else s[..n]
  }

  function TrimRight(s: string): (r: string)
    ensures |r| <= |s|
  {
    if s != "" && IsSpace(s[|s| - 1]) then TrimRight(s[..|s| - 1]) else s
  }

  lemma {:induction false} TrimRightFacts(s: string)
    ensures TrimRight(s) == s[..|TrimRight(s)|]
    ensures TrimRight(s) != "" ==> !IsSpace(TrimRight(s)[|TrimRight(s)| - 1])
    ensures forall i :: |TrimRight(s)| <= i < |s| ==> IsSpace(s[i])
  {
    if s != "" && IsSpace(s[|s| - 1]) {
      TrimRightFacts(s[..|s| - 1]);
    }
  }

  /** Offset of the first character from `i` that is not a space, or |s|. */
  function SkipSpaces(s: string, i: nat): (k: nat)
    requires i <= |s|
    ensures i <= k <= |s|
    decreases |s| - i
  {
    if i < |s| && IsSpace(s[i]) then SkipSpaces(s, i + 1) else i
  }

  lemma {:induction false} SkipSpacesFacts(s: string, i: nat)
    requires i <= |s|
    ensures forall j :: i <= j < SkipSpaces(s, i) ==> IsSpace(s[j])
    ensures SkipSpaces(s, i) < |s| ==> !IsSpace(s[SkipSpaces(s, i)])
    decreases |s| - i
  {
    if i < |s| && IsSpace(s[i]) {
      SkipSpacesFacts(s, i + 1);
    }
  }

  /** Offset of the first `c` or ';' from `i`, or |s|. */
  function Find(s: string, i: nat, c: char): (k: nat)
    requires i <= |s|
    ensures i <= k <= |s|
    decreases |s| - i
  {
    if i < |s| && s[i] != c && s[i] != ';' then Find(s, i + 1, c) else i
  }

  lemma {:induction false} FindFacts(s: string, i: nat, c: char)
    requires i <= |s|
    ensures forall j :: i <= j < Find(s, i, c) ==> s[j] != c && s[j] != ';'
    ensures Find(s, i, c) < |s| ==> s[Find(s, i, c)] == c || s[Find(s, i, c)] == ';'
    decreases |s| - i
  {
    if i < |s| && s[i] != c && s[i] != ';' {
      FindFacts(s, i + 1, c);
    }
  }

  /** The part before the first NUL, as C string functions see it. */
  function BeforeNul(s: string): string {
    if s == "" || s[0] == NUL then "" else [s[0]] + BeforeNul(s[1..])
  }

  lemma {:induction false} BeforeNulFixed(s: string)
    requires NUL !in s
    ensures BeforeNul(s) == s
  {
    if s != "" {
      assert s == [s[0]] + s[1..];
      BeforeNulFixed(s[1..]);
    }
  }

  // ---------------------------------------------------------------- what a line means

  /** What one line does: the section and previous name after it, the handler call it makes if
      any, and whether it is malformed. */
  datatype LineResult = LineResult(section: string, prevName: string, call: Option<Call>, malformed: bool)

  /** The text that the buffer holds of a line, without trailing space. */
  function Text(raw: string): string {
    TrimRight(BeforeNul(Take(raw, MAX_LINE - 1)))
  }

  /** The value part of a pair: leading space skipped, cut at a comment, trailing space removed. */
  function ValueText(s: string): string {
    var v := s[SkipSpaces(s, 0)..];
    TrimRight(v[..Find(v, 0, ';')])
  }

  function ParseText(section: string, prevName: string, text: string): LineResult {
    var start := SkipSpaces(text, 0);
    if 0 < start < |text| then
      LineResult(section, prevName, Some(Call(section, prevName, text[start..])), false)
    else if text == "" || start == |text| || text[0] == ';' then LineResult(section, prevName, None, false)
    else if text[0] == '[' then
      var end := Find(text, 1, ']');
      if end < |text| && text[end] == ']'
      then LineResult(Take(text[1..end], MAX_SECTION - 1), prevName, None, false)
      else LineResult(section, prevName, None, true)
    else
      var end := Find(text, 0, '=');
      if end < |text| && text[end] == '=' then
        var name := TrimRight(text[..end]);
        LineResult(section, Take(name, MAX_NAME - 1),
                   Some(Call(section, name, ValueText(text[end + 1..]))), false)
      else LineResult(section, prevName, None, true)
  }

  function ParseLine(section: string, prevName: string, raw: string): LineResult {
    ParseText(section, prevName, Text(raw))
  }

  // ---------------------------------------------------------------- a whole file

  datatype Parse = Parse(section: string, prevName: string, calls: seq<Call>, error: int)

  /** The handler of INIReader, which accepts every call. */
  predicate AcceptAll(c: Call) {
    true
  }

  /** How a line is read, given the section and the previous name. */
  type LineReader = (string, string, string) -> LineResult

  /** Handler calls and error after `lines`, each read by `read`; `accepts` says which calls the
      handler accepts. */
  function ReadLines(lines: seq<string>, read: LineReader, accepts: Call -> bool): Parse {
    if lines == [] then Parse("", "", [], 0)
    else
      var n := |lines| - 1;
      var p := ReadLines(lines[..n], read, accepts);
      Record(p, read(p.section, p.prevName, lines[n]), accepts, n + 1)
  }

  function Record(p: Parse, r: LineResult, accepts: Call -> bool, lineno: nat): Parse {
    var bad := r.malformed || (r.call.Some? && !accepts(r.call.value));
    Parse(r.section, r.prevName, p.calls + (if r.call.Some? then [r.call.value] else []),
          if bad && p.error == 0 then lineno else p.error)
  }

  /** The parser: every line read as the source reads it. */
  function ParseLines(lines: seq<string>, accepts: Call -> bool): Parse {
    ReadLines(lines, ParseLine, accepts)
  }

  /** A section line without its bracket, or a pair without its equals sign, before any comment. */
  ghost predicate MalformedLine(text: string) {
    && text != "" && !IsSpace(text[0]) && text[0] != ';'
    && (if text[0] == '[' then !(exists i :: 1 <= i < |text| && text[i] == ']' && ';' !in text[1..i])
        else !(exists i :: 0 <= i < |text| && text[i] == '=' && ';' !in text[0..i]))
  }

  ghost predicate Malformed(raw: string) {
    MalformedLine(Text(raw))
  }

  lemma FindFirst(s: string, i: nat, c: char)
    requires i <= |s| && c != ';'
    ensures var k := Find(s, i, c);
            k < |s| && s[k] == c <==> exists j :: i <= j < |s| && s[j] == c && ';' !in s[i..j]
  {
    var k := Find(s, i, c);
    FindFacts(s, i, c);
    if k < |s| && s[k] == c {
      assert ';' !in s[i..k];
    }
    if j :| i <= j < |s| && s[j] == c && ';' !in s[i..j] {
      assert k <= j;
      if k < j {
        assert s[i..j][k - i] == s[k];
      }
    }
  }

  lemma MalformedIsReported(section: string, prevName: string, raw: string)
    ensures ParseLine(section, prevName, raw).malformed <==> Malformed(raw)
  {
    FirstCharacter(raw);
    MalformedText(section, prevName, Text(raw));
  }

  lemma {:induction false} MalformedText(section: string, prevName: string, text: string)
    requires text != "" ==> SkipSpaces(text, 0) < |text|
    ensures ParseText(section, prevName, text).malformed <==> MalformedLine(text)
  {
    if text != "" {
      if text[0] == '[' {
        FindFirst(text, 1, ']');
      } else {
        FindFirst(text, 0, '=');
      }
    }
  }

  /** A line of spaces only is empty once trimmed. */
  lemma FirstCharacter(raw: string)
    ensures Text(raw) != "" ==> SkipSpaces(Text(raw), 0) < |Text(raw)|
  {
    TrimRightFacts(BeforeNul(Take(raw, MAX_LINE - 1)));
    SkipSpacesFacts(Text(raw), 0);
  }

  /** `error` is the number of the first line that is `bad`, or 0. */
  ghost predicate IsFirst(error: int, lines: seq<string>, bad: string -> bool) {
    && 0 <= error <= |lines|
    && (error == 0 ==> forall i :: 0 <= i < |lines| ==> !bad(lines[i]))
    && (error > 0 ==> bad(lines[error - 1]) && forall i :: 0 <= i < error - 1 ==> !bad(lines[i]))
  }

  lemma {:induction false} FirstBadLine(lines: seq<string>, read: LineReader, bad: string -> bool)
    requires forall s, n, raw :: read(s, n, raw).malformed == bad(raw)
    ensures IsFirst(ReadLines(lines, read, AcceptAll).error, lines, bad)
  {
    if lines != [] {
      var n := |lines| - 1;
      FirstBadLine(lines[..n], read, bad);
      assert forall i :: 0 <= i < n ==> lines[..n][i] == lines[i];
    }
  }

  /** With a handler that accepts every call, parsing returns the number of the first malformed
      line, and 0 exactly when there is none. */
  lemma ErrorIsFirstMalformed(lines: seq<string>)
    ensures IsFirst(ParseLines(lines, AcceptAll).error, lines, Malformed)
  {
    forall s, n, raw ensures ParseLine(s, n, raw).malformed == Malformed(raw) {
      MalformedIsReported(s, n, raw);
    }
    FirstBadLine(lines, ParseLine, Malformed);
  }

  // ---------------------------------------------------------------- round trip

  datatype Entry = Entry(name: string, value: string)
  datatype Section = Section(name: string, entries: seq<Entry>)

  predicate Trimmed(s: string) {
    s == "" || (!IsSpace(s[0]) && !IsSpace(s[|s| - 1]))
  }

  /** Section names that a section line can carry. */
  predicate AdmissibleSection(s: string) {
    |s| < MAX_SECTION && ']' !in s && ';' !in s && NUL !in s && '\n' !in s
  }

  /** Names that a pair can have. */
  predicate NameShape(n: string) {
    && |n| + 1 < MAX_LINE && '=' !in n && ';' !in n && NUL !in n && '\n' !in n
    && (n != "" ==> !IsSpace(n[0]) && n[0] != '[')
  }

  /** Pairs that a line can carry. */
  predicate AdmissibleEntry(e: Entry) {
    && Trimmed(e.name) && NameShape(e.name)
    && Trimmed(e.value) && ';' !in e.value && NUL !in e.value && '\n' !in e.value
    && |e.name| + 1 + |e.value| < MAX_LINE
  }

  function PrintSection(name: string): string {
    "[" + name + "]"
  }

  function PrintEntry(e: Entry): string {
    e.name + "=" + e.value
  }

  lemma {:induction false} FindIs(s: string, i: nat, c: char, k: nat)
    requires i <= k <= |s|
    requires forall j :: i <= j < k ==> s[j] != c && s[j] != ';'
    requires k < |s| ==> s[k] == c || s[k] == ';'
    ensures Find(s, i, c) == k
    decreases k - i
  {
    if i < k {
      FindIs(s, i + 1, c, k);
    }
  }

  lemma SectionLine(section: string, prevName: string, name: string)
    requires AdmissibleSection(name)
    ensures ParseLine(section, prevName, PrintSection(name)) == LineResult(name, prevName, None, false)
  {
    var s := PrintSection(name);
    BeforeNulFixed(s);
    assert Text(s) == s;
    var k := |s| - 1;
    FindIs(s, 1, ']', k);
    assert s[1..k] == name;
  }

  lemma EntryText(e: Entry)
    requires AdmissibleEntry(e)
    ensures Text(PrintEntry(e)) == PrintEntry(e)
  {
    var s := PrintEntry(e);
    BeforeNulFixed(s);
    assert e.value != "" ==> s[|s| - 1] == e.value[|e.value| - 1];
  }

  lemma {:induction false} EntryShape(e: Entry)
    requires AdmissibleEntry(e)
    ensures var s, k := PrintEntry(e), |e.name|;
            && s[k] == '=' && s[..k] == e.name && s[k + 1..] == e.value
            && Find(s, 0, '=') == k && !IsSpace(s[0]) && s[0] != ';' && s[0] != '['
  {
    var s, k := PrintEntry(e), |e.name|;
    assert forall j :: 0 <= j < k ==> s[j] == e.name[j];
    FindIs(s, 0, '=', k);
  }

  lemma EntryLine(section: string, prevName: string, e: Entry)
    requires AdmissibleEntry(e)
    ensures ParseLine(section, prevName, PrintEntry(e)) == EntryResult(section, e)
  {
    EntryText(e);
    EntryShape(e);
    ValueIsFixed(e.value);
  }

  /** What a line that carries `e` should yield. */
  function EntryResult(section: string, e: Entry): LineResult {
    LineResult(section, Take(e.name, MAX_NAME - 1), Some(Call(section, e.name, e.value)), false)
  }

  lemma ValueIsFixed(v: string)
    requires Trimmed(v) && ';' !in v
    ensures ValueText(v) == v
  {
    assert v[0..] == v;
    FindIs(v, 0, ';', |v|);
    assert v[..|v|] == v;
  }

  function PrintEntries(es: seq<Entry>): seq<string> {
    if es == [] then [] else PrintEntries(es[..|es| - 1]) + [PrintEntry(es[|es| - 1])]
  }

  function PrintAll(sections: seq<Section>): seq<string> {
    if sections == [] then []
    else
      var s := sections[|sections| - 1];
      PrintAll(sections[..|sections| - 1]) + [PrintSection(s.name)] + PrintEntries(s.entries)
  }

  function EntryCalls(section: string, es: seq<Entry>): seq<Call> {
    if es == [] then []
    else EntryCalls(section, es[..|es| - 1]) + [Call(section, es[|es| - 1].name, es[|es| - 1].value)]
  }

  function AllCalls(sections: seq<Section>): seq<Call> {
    if sections == [] then []
    else AllCalls(sections[..|sections| - 1]) + EntryCalls(sections[|sections| - 1].name, sections[|sections| - 1].entries)
  }

  predicate AdmissibleWhole(s: Section) {
    AdmissibleSection(s.name) && forall j :: 0 <= j < |s.entries| ==> AdmissibleEntry(s.entries[j])
  }

  predicate Admissible(sections: seq<Section>) {
    forall i :: 0 <= i < |sections| ==> AdmissibleWhole(sections[i])
  }

  /** Lines of admissible sections and pairs are read as what they carry. */
  ghost predicate ReadsBack(read: LineReader) {
    && (forall s, n, name {:trigger read(s, n, PrintSection(name))} ::
          AdmissibleSection(name) ==> read(s, n, PrintSection(name)) == LineResult(name, n, None, false))
    && (forall s, n, e {:trigger read(s, n, PrintEntry(e))} ::
          AdmissibleEntry(e) ==> read(s, n, PrintEntry(e)) == EntryResult(s, e))
  }

  lemma {:induction false} EntriesReadBack(lines: seq<string>, section: string, es: seq<Entry>, read: LineReader)
    requires ReadsBack(read) && ReadLines(lines, read, AcceptAll).section == section
    requires forall j :: 0 <= j < |es| ==> AdmissibleEntry(es[j])
    ensures var p, q := ReadLines(lines, read, AcceptAll), ReadLines(lines + PrintEntries(es), read, AcceptAll);
            q.section == section && q.calls == p.calls + EntryCalls(section, es) && q.error == p.error
  {
    if es == [] {
      assert lines + PrintEntries(es) == lines;
    } else {
      var n := |es| - 1;
      EntriesReadBack(lines, section, es[..n], read);
      PrintLast(lines, es);
      LastOfBoth(ReadLines(lines, read, AcceptAll).calls, EntryCalls(section, es[..n]), Call(section, es[n].name, es[n].value));
    }
  }

  lemma {:induction false} PrintLast(lines: seq<string>, es: seq<Entry>)
    requires es != []
    ensures var n := |es| - 1;
            lines + PrintEntries(es) == (lines + PrintEntries(es[..n])) + [PrintEntry(es[n])]
  {
    LastOfBoth(lines, PrintEntries(es[..|es| - 1]), PrintEntry(es[|es| - 1]));
  }

  lemma LastOfBoth<T>(a: seq<T>, b: seq<T>, x: T)
    ensures a + (b + [x]) == (a + b) + [x]
  {
  }

  lemma SectionReadsBack(before: seq<string>, s: Section, read: LineReader)
    requires ReadsBack(read) && AdmissibleWhole(s)
    ensures var p, q := ReadLines(before, read, AcceptAll),
                        ReadLines(before + [PrintSection(s.name)] + PrintEntries(s.entries), read, AcceptAll);
            q.calls == p.calls + EntryCalls(s.name, s.entries) && q.error == p.error
  {
    EntriesReadBack(before + [PrintSection(s.name)], s.name, s.entries, read);
  }

  lemma {:induction false} SectionsReadBack(sections: seq<Section>, read: LineReader)
    requires ReadsBack(read) && Admissible(sections)
    ensures var p := ReadLines(PrintAll(sections), read, AcceptAll);
            p.calls == AllCalls(sections) && p.error == 0
  {
    if sections != [] {
      var n := |sections| - 1;
      SectionsReadBack(sections[..n], read);
      SectionReadsBack(PrintAll(sections[..n]), sections[n], read);
    }
  }

  /** INI round trip: parsing the printed lines of any admissible sections makes exactly their
      handler calls, in order, and reports no error. */
  lemma RoundTrip(sections: seq<Section>)
    requires Admissible(sections)
    ensures var p := ParseLines(PrintAll(sections), AcceptAll);
            p.calls == AllCalls(sections) && p.error == 0
  {
    forall s, n, name | AdmissibleSection(name)
      ensures ParseLine(s, n, PrintSection(name)) == LineResult(name, n, None, false)
    {
      SectionLine(s, n, name);
    }
    forall s, n, e | AdmissibleEntry(e) ensures ParseLine(s, n, PrintEntry(e)) == EntryResult(s, e) {
      EntryLine(s, n, e);
    }
    SectionsReadBack(sections, ParseLine);
  }
}
