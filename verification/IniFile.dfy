/** INIReader opened on a file (src/core/libs/INIReader.cc with src/core/libs/ini.cc): what its
    answers mean in terms of the lines of the file. */
module IniFile {
  import opened Collections
  import opened IniReader
  import opened Ini
  import opened IniBuffer

  /** What std::getline can deliver: lines without line breaks. */
  predicate IsFile(lines: seq<string>) {
    forall i :: 0 <= i < |lines| ==> '\n' !in lines[i]
  }

  /** The handler calls that parsing a file makes. */
  function FileCalls(lines: seq<string>): seq<Call> {
    ParseLines(lines, AcceptAll).calls
  }

  /** The constructor of INIReader: every call of the parser reaches the handler, which accepts it. */
  method OpenReader(file: Option<seq<string>>) returns (reader: Reader, error: int)
    ensures fresh(reader) && reader.Valid()
    ensures file.None? ==> error == -1 && reader.calls == []
    ensures file.Some? ==> error == ParseLines(file.value, AcceptAll).error && reader.calls == FileCalls(file.value)
  {
    reader := new Reader();
    var calls;
    error, calls := IniParse(file, AcceptAll);
    for k := 0 to |calls|
      invariant fresh(reader) && reader.Valid() && reader.calls == calls[..k]
    {
      var ok := reader.ValueHandler(calls[k].section, calls[k].name, calls[k].value);
    }
  }

  // ---------------------------------------------------------------- what is written is read

  /** Different pairs of a history have different keys, up to case. */
  ghost predicate DistinctKeys(calls: seq<Call>) {
    forall i, j :: 0 <= i < j < |calls| ==>
      Key(calls[i].section, calls[i].name) != Key(calls[j].section, calls[j].name)
  }

  /** Every pair of a printed file is found again: Get returns the value that was printed. */
  lemma WrittenIsRead(sections: seq<Section>, i: nat)
    requires Admissible(sections) && DistinctKeys(AllCalls(sections)) && i < |AllCalls(sections)|
    ensures var c := AllCalls(sections)[i];
            FileCalls(PrintAll(sections)) == AllCalls(sections) &&
            LastCall(FileCalls(PrintAll(sections)), Key(c.section, c.name)) == i
  {
    RoundTrip(sections);
  }

  // ---------------------------------------------------------------- what a file can name

  ghost predicate Shaped(c: Call) {
    AdmissibleSection(c.section) && NameShape(c.name)
  }

  lemma {:induction false} BeforeNulFacts(s: string)
    ensures BeforeNul(s) <= s && NUL !in BeforeNul(s)
  {
    if s != "" && s[0] != NUL {
      BeforeNulFacts(s[1..]);
      assert s == [s[0]] + s[1..];
    }
  }

  lemma TrimRightPrefix(s: string)
    ensures TrimRight(s) <= s
  {
    TrimRightFacts(s);
  }

  lemma {:induction false} TextFacts(raw: string)
    requires '\n' !in raw
    ensures |Text(raw)| < MAX_LINE && NUL !in Text(raw) && '\n' !in Text(raw)
  {
    var cut := BeforeNul(Take(raw, MAX_LINE - 1));
    BeforeNulFacts(Take(raw, MAX_LINE - 1));
    TrimRightPrefix(cut);
    assert cut <= raw && Text(raw) <= cut;
  }

  /** A section line yields a name that a section line can carry. */
  lemma SectionOfText(text: string, end: nat)
    requires text != "" && end == Find(text, 1, ']') && NUL !in text && '\n' !in text
    ensures AdmissibleSection(Take(text[1..end], MAX_SECTION - 1))
  {
    FindFacts(text, 1, ']');
    var name := text[1..end];
    assert forall j :: 0 <= j < |name| ==> name[j] == text[1 + j];
    assert ']' !in name && ';' !in name && NUL !in name && '\n' !in name;
  }

  lemma NameOfText(text: string, end: nat)
    requires text != "" && !IsSpace(text[0]) && text[0] != '[' && NUL !in text && '\n' !in text
    requires end == Find(text, 0, '=') < |text| < MAX_LINE
    ensures NameShape(TrimRight(text[..end]))
  {
    FindFacts(text, 0, '=');
    TrimRightFacts(text[..end]);
    var name := TrimRight(text[..end]);
    assert forall j :: 0 <= j < |name| ==> name[j] == text[j];
  }

  lemma TakeShape(n: string, k: nat)
    requires NameShape(n)
    ensures NameShape(Take(n, k))
  {
  }

  ghost predicate ShapedResult(r: LineResult) {
    AdmissibleSection(r.section) && NameShape(r.prevName) && (r.call.Some? ==> Shaped(r.call.value))
  }

  lemma {:induction false} TextShape(section: string, prevName: string, text: string)
    requires AdmissibleSection(section) && NameShape(prevName) && |text| < MAX_LINE && NUL !in text && '\n' !in text
    ensures ShapedResult(ParseText(section, prevName, text))
  {
    var start := SkipSpaces(text, 0);
    if text == "" || 0 < start {
    } else if text[0] == '[' {
      SectionOfText(text, Find(text, 1, ']'));
    } else {
      SkipSpacesFacts(text, 0);
      var end := Find(text, 0, '=');
      if end < |text| {
        NameOfText(text, end);
        TakeShape(TrimRight(text[..end]), MAX_NAME - 1);
      }
    }
  }

  /** Lines without line breaks keep sections and names in shape. */
  ghost predicate ReadsShaped(read: LineReader) {
    forall s, n, raw {:trigger read(s, n, raw)} ::
      AdmissibleSection(s) && NameShape(n) && '\n' !in raw ==> ShapedResult(read(s, n, raw))
  }

  lemma {:induction false} LinesShape(lines: seq<string>, read: LineReader)
    requires ReadsShaped(read) && IsFile(lines)
    ensures var p := ReadLines(lines, read, AcceptAll);
            AdmissibleSection(p.section) && NameShape(p.prevName) && forall i :: 0 <= i < |p.calls| ==> Shaped(p.calls[i])
  {
    if lines != [] {
      var n := |lines| - 1;
      LinesShape(lines[..n], read);
      var p := ReadLines(lines[..n], read, AcceptAll);
      assert ShapedResult(read(p.section, p.prevName, lines[n]));
    }
  }

  /** Every call of a file has a section that a section line can carry and a name that a pair can have. */
  lemma FileShape(lines: seq<string>)
    requires IsFile(lines)
    ensures forall i :: 0 <= i < |FileCalls(lines)| ==> Shaped(FileCalls(lines)[i])
  {
    forall s, n, raw | AdmissibleSection(s) && NameShape(n) && '\n' !in raw ensures ShapedResult(ParseLine(s, n, raw)) {
      TextFacts(raw);
      TextShape(s, n, Text(raw));
    }
    LinesShape(lines, ParseLine);
  }

  // ---------------------------------------------------------------- names up to case

  lemma LowerFixed(c: char, d: char)
    requires !('a' <= c <= 'z') && !('A' <= c <= 'Z')
    ensures Lower(d) == c <==> d == c
  {
  }

  /** Case does not matter for a character that is no letter. */
  lemma LowerKeeps(p: string, s: string, c: char)
    requires LowerAll(p) <= LowerAll(s) && c !in s && !('a' <= c <= 'z') && !('A' <= c <= 'Z')
    ensures c !in p
  {
    if i :| 0 <= i < |p| && p[i] == c {
      assert LowerAll(p)[i] == LowerAll(s)[i];
      LowerFixed(c, p[i]);
      LowerFixed(c, s[i]);
    }
  }

  lemma SectionBeginning(p: string, s: string)
    requires LowerAll(p) <= LowerAll(s) && AdmissibleSection(s)
    ensures AdmissibleSection(p)
  {
    LowerKeeps(p, s, ']');
    LowerKeeps(p, s, ';');
    LowerKeeps(p, s, NUL);
    LowerKeeps(p, s, '\n');
  }

  lemma NameBeginning(p: string, s: string)
    requires LowerAll(p) <= LowerAll(s) && NameShape(s)
    ensures NameShape(p)
  {
    LowerKeeps(p, s, '=');
    LowerKeeps(p, s, ';');
    LowerKeeps(p, s, NUL);
    LowerKeeps(p, s, '\n');
    if p != "" {
      assert Lower(p[0]) == LowerAll(p)[0] == LowerAll(s)[0] == Lower(s[0]);
    }
  }

  // ---------------------------------------------------------------- when HasSection misleads

  /** HasSection says true for a file none of whose pairs is in such a section. */
  ghost predicate Misled(lines: seq<string>, s: string) {
    SomeKeyStartsWith(FileCalls(lines), Key(s, "")) && !SomeSection(FileCalls(lines), s)
  }

  /** The name splits at a dot into a section and the beginning of a name, up to a further dot. */
  predicate SplitsAt(s: string, k: nat) {
    k < |s| && s[k] == '.' && AdmissibleSection(s[..k]) && NameShape(s[k + 1..] + ".")
  }

  lemma LowerConcat(a: string, b: string)
    ensures LowerAll(a + b) == LowerAll(a) + LowerAll(b)
  {
  }

  lemma NestedIsShort(s: string, section: string)
    requires Nested(s, section) && AdmissibleSection(section)
    ensures AdmissibleSection(s + ".")
  {
    LowerConcat(s, ".");
    SectionBeginning(s + ".", section);
  }

  lemma RunsIntoSplits(s: string, c: Call)
    requires RunsInto(s, c.section, c.name) && Shaped(c)
    ensures SplitsAt(s, |c.section|) && LowerAll(s[..|c.section|]) == LowerAll(c.section)
  {
    var k := |c.section|;
    assert s == s[..k] + s[k..] && s[k..] == [s[k]] + s[k + 1..];
    assert LowerAll(s)[k] == '.';
    LowerFixed('.', s[k]);
    assert LowerAll(s[..k]) == LowerAll(s)[..k] == LowerAll(c.section);
    SectionBeginning(s[..k], c.section);
    LowerConcat(s[k + 1..], ".");
    assert LowerAll(s[k + 1..]) == LowerAll(s)[k + 1..];
    NameBeginning(s[k + 1..] + ".", c.name);
  }

  /** A file with one pair. */
  lemma OnePairFile(section: string, name: string) returns (lines: seq<string>)
    requires AdmissibleSection(section) && NameShape(name) && Trimmed(name)
    ensures IsFile(lines) && FileCalls(lines) == [Call(section, name, "")]
  {
    var e := Entry(name, "");
    var whole := Section(section, [e]);
    lines := PrintAll([whole]);
    RoundTrip([whole]);
    assert AllCalls([whole]) == [Call(section, name, "")] by {
      assert [whole][..0] == [] && [e][..0] == [];
      assert EntryCalls(section, [e]) == [Call(section, name, "")];
    }
    assert PrintAll([whole]) == [PrintSection(section), PrintEntry(e)] by {
      assert [whole][..0] == [] && [e][..0] == [];
      assert PrintEntries([e]) == [PrintEntry(e)];
    }
  }

  lemma NestedFile(s: string) returns (lines: seq<string>)
    requires AdmissibleSection(s + ".")
    ensures IsFile(lines) && Misled(lines, s)
  {
    lines := OnePairFile(s + ".", "");
    LowerConcat(s, ".");
    SectionKeyExactly(s, s + ".", "");
    assert FileCalls(lines)[0].section == s + ".";
  }

  lemma SplitFile(s: string, k: nat) returns (lines: seq<string>)
    requires SplitsAt(s, k)
    ensures IsFile(lines) && Misled(lines, s)
    ensures forall i :: 0 <= i < |FileCalls(lines)| ==> FileCalls(lines)[i].section == s[..k]
  {
    var name := s[k + 1..] + ".";
    lines := OnePairFile(s[..k], name);
    assert s + "." + "" == s[..k] + "." + name;
    assert Key(s, "") == Key(s[..k], name);
    assert FileCalls(lines)[0] == Call(s[..k], name, "");
    assert |LowerAll(s[..k])| < |LowerAll(s)|;
  }

  lemma MisledBy(lines: seq<string>, s: string) returns (c: Call)
    requires IsFile(lines) && Misled(lines, s)
    ensures c in FileCalls(lines) && Shaped(c) && (Nested(s, c.section) || RunsInto(s, c.section, c.name))
  {
    var calls := FileCalls(lines);
    FileShape(lines);
    var i :| 0 <= i < |calls| && Key(s, "") <= Key(calls[i].section, calls[i].name);
    c := calls[i];
    SectionKeyExactly(s, c.section, c.name);
  }

  /** Exactly which names HasSection can be wrong about: some file is reported to have section `s`
      without having it if and only if a section line can carry "s." or `s` splits at a dot into a
      section and the beginning of a name. */
  lemma MisleadingFileExactly(s: string)
    ensures (exists lines :: IsFile(lines) && Misled(lines, s)) <==>
            AdmissibleSection(s + ".") || exists k: nat :: SplitsAt(s, k)
  {
    if AdmissibleSection(s + ".") {
      var lines := NestedFile(s);
    } else if k: nat :| SplitsAt(s, k) {
      var lines := SplitFile(s, k);
    }
    if lines :| IsFile(lines) && Misled(lines, s) {
      var c := MisledBy(lines, s);
      if Nested(s, c.section) {
        NestedIsShort(s, c.section);
      } else {
        RunsIntoSplits(s, c);
      }
    }
  }

  /** The same for files whose section names have no dot: HasSection is right about `s` for all of them
      if and only if `s` does not split at its first dot, in particular if it has none. */
  lemma DotFreeFilesExactly(s: string)
    ensures (forall lines :: IsFile(lines) && UndottedSections(FileCalls(lines)) ==>
              (SomeKeyStartsWith(FileCalls(lines), Key(s, "")) <==> SomeSection(FileCalls(lines), s))) <==>
            !(exists k: nat :: SplitsAt(s, k) && '.' !in s[..k])
  {
    if k: nat :| SplitsAt(s, k) && '.' !in s[..k] {
      var lines := SplitFile(s, k);
      assert IsFile(lines) && UndottedSections(FileCalls(lines)) && Misled(lines, s);
    }
    forall lines | IsFile(lines) && UndottedSections(FileCalls(lines)) &&
                   !(SomeKeyStartsWith(FileCalls(lines), Key(s, "")) <==> SomeSection(FileCalls(lines), s))
      ensures exists k: nat :: SplitsAt(s, k) && '.' !in s[..k]
    {
      if SomeSection(FileCalls(lines), s) {
        SectionIsFound(FileCalls(lines), s);
      }
      assert Misled(lines, s);
      var c := MisledBy(lines, s);
      UndottedSplits(s, c);
    }
  }

  lemma SectionIsFound(calls: seq<Call>, s: string)
    requires SomeSection(calls, s)
    ensures SomeKeyStartsWith(calls, Key(s, ""))
  {
    var i :| 0 <= i < |calls| && SameSection(s, calls[i].section);
    SectionKeyExactly(s, calls[i].section, calls[i].name);
  }

  lemma UndottedSplits(s: string, c: Call)
    requires Shaped(c) && '.' !in c.section && (Nested(s, c.section) || RunsInto(s, c.section, c.name))
    ensures SplitsAt(s, |c.section|) && '.' !in s[..|c.section|]
  {
    if Nested(s, c.section) {
      var k := |s|;
      assert LowerAll(c.section)[k] == '.';
      LowerFixed('.', c.section[k]);
      assert false;
    } else {
      RunsIntoSplits(s, c);
      LowerKeeps(s[..|c.section|], c.section, '.');
    }
  }
}
