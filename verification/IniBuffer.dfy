/** The INI parser's line loop in place (src/core/libs/ini.cc): a 200-character line buffer that
    is cut into strings by writing NUL characters, and fixed arrays for the section and the
    previous name. */
module IniBuffer {
  import opened Collections
  import opened IniReader
  import opened Ini

  // ---------------------------------------------------------------- C strings in a buffer

  /** The C string at offset `s`. */
  function CStr(buf: seq<char>, s: nat): string
    requires s <= |buf|
    decreases |buf| - s
  {
    if s < |buf| && buf[s] != NUL then [buf[s]] + CStr(buf, s + 1) else ""
  }

  /** It ends within the buffer. */
  predicate Terminated(buf: seq<char>, s: nat) {
    s <= |buf| && s + |CStr(buf, s)| < |buf|
  }

  lemma {:induction false} CStrBounds(buf: seq<char>, s: nat)
    requires s <= |buf|
    ensures s + |CStr(buf, s)| <= |buf|
    ensures CStr(buf, s) == buf[s..s + |CStr(buf, s)|]
    ensures s + |CStr(buf, s)| < |buf| ==> buf[s + |CStr(buf, s)|] == NUL
    ensures forall i :: 0 <= i < |CStr(buf, s)| ==> CStr(buf, s)[i] == buf[s + i] != NUL
    decreases |buf| - s
  {
    if s < |buf| && buf[s] != NUL {
      CStrBounds(buf, s + 1);
      var n := |CStr(buf, s + 1)|;
      assert buf[s..s + 1 + n] == [buf[s]] + buf[s + 1..s + 1 + n];
      forall i | 0 <= i < 1 + n ensures CStr(buf, s)[i] == buf[s + i] != NUL {
        if i > 0 {
          assert CStr(buf, s)[i] == CStr(buf, s + 1)[i - 1] == buf[s + 1 + (i - 1)];
        }
      }
    }
  }

  /** A stretch without NUL, up to a NUL, is the C string there. */
  lemma {:induction false} CStrIs(buf: seq<char>, s: nat, n: nat)
    requires s + n < |buf| && buf[s + n] == NUL && forall i :: s <= i < s + n ==> buf[i] != NUL
    ensures CStr(buf, s) == buf[s..s + n]
    decreases n
  {
    if n > 0 {
      CStrIs(buf, s + 1, n - 1);
      assert buf[s..s + n] == [buf[s]] + buf[s + 1..s + n];
    }
  }

  /** The string from a later offset is the rest of it. */
  lemma CStrTail(buf: seq<char>, s: nat, k: nat)
    requires Terminated(buf, s) && k <= |CStr(buf, s)|
    ensures Terminated(buf, s + k) && CStr(buf, s + k) == CStr(buf, s)[k..]
  {
    CStrBounds(buf, s);
    var n := |CStr(buf, s)|;
    CStrIs(buf, s + k, n - k);
    assert buf[s..s + n][k..] == buf[s + k..s + n];
  }

  /** Writing a NUL inside a string cuts it there. */
  lemma CStrCut(buf: seq<char>, s: nat, k: nat)
    requires Terminated(buf, s) && k < |CStr(buf, s)|
    ensures Terminated(buf[s + k := NUL], s) && CStr(buf[s + k := NUL], s) == CStr(buf, s)[..k]
    ensures Terminated(buf[s + k := NUL], s + k + 1) && CStr(buf[s + k := NUL], s + k + 1) == CStr(buf, s)[k + 1..]
  {
    CStrBounds(buf, s);
    var n := |CStr(buf, s)|;
    var cut := buf[s + k := NUL];
    CStrIs(cut, s, k);
    assert cut[s..s + k] == buf[s..s + n][..k];
    CStrIs(cut, s + k + 1, n - k - 1);
    assert cut[s + k + 1..s + n] == buf[s..s + n][k + 1..];
  }

  // ---------------------------------------------------------------- the helpers of ini.cc

  method StrLen(line: array<char>, s: nat) returns (n: nat)
    requires Terminated(line[..], s)
    ensures n == |CStr(line[..], s)|
  {
    CStrBounds(line[..], s);
    n := 0;
    while line[s + n] != NUL
      invariant n <= |CStr(line[..], s)|
      decreases |CStr(line[..], s)| - n
    {
      n := n + 1;
    }
  }

  /** rstrip: write NUL over trailing space. */
  method RStrip(line: array<char>, s: nat)
    requires Terminated(line[..], s)
    modifies line
    ensures Terminated(line[..], s)
    ensures CStr(line[..], s) == TrimRight(old(CStr(line[..], s)))
    ensures forall i :: 0 <= i < line.Length && !(s <= i < s + |old(CStr(line[..], s))|) ==> line[i] == old(line[i])
  {
    ghost var before := line[..];
    var n := StrLen(line, s);
    CStrBounds(before, s);
    var p := s + n;
    while p > s && IsSpace(line[p - 1])
      invariant s <= p <= s + n < line.Length
      invariant forall i :: 0 <= i < line.Length ==> line[i] == if p <= i < s + n then NUL else before[i]
      invariant forall i :: p <= i < s + n ==> IsSpace(before[i])
    {
      p := p - 1;
      line[p] := NUL;
    }
    Stripped(before, line[..], s, p);
  }

  /** Overwriting the trailing space of a string with NUL trims it. */
  lemma Stripped(before: seq<char>, after: seq<char>, s: nat, p: nat)
    requires Terminated(before, s) && |after| == |before|
    requires var end := s + |CStr(before, s)|;
             && s <= p <= end && (p > s ==> !IsSpace(before[p - 1]))
             && (forall i :: p <= i < end ==> IsSpace(before[i]))
             && forall i :: 0 <= i < |before| ==> after[i] == if p <= i < end then NUL else before[i]
    ensures Terminated(after, s) && CStr(after, s) == TrimRight(CStr(before, s))
  {
    CStrBounds(before, s);
    var str := CStr(before, s);
    CStrIs(after, s, p - s);
    assert after[s..p] == str[..p - s];
    TrimIs(str, p - s);
  }

  lemma TrimIs(str: string, k: nat)
    requires k <= |str| && (k > 0 ==> !IsSpace(str[k - 1])) && forall i :: k <= i < |str| ==> IsSpace(str[i])
    ensures TrimRight(str) == str[..k]
  {
    TrimRightFacts(str);
    var r := TrimRight(str);
    assert r != "" ==> r[|r| - 1] == str[|r| - 1];
  }

  /** lskip: the first character that is not space. */
  method LSkip(line: array<char>, s: nat) returns (p: nat)
    requires Terminated(line[..], s)
    ensures p == s + SkipSpaces(CStr(line[..], s), 0)
  {
    ghost var str := CStr(line[..], s);
    CStrBounds(line[..], s);
    p := s;
    while line[p] != NUL && IsSpace(line[p])
      invariant s <= p <= s + |str|
      invariant SkipSpaces(str, 0) == SkipSpaces(str, p - s)
      decreases s + |str| - p
    {
      assert str[p - s] == line[p];
      p := p + 1;
    }
    assert p - s < |str| ==> str[p - s] == line[p];
  }

  /** find_char_or_comment */
  method FindCharOrComment(line: array<char>, s: nat, c: char) returns (p: nat)
    requires Terminated(line[..], s)
    ensures p == s + Find(CStr(line[..], s), 0, c)
  {
    ghost var str := CStr(line[..], s);
    CStrBounds(line[..], s);
    p := s;
    while line[p] != NUL && line[p] != c && line[p] != ';'
      invariant s <= p <= s + |str|
      invariant Find(str, 0, c) == Find(str, p - s, c)
      decreases s + |str| - p
    {
      assert str[p - s] == line[p];
      p := p + 1;
    }
    assert p - s < |str| ==> str[p - s] == line[p];
  }

  lemma {:induction false} CopyKeepsString(dest: seq<char>, buf: seq<char>, src: nat, i: nat, last: nat)
    requires i <= last < |dest| && src + last <= |buf| && dest[last] == NUL
    requires forall j :: 0 <= j < last ==> dest[j] == buf[src + j]
    ensures CStr(dest, i) == Take(CStr(buf, src + i), last - i) && i + |CStr(dest, i)| <= last
    decreases last - i
  {
    if i < last && buf[src + i] != NUL {
      CopyKeepsString(dest, buf, src, i + 1, last);
      var t := CStr(buf, src + i + 1);
      assert ([buf[src + i]] + t)[1..] == t;
    }
  }

  /** strncpy0: copy size - 1 characters, whatever they are, and terminate. */
  method StrNCpy0(dest: array<char>, line: array<char>, src: nat)
    requires dest != line && dest.Length > 0 && src + dest.Length - 1 <= line.Length
    modifies dest
    ensures Terminated(dest[..], 0)
    ensures CStr(dest[..], 0) == Take(CStr(line[..], src), dest.Length - 1)
  {
    for i := 0 to dest.Length - 1
      invariant forall j :: 0 <= j < i ==> dest[j] == line[src + j]
    {
      dest[i] := line[src + i];
    }
    dest[dest.Length - 1] := NUL;
    CopyKeepsString(dest[..], line[..], src, 0, dest.Length - 1);
  }

  lemma {:induction false} CStrOfText(buf: seq<char>, text: string, s: nat)
    requires s <= |text| < |buf| && buf[|text|] == NUL && forall i :: 0 <= i < |text| ==> buf[i] == text[i]
    ensures CStr(buf, s) == BeforeNul(text[s..]) && s + |CStr(buf, s)| < |buf|
    decreases |text| - s
  {
    if s < |text| {
      assert text[s..][1..] == text[s + 1..];
      CStrOfText(buf, text, s + 1);
    }
  }

  /** Copy a line into the buffer, truncated and terminated. */
  method LoadLine(line: array<char>, raw: string)
    requires line.Length == MAX_LINE
    modifies line
    ensures Terminated(line[..], 0)
    ensures CStr(line[..], 0) == BeforeNul(Take(raw, MAX_LINE - 1))
  {
    var len := if |raw| > MAX_LINE - 1 then MAX_LINE - 1 else |raw|;
    for i := 0 to len
      invariant forall j :: 0 <= j < i ==> line[j] == raw[j]
    {
      line[i] := raw[i];
    }
    line[len] := NUL;
    ghost var text := Take(raw, MAX_LINE - 1);
    CStrOfText(line[..], text, 0);
    assert text[0..] == text;
  }

  // ---------------------------------------------------------------- one line

  /** A "[section]" line in the buffer. */
  method SectionLineInPlace(line: array<char>, section: array<char>) returns (malformed: bool)
    requires line != section && line.Length == MAX_LINE && section.Length == MAX_SECTION
    requires Terminated(line[..], 0) && Terminated(section[..], 0)
    requires CStr(line[..], 0) != "" && CStr(line[..], 0)[0] == '['
    modifies line, section
    ensures Terminated(section[..], 0)
    ensures var text := old(CStr(line[..], 0));
            var end := Find(text, 1, ']');
            && malformed == !(end < |text| && text[end] == ']')
            && CStr(section[..], 0) == if malformed then old(CStr(section[..], 0)) else Take(text[1..end], MAX_SECTION - 1)
  {
    ghost var text := CStr(line[..], 0);
    CStrBounds(line[..], 0);
    CStrTail(line[..], 0, 1);
    FindShift(text, 1, ']');
    var end := FindCharOrComment(line, 1, ']');
    malformed := line[end] != ']';
    if !malformed {
      assert text[end] == ']';
      CStrCut(line[..], 1, end - 1);
      assert text[1..][..end - 1] == text[1..end];
      line[end] := NUL;
      StrNCpy0(section, line, 1);
    }
  }

  lemma {:induction false} FindShift(s: string, k: nat, c: char)
    requires k <= |s|
    ensures Find(s, k, c) == k + Find(s[k..], 0, c)
  {
    var t := s[k..];
    var j := Find(t, 0, c);
    FindFacts(t, 0, c);
    assert forall i :: k <= i < k + j ==> s[i] == t[i - k];
    FindIs(s, k, c, k + j);
  }

  /** A "name=value" line in the buffer. */
  method PairLineInPlace(line: array<char>, prevName: array<char>)
    returns (malformed: bool, name: string, value: string)
    requires line != prevName && line.Length == MAX_LINE && prevName.Length == MAX_NAME
    requires Terminated(line[..], 0) && Terminated(prevName[..], 0)
    modifies line, prevName
    ensures Terminated(prevName[..], 0)
    ensures var text := old(CStr(line[..], 0));
            var end := Find(text, 0, '=');
            && malformed == !(end < |text| && text[end] == '=')
            && (malformed ==> CStr(prevName[..], 0) == old(CStr(prevName[..], 0)))
            && (!malformed ==>
                 && name == TrimRight(text[..end]) && value == ValueText(text[end + 1..])
                 && CStr(prevName[..], 0) == Take(name, MAX_NAME - 1))
  {
    name, value := "", "";
    ghost var text := CStr(line[..], 0);
    CStrBounds(line[..], 0);
    var end := FindCharOrComment(line, 0, '=');
    malformed := line[end] != '=';
    if !malformed {
      CStrCut(line[..], 0, end);
      line[end] := NUL;
      ghost var cut := line[..];
      CStrBounds(cut, 0);
      CStrBounds(cut, end + 1);
      RStrip(line, 0);
      SameString(cut, line[..], end + 1);
      value := ValueInPlace(line, end + 1);
      name := CStr(line[..], 0);
      StrNCpy0(prevName, line, 0);
    }
  }

  /** Two buffers that agree from an offset hold the same string there. */
  lemma SameString(a: seq<char>, b: seq<char>, s: nat)
    requires |a| == |b| && Terminated(a, s) && forall i :: s <= i < |a| ==> a[i] == b[i]
    ensures Terminated(b, s) && CStr(b, s) == CStr(a, s)
  {
    CStrBounds(a, s);
    var n := |CStr(a, s)|;
    CStrIs(b, s, n);
    assert a[s..s + n] == b[s..s + n];
  }

  /** Cut the string at `s` where a comment starts. */
  method CutComment(line: array<char>, s: nat)
    requires Terminated(line[..], s)
    modifies line
    ensures Terminated(line[..], s)
    ensures CStr(line[..], s) == old(CStr(line[..], s)[..Find(CStr(line[..], s), 0, ';')])
    ensures forall i :: 0 <= i < s ==> line[i] == old(line[i])
  {
    ghost var str := CStr(line[..], s);
    CStrBounds(line[..], s);
    FindFacts(str, 0, ';');
    var end := FindCharOrComment(line, s, ';');
    assert str[..|str|] == str;
    if line[end] == ';' {
      CStrCut(line[..], s, end - s);
      line[end] := NUL;
    }
  }

  /** The value part: skip space, cut at a comment, strip; the buffer before it is left alone. */
  method ValueInPlace(line: array<char>, s: nat) returns (value: string)
    requires Terminated(line[..], s) && s > 0 && line[s - 1] == NUL
    modifies line
    ensures value == ValueText(old(CStr(line[..], s)))
    ensures Terminated(line[..], 0) && CStr(line[..], 0) == old(CStr(line[..], 0))
  {
    ghost var before := line[..];
    var v := LSkip(line, s);
    CStrTail(line[..], s, v - s);
    CutComment(line, v);
    CStrBounds(line[..], v);
    RStrip(line, v);
    value := CStr(line[..], v);
    HeadUntouched(before, line[..], s - 1);
  }

  /** A string that ends before an offset does not depend on what follows. */
  lemma HeadUntouched(a: seq<char>, b: seq<char>, e: nat)
    requires |a| == |b| && e < |a| && a[e] == NUL && forall i :: 0 <= i <= e ==> a[i] == b[i]
    ensures Terminated(b, 0) && CStr(b, 0) == CStr(a, 0)
  {
    CStrBounds(a, 0);
    var n := |CStr(a, 0)|;
    assert n <= e;
    CStrIs(b, 0, n);
    assert a[0..n] == b[0..n];
  }

  /** Dispatch on the first character of the trimmed text in the buffer. */
  method DispatchLine(line: array<char>, section: array<char>, prevName: array<char>)
    returns (malformed: bool, call: Option<Call>)
    requires line != section && line != prevName && section != prevName
    requires line.Length == MAX_LINE && section.Length == MAX_SECTION && prevName.Length == MAX_NAME
    requires Terminated(line[..], 0) && Terminated(section[..], 0) && Terminated(prevName[..], 0)
    modifies line, section, prevName
    ensures Terminated(section[..], 0) && Terminated(prevName[..], 0)
    ensures LineResult(CStr(section[..], 0), CStr(prevName[..], 0), call, malformed) ==
            old(ParseText(CStr(section[..], 0), CStr(prevName[..], 0), CStr(line[..], 0)))
  {
    malformed, call := false, None;
    CStrBounds(line[..], 0);
    var start := LSkip(line, 0);
    CStrTail(line[..], 0, start);
    if line[start] != NUL && start > 0 {
      call := Some(Call(CStr(section[..], 0), CStr(prevName[..], 0), CStr(line[..], start)));
    } else if line[start] == '[' {
      malformed := SectionLineInPlace(line, section);
    } else if line[start] != NUL && line[start] != ';' {
      var name, value;
      malformed, name, value := PairLineInPlace(line, prevName);
      if !malformed {
        call := Some(Call(CStr(section[..], 0), name, value));
      }
    }
  }

  /** The body of ini_parse's loop. */
  method ParseLineInPlace(line: array<char>, section: array<char>, prevName: array<char>, raw: string)
    returns (malformed: bool, call: Option<Call>)
    requires line != section && line != prevName && section != prevName
    requires line.Length == MAX_LINE && section.Length == MAX_SECTION && prevName.Length == MAX_NAME
    requires Terminated(section[..], 0) && Terminated(prevName[..], 0)
    modifies line, section, prevName
    ensures Terminated(section[..], 0) && Terminated(prevName[..], 0)
    ensures LineResult(CStr(section[..], 0), CStr(prevName[..], 0), call, malformed) ==
            old(ParseLine(CStr(section[..], 0), CStr(prevName[..], 0), raw))
  {
    LoadLine(line, raw);
    RStrip(line, 0);
    malformed, call := DispatchLine(line, section, prevName);
  }

  // ---------------------------------------------------------------- the whole file

  /** ini_parse: -1 for a file that cannot be opened, else the error and the handler calls that
      parsing its lines gives, in order. */
  method IniParse(file: Option<seq<string>>, accepts: Call -> bool) returns (error: int, calls: seq<Call>)
    ensures file.None? ==> error == -1 && calls == []
    ensures file.Some? ==> error == ParseLines(file.value, accepts).error && calls == ParseLines(file.value, accepts).calls
  {
    if file.None? {
      return -1, [];
    }
    var lines := file.value;
    var line := new char[MAX_LINE](_ => NUL);
    var section := new char[MAX_SECTION](_ => NUL);
    var prevName := new char[MAX_NAME](_ => NUL);
    error, calls := 0, [];
    for k := 0 to |lines|
      invariant Terminated(section[..], 0) && Terminated(prevName[..], 0)
      invariant Parse(CStr(section[..], 0), CStr(prevName[..], 0), calls, error) == ParseLines(lines[..k], accepts)
    {
      error, calls := RecordLine(line, section, prevName, lines[k], accepts, k + 1, error, calls);
      ReadNext(lines, k, ParseLine, accepts);
    }
    assert lines[..|lines|] == lines;
  }

  lemma {:induction false} ReadNext(lines: seq<string>, k: nat, read: LineReader, accepts: Call -> bool)
    requires k < |lines|
    ensures var p := ReadLines(lines[..k], read, accepts);
            ReadLines(lines[..k + 1], read, accepts) == Record(p, read(p.section, p.prevName, lines[k]), accepts, k + 1)
  {
    assert lines[..k + 1][..k] == lines[..k];
  }

  /** One line of the file: parse it in the buffer, call the handler, note the first error. */
  method RecordLine(line: array<char>, section: array<char>, prevName: array<char>, raw: string,
                    accepts: Call -> bool, lineno: nat, error: int, calls: seq<Call>)
    returns (error': int, calls': seq<Call>)
    requires line != section && line != prevName && section != prevName
    requires line.Length == MAX_LINE && section.Length == MAX_SECTION && prevName.Length == MAX_NAME
    requires Terminated(section[..], 0) && Terminated(prevName[..], 0)
    modifies line, section, prevName
    ensures Terminated(section[..], 0) && Terminated(prevName[..], 0)
    ensures var p := old(Parse(CStr(section[..], 0), CStr(prevName[..], 0), calls, error));
            Parse(CStr(section[..], 0), CStr(prevName[..], 0), calls', error') ==
            Record(p, ParseLine(p.section, p.prevName, raw), accepts, lineno)
  {
    error', calls' := error, calls;
    var malformed, call := ParseLineInPlace(line, section, prevName, raw);
    var bad := malformed;
    if call.Some? {
      calls' := calls + [call.value];
      bad := bad || !accepts(call.value);
    }
    if bad && error == 0 {
      error' := lineno;
    }
  }
}
