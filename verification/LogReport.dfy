// get_head_tail_logs end to end: the line the remote shell prints, and the search for it in
// the command's output. When the logs come back, and when they do not. Of every escaped log at
// most `max` characters are printed (100000 in the program); all of this holds for any limit.
module LogReport {
  import opened Wrappers
  import opened Text
  import opened EscapeStream

  const HEADER := ">>>> "

  // A key with the text of one log window, or with null for an absent stream.
  datatype Field = Field(key: string, value: Option<string>)

  // ---- The printed line -----------------------------------------------------------------

  // How much of the escaped text is printed: the first `max` characters.
  function Shown(t: string, max: nat): (n: nat)
    ensures n <= |EscapeText(t)| && FirstChars(EscapeText(t), max) == EscapeText(t)[..n]
  {
    var all := EscapeText(t);
    assert all[..|all|] == all;
    if |all| <= max then |all| else max
  }

  function PrintValue(v: Option<string>, max: nat): string {
    if v.None? then "null" else "\"" + FirstChars(EscapeText(v.value), max) + "\""
  }

  function PrintField(f: Field, max: nat): string {
    "\"" + f.key + "\":" + PrintValue(f.value, max)
  }

  function PrintFields(fs: seq<Field>, max: nat): string
    requires fs != []
  {
    if |fs| == 1 then PrintField(fs[0], max) + "}" else PrintField(fs[0], max) + "," + PrintFields(fs[1..], max)
  }

  function PrintLine(fs: seq<Field>, max: nat): string
    requires fs != []
  {
    HEADER + "{" + PrintFields(fs, max)
  }

  // ---- The reader -----------------------------------------------------------------------

  // A value: null or a string, and what follows it.
  function ReadValue(s: string): Option<(Option<string>, string)> {
    if |s| >= 4 && s[..4] == "null" then Some((None, s[4..]))
    else if s == "" || s[0] != '"' then None
    else
      match ReadString(s[1..])
      case None => None
      case Some((text, rest)) => Some((Some(text), rest))
  }

  function ReadField(s: string): Option<(Field, string)> {
    if s == "" || s[0] != '"' then None
    else
      match ReadString(s[1..])
      case None => None
      case Some((key, rest)) =>
        if rest == "" || rest[0] != ':' then None
        else
          match ReadValue(rest[1..])
          case None => None
          case Some((value, more)) => Some((Field(key, value), more))
  }

  lemma {:induction false} ReadStringConsumes(s: string)
    ensures ReadString(s).Some? ==> |ReadString(s).value.1| < |s|
    decreases |s|
  {
    if s != "" && s[0] >= ' ' && s[0] != '"' {
      ReadStringConsumes(if s[0] == '\\' && |s| >= 2 then s[2..] else s[1..]);
    }
  }

  lemma ReadFieldConsumes(s: string)
    ensures ReadField(s).Some? ==> |ReadField(s).value.1| < |s|
  {
    if s != "" {
      ReadStringConsumes(s[1..]);
      if ReadString(s[1..]).Some? && ReadString(s[1..]).value.1 != "" {
        var rest := ReadString(s[1..]).value.1;
        if rest[1..] != "" {
          ReadStringConsumes(rest[1..][1..]);
        }
      }
    }
  }

  // The members of an object, after its opening brace.
  function ReadFields(s: string): Option<seq<Field>>
    decreases |s|
  {
    ReadFieldConsumes(s);
    match ReadField(s)
    case None => None
    case Some((f, rest)) =>
      if rest == "}" then Some([f])
      else if rest == "" || rest[0] != ',' then None
      else match ReadFields(rest[1..])
        case None => None
        case Some(fs) => Some([f] + fs)
  }

  // The search over the lines: the first that starts with the header is parsed, or nothing.
  method FindReport(stdout: string) returns (r: Option<seq<Field>>)
    ensures r == ReportOf(SplitLines(stdout))
  {
    var lines := SplitLines(stdout);
    for i := 0 to |lines|
      invariant ReportOf(lines) == ReportOf(lines[i..])
    {
      if HEADER <= lines[i] {
        return ReadObject(lines[i][|HEADER|..]);
      }
    }
    r := None;
  }

  function ReadObject(s: string): Option<seq<Field>> {
    if s == "" || s[0] != '{' then None else ReadFields(s[1..])
  }

  function ReportOf(lines: seq<string>): Option<seq<Field>> {
    if lines == [] then None
    else if HEADER <= lines[0] then ReadObject(lines[0][|HEADER|..])
    else ReportOf(lines[1..])
  }

  // ---- Reading back what was printed ----------------------------------------------------

  // Keys like head_out: not empty, not beginning with a comma or a brace, and plain.
  predicate PlainKey(key: string) {
    && key != "" && key[0] != ',' && key[0] != '}'
    && forall c | c in key :: c >= ' ' && c != '"' && c != '\\' && !IsLineBreak(c)
  }

  ghost predicate PlainKeys(fs: seq<Field>) {
    forall f | f in fs :: PlainKey(f.key)
  }

  // The part of a window that is printed with whole escapes.
  function Window(t: string, max: nat): string {
    t[..Fitting(t, Shown(t, max))]
  }

  predicate Torn(t: string, max: nat) {
    CutInside(t, Shown(t, max))
  }

  function Windows(fs: seq<Field>, max: nat): seq<Field> {
    seq(|fs|, i requires 0 <= i < |fs| => WindowOf(fs[i], max))
  }

  function WindowOf(f: Field, max: nat): Field {
    Field(f.key, if f.value.None? then None else Some(Window(f.value.value, max)))
  }

  // What is printed of the field reads back as a string.
  predicate ReadsBack(f: Field, max: nat) {
    f.value.Some? ==> !Torn(f.value.value, max) && forall c | c in Window(f.value.value, max) :: Carried(c)
  }

  lemma {:induction false} PlainIsItself(key: string)
    requires forall c | c in key :: c >= ' ' && c != '"' && c != '\\' && !IsLineBreak(c)
    ensures EscapeText(key) == key && (forall c | c in key :: Carried(c))
  {
    if key != "" {
      assert key[0] in key;
      assert forall c | c in key[1..] :: c in key;
      PlainIsItself(key[1..]);
    }
  }

  lemma KeyReadsBack(key: string, rest: string)
    requires PlainKey(key)
    ensures ReadString(key + "\":" + rest) == Some((key, ":" + rest))
  {
    PlainIsItself(key);
    EscapedReadsBackIff(key, ":" + rest);
    assert key + "\":" + rest == EscapeText(key) + "\"" + (":" + rest);
  }

  lemma TextReadsBack(t: string, max: nat, rest: string)
    ensures var shown := Window(t, max);
      ReadValue(PrintValue(Some(t), max) + rest) ==
        if !(forall c | c in shown :: Carried(c)) then None
        else
          var r := if Torn(t, max) then PrependAll(shown + ['"'], ReadString(rest)) else Some((shown, rest));
          if r.None? then None else Some((Some(r.value.0), r.value.1))
  {
    var n := Shown(t, max);
    var s := PrintValue(Some(t), max) + rest;
    assert s[0] == '"' && s[1..] == EscapeText(t)[..n] + ['"'] + rest;
    assert |s| >= 4 ==> s[..4][0] == '"';
    CutReadsBackIff(t, n, rest);
  }

  lemma ValueReadsBack(f: Field, max: nat, rest: string)
    requires ReadsBack(f, max)
    ensures ReadValue(PrintValue(f.value, max) + rest) == Some((WindowOf(f, max).value, rest))
  {
    var s := PrintValue(f.value, max) + rest;
    if f.value.None? {
      assert s[..4] == "null" && s[4..] == rest;
    } else {
      TextReadsBack(f.value.value, max, rest);
    }
  }

  lemma FieldIsKeyAndValue(f: Field, max: nat, rest: string)
    requires PlainKey(f.key)
    ensures var r := ReadValue(PrintValue(f.value, max) + rest);
      ReadField(PrintField(f, max) + rest) == if r.None? then None else Some((Field(f.key, r.value.0), r.value.1))
  {
    var s, tail := PrintField(f, max) + rest, PrintValue(f.value, max) + rest;
    assert s[0] == '"' && s[1..] == f.key + "\":" + tail;
    KeyReadsBack(f.key, tail);
    assert (":" + tail)[1..] == tail;
  }

  // What can follow a field on the line, all of it or the beginning of it.
  predicate Continues(rest: string) {
    || rest == "" || rest == "}"
    || (rest[0] == ',' && (|rest| == 1 || (rest[1] == '"' && (|rest| == 2 || (rest[2] != ',' && rest[2] != '}')))))
  }

  // A string whose closing quote was swallowed ends at the quote that opens the next key, or
  // not at all.
  lemma SwallowedEnd(rest: string)
    requires Continues(rest)
    ensures var r := ReadString(rest);
      r.Some? ==> r.value.1 == "" || (r.value.1[0] != ',' && r.value.1[0] != '}')
  {
    if |rest| >= 2 && rest[0] == ',' {
      assert rest[1..][0] == '"' && rest[1..][1..] == rest[2..];
    } else if |rest| == 1 {
      assert rest[1..] == "";
    }
  }

  // A field that does not read back takes the whole object with it.
  lemma BadFieldLosesAll(f: Field, max: nat, rest: string)
    requires PlainKey(f.key) && !ReadsBack(f, max) && Continues(rest)
    ensures ReadFields(PrintField(f, max) + rest).None?
  {
    FieldIsKeyAndValue(f, max, rest);
    TextReadsBack(f.value.value, max, rest);
    SwallowedEnd(rest);
  }

  lemma GoodFieldGoesOn(f: Field, max: nat, rest: string)
    requires PlainKey(f.key) && ReadsBack(f, max)
    ensures ReadField(PrintField(f, max) + rest) == Some((WindowOf(f, max), rest))
  {
    FieldIsKeyAndValue(f, max, rest);
    ValueReadsBack(f, max, rest);
  }

  lemma LineContinues(fs: seq<Field>, max: nat, n: nat)
    requires fs != [] && PlainKeys(fs) && n <= |PrintFields(fs, max)|
    ensures Continues("," + PrintFields(fs, max)[..n])
  {
    var head := PrintField(fs[0], max);
    assert fs[0] in fs && head[0] == '"' && head[1] == fs[0].key[0];
    assert PrintFields(fs, max)[..|head|] == head;
  }

  lemma LastFieldReadsBackIff(f: Field, max: nat)
    requires PlainKey(f.key)
    ensures ReadFields(PrintField(f, max) + "}") == if ReadsBack(f, max) then Some([WindowOf(f, max)]) else None
  {
    if ReadsBack(f, max) {
      GoodFieldGoesOn(f, max, "}");
    } else {
      BadFieldLosesAll(f, max, "}");
    }
  }

  lemma FrontFieldReadsOn(f: Field, max: nat, more: string)
    requires PlainKey(f.key) && Continues("," + more)
    ensures ReadFields(PrintField(f, max) + ("," + more)) ==
      if !ReadsBack(f, max) || ReadFields(more).None? then None else Some([WindowOf(f, max)] + ReadFields(more).value)
  {
    var rest := "," + more;
    if ReadsBack(f, max) {
      GoodFieldGoesOn(f, max, rest);
      assert rest[0] == ',' && rest[1..] == more && rest != "}";
    } else {
      BadFieldLosesAll(f, max, rest);
    }
  }

  // What is read when every field of the list reads back.
  function Readable(fs: seq<Field>, max: nat): Option<seq<Field>> {
    if forall f | f in fs :: ReadsBack(f, max) then Some(Windows(fs, max)) else None
  }

  lemma ReadableFront(f: Field, fs: seq<Field>, max: nat)
    ensures Readable([f] + fs, max) ==
      if !ReadsBack(f, max) || Readable(fs, max).None? then None else Some([WindowOf(f, max)] + Readable(fs, max).value)
  {
    assert forall g :: g in [f] + fs <==> g == f || g in fs;
    assert [WindowOf(f, max)] + Windows(fs, max) == Windows([f] + fs, max);
  }

  lemma ReadableOne(f: Field, max: nat)
    ensures Readable([f], max) == if ReadsBack(f, max) then Some([WindowOf(f, max)]) else None
  {
    assert f in [f];
    assert [WindowOf(f, max)] == Windows([f], max);
  }

  lemma PrintedFront(f: Field, fs: seq<Field>, max: nat)
    requires fs != []
    ensures PrintFields([f] + fs, max) == PrintField(f, max) + ("," + PrintFields(fs, max))
  {
    assert ([f] + fs)[1..] == fs;
  }

  lemma PrintedContinues(fs: seq<Field>, max: nat)
    requires fs != [] && PlainKeys(fs)
    ensures Continues("," + PrintFields(fs, max))
  {
    var all := PrintFields(fs, max);
    LineContinues(fs, max, |all|);
    assert all[..|all|] == all;
  }

  lemma {:induction false} FieldsReadBackIff(fs: seq<Field>, max: nat)
    requires fs != [] && PlainKeys(fs)
    ensures ReadFields(PrintFields(fs, max)) == Readable(fs, max)
  {
    var f, more := fs[0], fs[1..];
    if |fs| == 1 {
      assert fs == [f];
      LastFieldReadsBackIff(f, max);
      ReadableOne(f, max);
    } else {
      FieldsReadBackIff(more, max);
      PrintedContinues(more, max);
      FrontFieldReadsOn(f, max, PrintFields(more, max));
      PrintedFront(f, more, max);
      ReadableFront(f, more, max);
      assert fs == [f] + more;
    }
  }

  // ---- A line that was cut --------------------------------------------------------------

  lemma CutKeyIsNoField(f: Field, max: nat, n: nat)
    requires PlainKey(f.key) && n <= |f.key| + 2
    ensures ReadField(PrintField(f, max)[..n]).None?
  {
    var s := PrintField(f, max)[..n];
    PlainIsItself(f.key);
    if 0 < n <= |f.key| + 1 {
      assert s[1..] == EscapeText(f.key)[..n - 1];
      UnclosedIsNoString(f.key, n - 1);
    } else if n == |f.key| + 2 {
      assert s == "\"" + f.key + "\"" && s[1..] == EscapeText(f.key) + "\"" + "";
      EscapedReadsBackIff(f.key, "");
    }
  }

  lemma CutValueIsNoValue(v: Option<string>, max: nat, n: nat)
    requires n < |PrintValue(v, max)|
    ensures ReadValue(PrintValue(v, max)[..n]).None?
  {
    if v.Some? && n > 0 {
      var cut := EscapeText(v.value)[..n - 1];
      assert PrintValue(v, max)[..n] == ['"'] + cut;
      UnclosedIsNoString(v.value, n - 1);
      UnclosedIsNoValue(cut);
    }
  }

  lemma UnclosedIsNoValue(cut: string)
    requires ReadString(cut).None?
    ensures ReadValue(['"'] + cut).None?
  {
    var s := ['"'] + cut;
    assert s[1..] == cut;
    assert |s| >= 4 ==> s[..4][0] == '"';
  }

  lemma CutFieldIsNoField(f: Field, max: nat, n: nat)
    requires PlainKey(f.key) && n < |PrintField(f, max)|
    ensures ReadField(PrintField(f, max)[..n]).None?
  {
    if n <= |f.key| + 2 {
      CutKeyIsNoField(f, max, n);
    } else {
      var s, m := PrintField(f, max)[..n], n - |f.key| - 3;
      var cut := PrintValue(f.value, max)[..m];
      assert s[0] == '"' && s[1..] == f.key + "\":" + cut;
      KeyReadsBack(f.key, cut);
      assert (":" + cut)[1..] == cut;
      CutValueIsNoValue(f.value, max, m);
    }
  }

  lemma HeadAloneDoesNotParse(f: Field, max: nat)
    requires PlainKey(f.key)
    ensures ReadFields(PrintField(f, max)).None?
  {
    assert PrintField(f, max) + "" == PrintField(f, max);
    if ReadsBack(f, max) {
      GoodFieldGoesOn(f, max, "");
    } else {
      BadFieldLosesAll(f, max, "");
    }
  }

  // Where a cut of the object falls: within its first field, or behind it.
  lemma CutPoint(fs: seq<Field>, max: nat, n: nat)
    requires fs != [] && n < |PrintFields(fs, max)|
    ensures var head := PrintField(fs[0], max);
      && (n <= |head| ==> PrintFields(fs, max)[..n] == head[..n])
      && (n > |head| ==> |fs| > 1 && n - |head| - 1 < |PrintFields(fs[1..], max)|)
      && (n > |head| ==> PrintFields(fs, max)[..n] == head + ("," + PrintFields(fs[1..], max)[..n - |head| - 1]))
  {
  }

  // No beginning of the object, short of all of it, parses.
  lemma {:induction false} CutFieldsDoNotParse(fs: seq<Field>, max: nat, n: nat)
    requires fs != [] && PlainKeys(fs) && n < |PrintFields(fs, max)|
    ensures ReadFields(PrintFields(fs, max)[..n]).None?
  {
    var f, len := fs[0], |PrintField(fs[0], max)|;
    CutPoint(fs, max, n);
    if n < len {
      CutFieldIsNoField(f, max, n);
    } else if n == len {
      assert PrintField(f, max)[..len] == PrintField(f, max);
      HeadAloneDoesNotParse(f, max);
    } else {
      CutFieldsDoNotParse(fs[1..], max, n - len - 1);
      LineContinues(fs[1..], max, n - len - 1);
      FrontFieldReadsOn(f, max, PrintFields(fs[1..], max)[..n - len - 1]);
    }
  }

  // ---- The whole way --------------------------------------------------------------------

  // A character that comes back: neither a control character other than tab, carriage return
  // and newline, nor one of the further characters at which Python ends a line.
  predicate Survives(c: char) {
    c == '\t' || c == '\r' || c == '\n' || (c >= ' ' && !IsLineBreak(c))
  }

  // The window comes back: what is printed of it survives, and it is not cut inside an escape.
  predicate ComesBack(f: Field, max: nat) {
    f.value.Some? ==> !Torn(f.value.value, max) && forall c | c in Window(f.value.value, max) :: Survives(c)
  }

  predicate BreaksNoLine(c: char) {
    !IsLineBreak(c) || c == '\r' || c == '\n'
  }

  predicate OnOneLine(f: Field, max: nat) {
    f.value.Some? ==> forall c | c in Window(f.value.value, max) :: BreaksNoLine(c)
  }

  lemma EscapedCharOneLineIff(c: char)
    ensures OneLine(EscapeChar(c)) <==> BreaksNoLine(c)
  {
    assert EscapeChar(c) == [c] ==> c in EscapeChar(c);
  }

  lemma {:induction false} EscapedOneLineIff(t: string)
    ensures OneLine(EscapeText(t)) <==> forall c | c in t :: BreaksNoLine(c)
  {
    if t != "" {
      EscapedOneLineIff(t[1..]);
      EscapedCharOneLineIff(t[0]);
      assert forall c :: c in t <==> c == t[0] || c in t[1..];
      assert forall c :: c in EscapeText(t) <==> c in EscapeChar(t[0]) || c in EscapeText(t[1..]);
    }
  }

  lemma ShownOneLineIff(t: string, max: nat)
    ensures OneLine(FirstChars(EscapeText(t), max)) <==> forall c | c in Window(t, max) :: BreaksNoLine(c)
  {
    var shown := Window(t, max);
    CutShape(t, Shown(t, max));
    EscapedOneLineIff(shown);
    var text := FirstChars(EscapeText(t), max);
    assert forall c :: c in text <==> c in EscapeText(shown) || (Torn(t, max) && c == '\\');
  }

  lemma FieldOneLineIff(f: Field, max: nat)
    requires PlainKey(f.key)
    ensures OneLine(PrintField(f, max)) <==> OnOneLine(f, max)
  {
    if f.value.Some? {
      var text := FirstChars(EscapeText(f.value.value), max);
      ShownOneLineIff(f.value.value, max);
      assert forall c :: c in PrintField(f, max) <==> c in f.key || c in text || c == '"' || c == ':';
    }
  }

  lemma {:induction false} FieldsOneLineIff(fs: seq<Field>, max: nat)
    requires fs != [] && PlainKeys(fs)
    ensures OneLine(PrintFields(fs, max)) <==> forall f | f in fs :: OnOneLine(f, max)
  {
    FieldOneLineIff(fs[0], max);
    var head := PrintField(fs[0], max);
    if |fs| == 1 {
      assert forall c :: c in PrintFields(fs, max) <==> c in head || c == '}';
    } else {
      FieldsOneLineIff(fs[1..], max);
      assert forall f :: f in fs <==> f == fs[0] || f in fs[1..];
      assert forall c :: c in PrintFields(fs, max) <==> c in head || c == ',' || c in PrintFields(fs[1..], max);
    }
  }

  lemma ReportOfFirstLine(line: string, i: nat, after: string)
    requires HEADER <= line && '\n' !in HEADER && i <= |line| && |HEADER| <= i
    requires OneLine(line[..i]) && (i < |line| ==> IsLineBreak(line[i]))
    ensures ReportOf(SplitLines(line + "\n" + after)) == ReadObject(line[|HEADER|..i])
  {
    var s := line + "\n" + after;
    assert s[..i] == line[..i];
    LineLengthIs(s, i);
    assert SplitLines(s)[0] == line[..i];
    assert line[..i][|HEADER|..] == line[|HEADER|..i];
  }

  lemma WholeLineIsRead(fs: seq<Field>, max: nat, after: string)
    requires fs != [] && OneLine(PrintFields(fs, max))
    ensures ReportOf(SplitLines(PrintLine(fs, max) + "\n" + after)) == ReadFields(PrintFields(fs, max))
  {
    var line, all := PrintLine(fs, max), PrintFields(fs, max);
    forall c | c in line
      ensures !IsLineBreak(c)
    {
      assert c in HEADER || c == '{' || c in all;
    }
    assert line[..|line|] == line;
    ReportOfFirstLine(line, |line|, after);
    assert line[|HEADER|..|line|] == "{" + all;
    assert ("{" + all)[1..] == all;
  }

  lemma CutLineIsLost(fs: seq<Field>, max: nat, after: string)
    requires fs != [] && !OneLine(PrintFields(fs, max)) && PlainKeys(fs)
    ensures ReportOf(SplitLines(PrintLine(fs, max) + "\n" + after)).None?
  {
    var all := PrintFields(fs, max);
    var n := LineLength(all);
    assert n < |all| by {
      assert all[..|all|] == all;
    }
    CutFieldsDoNotParse(fs, max, n);
    BrokenLineIsRead(all, n, after);
  }

  // Of an object that stands on more than one line, only the first is read.
  lemma BrokenLineIsRead(all: string, n: nat, after: string)
    requires n < |all| && OneLine(all[..n]) && IsLineBreak(all[n])
    ensures ReportOf(SplitLines(HEADER + "{" + all + "\n" + after)) == ReadFields(all[..n])
  {
    var line, i := HEADER + "{" + all, |HEADER| + 1 + n;
    assert OneLine(line[..i]) by {
      assert line[..i] == HEADER + "{" + all[..n];
    }
    ReportOfFirstLine(line, i, after);
    var first := line[|HEADER|..i];
    assert first == "{" + all[..n] && first[1..] == all[..n];
  }

  lemma {:induction false} ReportAfter(before: seq<string>, lines: seq<string>)
    requires forall l | l in before :: !(HEADER <= l)
    ensures ReportOf(before + lines) == ReportOf(lines)
  {
    if before == [] {
      assert before + lines == lines;
    } else {
      assert before[0] in before && (before + lines)[1..] == before[1..] + lines;
      assert forall l | l in before[1..] :: l in before;
      ReportAfter(before[1..], lines);
    }
  }

  lemma LineReadsBackIff(fs: seq<Field>, max: nat, after: string)
    requires fs != [] && PlainKeys(fs)
    ensures ReportOf(SplitLines(PrintLine(fs, max) + "\n" + after)) ==
      if forall f | f in fs :: ComesBack(f, max) then Some(Windows(fs, max)) else None
  {
    FieldsOneLineIff(fs, max);
    AllComeBackIff(fs, max);
    if OneLine(PrintFields(fs, max)) {
      FieldsReadBackIff(fs, max);
      WholeLineIsRead(fs, max, after);
    } else {
      CutLineIsLost(fs, max, after);
    }
  }

  lemma AllComeBackIff(fs: seq<Field>, max: nat)
    ensures (forall f | f in fs :: ComesBack(f, max)) <==>
      (forall f | f in fs :: ReadsBack(f, max)) && (forall f | f in fs :: OnOneLine(f, max))
  {
    assert forall f :: ComesBack(f, max) <==> ReadsBack(f, max) && OnOneLine(f, max);
  }

  // The report is found after other output, and the logs come back exactly when every window
  // does: each field then has the characters of its text that fit. A form feed or a Unicode
  // line separator in a log loses the whole report, and so does a cut inside an escape.
  lemma LogsReadBackIff(before: seq<string>, fs: seq<Field>, max: nat, after: string)
    requires fs != [] && PlainKeys(fs)
    requires forall l | l in before :: OneLine(l) && !(HEADER <= l)
    ensures ReportOf(SplitLines(Terminated(before) + (PrintLine(fs, max) + "\n" + after))) ==
      if forall f | f in fs :: ComesBack(f, max) then Some(Windows(fs, max)) else None
  {
    var text := PrintLine(fs, max) + "\n" + after;
    SplitTerminated(before, text);
    ReportAfter(before, SplitLines(text));
    LineReadsBackIff(fs, max, after);
  }

  // A text that is printed whole comes back whole, exactly when every character survives.
  lemma UncutComesBackIff(f: Field, max: nat)
    requires f.value.Some? && |EscapeText(f.value.value)| <= max
    ensures ComesBack(f, max) <==> forall c | c in f.value.value :: Survives(c)
    ensures WindowOf(f, max) == f
  {
    UncutFits(f.value.value, Shown(f.value.value, max));
    assert f.value.value[..|f.value.value|] == f.value.value;
  }

  // A log of ordinary characters with a quote at the limit: its escape is cut in two, the
  // backslash that is left escapes the closing quote, and the whole report is lost.
  lemma QuoteAtTheLimit(max: nat, key: string) returns (t: string)
    requires max > 0 && PlainKey(key)
    ensures |t| == max && (forall i | 0 <= i < max - 1 :: t[i] == 'a') && t[max - 1] == '"'
    ensures (forall c | c in t :: Survives(c)) && !ComesBack(Field(key, Some(t)), max)
    ensures ReportOf(SplitLines(PrintLine([Field(key, Some(t))], max) + "\n")).None?
  {
    t := seq(max - 1, i => 'a') + ['"'];
    LettersThenQuote(max - 1);
    var f := Field(key, Some(t));
    LogsReadBackIff([], [f], max, "");
    assert Terminated([]) + (PrintLine([f], max) + "\n" + "") == PrintLine([f], max) + "\n";
    assert f in [f];
  }

  lemma {:induction false} LettersThenQuote(n: nat)
    ensures var t := seq(n, i => 'a') + ['"'];
      |EscapeText(t)| == n + 2 && Fitting(t, n + 1) == n && CutInside(t, n + 1)
  {
    var t := seq(n, i => 'a') + ['"'];
    if n == 0 {
      assert t == ['"'];
      EscapeOne('"');
      assert t[..0] == "";
    } else {
      assert t[1..] == seq(n - 1, i => 'a') + ['"'];
      LettersThenQuote(n - 1);
      EscapeFront(t, n);
    }
  }
}
