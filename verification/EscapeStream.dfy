// The awk program that turns the first or last lines of a log into the body of a JSON string
// of bounded length, record by record, and how JSON (section 7 of RFC 8259) reads it back.
module EscapeStream {
  import opened Wrappers
  import opened Text

  // What each character of the text becomes; a newline stands between two lines.
  function EscapeChar(c: char): (s: string)
    ensures 1 <= |s| <= 2
  {
    if c == '\\' then "\\\\"
    else if c == '"' then "\\\""
    else if c == '\t' then "\\t"
    else if c == '\r' then "\\r"
    else if c == '\n' then "\\n"
    else [c]
  }

  function EscapeText(s: string): string {
    if s == "" then "" else EscapeChar(s[0]) + EscapeText(s[1..])
  }

  // gsub of one character.
  function Gsub(s: string, c: char, repl: string): string {
    if s == "" then "" else (if s[0] == c then repl else [s[0]]) + Gsub(s[1..], c, repl)
  }

  // The four substitutions in the order the program makes them.
  function EscapeRecord(s: string): string {
    Gsub(Gsub(Gsub(Gsub(s, '\\', "\\\\"), '"', "\\\""), '\t', "\\t"), '\r', "\\r")
  }

  lemma {:induction false} GsubConcat(a: string, b: string, c: char, repl: string)
    ensures Gsub(a + b, c, repl) == Gsub(a, c, repl) + Gsub(b, c, repl)
  {
    if a == "" {
      assert a + b == b;
    } else {
      assert (a + b)[1..] == a[1..] + b;
      GsubConcat(a[1..], b, c, repl);
    }
  }

  lemma GsubOne(x: char, c: char, repl: string)
    ensures Gsub([x], c, repl) == if x == c then repl else [x]
  {
    assert [x][1..] == "";
  }

  lemma GsubTwo(x: char, y: char, c: char, repl: string)
    requires x != c && y != c
    ensures Gsub([x, y], c, repl) == [x, y]
  {
    assert [x, y] == [x] + [y];
    GsubConcat([x], [y], c, repl);
    GsubOne(x, c, repl);
    GsubOne(y, c, repl);
  }

  lemma EscapeRecordConcat(a: string, b: string)
    ensures EscapeRecord(a + b) == EscapeRecord(a) + EscapeRecord(b)
  {
    GsubConcat(a, b, '\\', "\\\\");
    var a1, b1 := Gsub(a, '\\', "\\\\"), Gsub(b, '\\', "\\\\");
    GsubConcat(a1, b1, '"', "\\\"");
    var a2, b2 := Gsub(a1, '"', "\\\""), Gsub(b1, '"', "\\\"");
    GsubConcat(a2, b2, '\t', "\\t");
    GsubConcat(Gsub(a2, '\t', "\\t"), Gsub(b2, '\t', "\\t"), '\r', "\\r");
  }

  lemma EscapeRecordOne(c: char)
    requires c != '\n'
    ensures EscapeRecord([c]) == EscapeChar(c)
  {
    GsubOne(c, '\\', "\\\\");
    if c == '\\' {
      GsubTwo('\\', '\\', '"', "\\\"");
      GsubTwo('\\', '\\', '\t', "\\t");
      GsubTwo('\\', '\\', '\r', "\\r");
    } else {
      GsubOne(c, '"', "\\\"");
      GsubOne(c, '\t', "\\t");
      GsubOne(c, '\r', "\\r");
      GsubTwo('\\', '"', '\t', "\\t");
      GsubTwo('\\', '"', '\r', "\\r");
      GsubTwo('\\', 't', '\r', "\\r");
    }
  }

  // On a record, the four substitutions one after the other replace every character once.
  lemma {:induction false} GsubsEscapeOnce(s: string)
    requires '\n' !in s
    ensures EscapeRecord(s) == EscapeText(s)
  {
    if s != "" {
      assert s == [s[0]] + s[1..];
      EscapeRecordConcat([s[0]], s[1..]);
      EscapeRecordOne(s[0]);
      GsubsEscapeOnce(s[1..]);
    }
  }

  // The order matters: with the backslashes replaced last, those that the other substitutions
  // put in would be doubled. So exactly the texts without a quote, a tab or a carriage return
  // would come out right.
  function EscapeBackslashesLast(s: string): string {
    Gsub(Gsub(Gsub(Gsub(s, '"', "\\\""), '\t', "\\t"), '\r', "\\r"), '\\', "\\\\")
  }

  predicate NeedsBackslash(c: char) {
    c == '"' || c == '\t' || c == '\r'
  }

  lemma BackslashesLastConcat(a: string, b: string)
    ensures EscapeBackslashesLast(a + b) == EscapeBackslashesLast(a) + EscapeBackslashesLast(b)
  {
    GsubConcat(a, b, '"', "\\\"");
    var a1, b1 := Gsub(a, '"', "\\\""), Gsub(b, '"', "\\\"");
    GsubConcat(a1, b1, '\t', "\\t");
    var a2, b2 := Gsub(a1, '\t', "\\t"), Gsub(b1, '\t', "\\t");
    GsubConcat(a2, b2, '\r', "\\r");
    GsubConcat(Gsub(a2, '\r', "\\r"), Gsub(b2, '\r', "\\r"), '\\', "\\\\");
  }

  lemma DoubledBackslash(c: char)
    requires c != '\\'
    ensures |Gsub(['\\', c], '\\', "\\\\")| == 3
  {
    assert ['\\', c] == ['\\'] + [c];
    GsubConcat(['\\'], [c], '\\', "\\\\");
    GsubOne('\\', '\\', "\\\\");
    GsubOne(c, '\\', "\\\\");
  }

  lemma BackslashesLastOne(c: char)
    requires c != '\n'
    ensures if NeedsBackslash(c) then |EscapeBackslashesLast([c])| == 3 else EscapeBackslashesLast([c]) == EscapeChar(c)
  {
    GsubOne(c, '"', "\\\"");
    if c == '"' {
      GsubTwo('\\', '"', '\t', "\\t");
      GsubTwo('\\', '"', '\r', "\\r");
      DoubledBackslash('"');
    } else {
      GsubOne(c, '\t', "\\t");
      if c == '\t' {
        GsubTwo('\\', 't', '\r', "\\r");
        DoubledBackslash('t');
      } else {
        GsubOne(c, '\r', "\\r");
        if c == '\r' {
          DoubledBackslash('r');
        } else {
          GsubOne(c, '\\', "\\\\");
        }
      }
    }
  }

  lemma {:induction false} BackslashesMustGoFirst(s: string)
    requires '\n' !in s
    ensures |EscapeBackslashesLast(s)| >= |EscapeText(s)|
    ensures EscapeBackslashesLast(s) == EscapeText(s) <==> forall c | c in s :: !NeedsBackslash(c)
    ensures (exists c :: c in s && NeedsBackslash(c)) ==> |EscapeBackslashesLast(s)| > |EscapeText(s)|
  {
    if s != "" {
      assert s == [s[0]] + s[1..];
      BackslashesLastConcat([s[0]], s[1..]);
      BackslashesLastOne(s[0]);
      BackslashesMustGoFirst(s[1..]);
      assert forall c :: c in s <==> c == s[0] || c in s[1..];
    }
  }

  lemma {:induction false} EscapeConcat(a: string, b: string)
    ensures EscapeText(a + b) == EscapeText(a) + EscapeText(b)
  {
    if a == "" {
      assert a + b == b;
    } else {
      assert (a + b)[1..] == a[1..] + b;
      EscapeConcat(a[1..], b);
    }
  }

  lemma EscapeOne(c: char)
    ensures EscapeText([c]) == EscapeChar(c)
  {
    assert [c][1..] == "";
  }

  lemma {:induction false} JoinLinesMore(lines: seq<string>, l: string)
    ensures JoinLines(lines + [l]) == if lines == [] then l else JoinLines(lines) + "\n" + l
  {
    if |lines| > 0 {
      assert (lines + [l])[1..] == lines[1..] + [l];
      JoinLinesMore(lines[1..], l);
      assert |lines| == 1 ==> lines[1..] == [];
    }
  }

  lemma {:induction false} JoinLinesExtend(lines: seq<string>, i: nat)
    requires i <= |lines|
    ensures JoinLines(lines[..i]) <= JoinLines(lines)
    decreases |lines| - i
  {
    if i == |lines| {
      assert lines[..i] == lines;
    } else {
      JoinLinesExtend(lines, i + 1);
      assert lines[..i + 1] == lines[..i] + [lines[i]];
      JoinLinesMore(lines[..i], lines[i]);
    }
  }

  lemma EscapedPrefix(a: string, all: string)
    requires a <= all
    ensures EscapeText(a) <= EscapeText(all)
  {
    assert all == a + all[|a|..];
    EscapeConcat(a, all[|a|..]);
  }

  // What the escaped text begins with stays the beginning when lines are added.
  lemma EscapedExtends(lines: seq<string>, i: nat)
    requires i <= |lines|
    ensures EscapeText(JoinLines(lines[..i])) <= EscapeText(JoinLines(lines))
  {
    JoinLinesExtend(lines, i);
    EscapedPrefix(JoinLines(lines[..i]), JoinLines(lines));
  }

  function FirstChars(s: string, max: nat): string {
    if |s| <= max then s else s[..max]
  }

  // The record loop. It puts out exactly the first `max` characters of the whole escaped
  // text, or all of it when it is shorter.
  method EscapeLines(lines: seq<string>, max: nat) returns (out: string)
    requires forall l | l in lines :: '\n' !in l
    ensures out == FirstChars(EscapeText(JoinLines(lines)), max)
  {
    out := "";
    var used := 0;
    for i := 0 to |lines|
      invariant used == |out| <= max
      invariant out == EscapeText(JoinLines(lines[..i]))
    {
      var s := EscapeRecord(lines[i]);
      if i > 0 {
        s := "\\n" + s;
      }
      RecordExtends(lines, i, s);
      EscapedExtends(lines, i + 1);
      var remaining := max - used;
      if remaining <= 0 {
        return;
      }
      if |s| > remaining {
        out := out + s[..remaining];
        return;
      }
      out := out + s;
      used := used + |s|;
    }
    assert lines[..|lines|] == lines;
  }

  lemma RecordExtends(lines: seq<string>, i: nat, s: string)
    requires i < |lines| && '\n' !in lines[i]
    requires s == (if i > 0 then "\\n" else "") + EscapeRecord(lines[i])
    ensures EscapeText(JoinLines(lines[..i + 1])) == EscapeText(JoinLines(lines[..i])) + s
  {
    assert lines[..i + 1] == lines[..i] + [lines[i]];
    JoinLinesMore(lines[..i], lines[i]);
    GsubsEscapeOnce(lines[i]);
    if i > 0 {
      var before := JoinLines(lines[..i]);
      EscapeConcat(before + "\n", lines[i]);
      EscapeConcat(before, "\n");
      EscapeOne('\n');
    }
  }

  // ---- Reading a JSON string ------------------------------------------------------------

  function Unescape(c: char): Option<char> {
    if c == '"' || c == '\\' || c == '/' then Some(c)
    else if c == 'b' then Some(0x08 as char)
    else if c == 'f' then Some(0x0C as char)
    else if c == 'n' then Some('\n')
    else if c == 'r' then Some('\r')
    else if c == 't' then Some('\t')
    else None
  }

  // The string that starts after an opening quote, and what follows its closing quote. None
  // on a string that does not end, on a raw control character and on an unknown escape.
  function ReadString(s: string): Option<(string, string)> {
    if s == "" || s[0] < ' ' then None
    else if s[0] == '"' then Some(("", s[1..]))
    else if s[0] == '\\' then
      if |s| < 2 || Unescape(s[1]).None? then None else Prepend(Unescape(s[1]).value, ReadString(s[2..]))
    else Prepend(s[0], ReadString(s[1..]))
  }

  function Prepend(c: char, r: Option<(string, string)>): Option<(string, string)> {
    if r.None? then None else Some(([c] + r.value.0, r.value.1))
  }

  // The characters that an escaped text can carry: control characters have no escape of
  // their own, except tab, carriage return and newline.
  predicate Carried(c: char) {
    c >= ' ' || c == '\t' || c == '\r' || c == '\n'
  }

  lemma ReadEscapedChar(c: char, rest: string)
    ensures ReadString(EscapeChar(c) + rest) == if Carried(c) then Prepend(c, ReadString(rest)) else None
  {
    var s := EscapeChar(c) + rest;
    if |EscapeChar(c)| == 2 {
      assert s[2..] == rest;
    } else {
      assert s[1..] == rest;
    }
  }

  // The escaped text, closed by a quote, reads back as the text exactly when every character
  // is one that is carried.
  lemma {:induction false} EscapedReadsBackIff(t: string, rest: string)
    ensures ReadString(EscapeText(t) + ['"'] + rest) ==
      if forall c | c in t :: Carried(c) then Some((t, rest)) else None
  {
    if t == "" {
      var s := EscapeText(t) + ['"'] + rest;
      assert s[0] == '"' && s[1..] == rest;
    } else {
      EscapedReadsBackIff(t[1..], rest);
      ReadEscapedChar(t[0], EscapeText(t[1..]) + ['"'] + rest);
      assert EscapeText(t) + ['"'] + rest == EscapeChar(t[0]) + (EscapeText(t[1..]) + ['"'] + rest);
      assert forall c :: c in t <==> c == t[0] || c in t[1..];
      assert [t[0]] + t[1..] == t;
    }
  }

  // Without its closing quote an escaped text, or the beginning of one, is no string.
  lemma {:induction false} UnclosedIsNoString(t: string, n: nat)
    requires n <= |EscapeText(t)|
    ensures ReadString(EscapeText(t)[..n]).None?
  {
    if t != "" && n > 0 {
      var piece := EscapeChar(t[0]);
      if n >= |piece| {
        assert EscapeText(t)[..n] == piece + EscapeText(t[1..])[..n - |piece|];
        UnclosedIsNoString(t[1..], n - |piece|);
        ReadEscapedChar(t[0], EscapeText(t[1..])[..n - |piece|]);
      } else {
        assert EscapeText(t)[..n] == "\\";
      }
    }
  }

  // What follows an escaped text is read on, as part of the same string.
  lemma {:induction false} ReadsOn(t: string, rest: string)
    ensures ReadString(EscapeText(t) + rest) ==
      if forall c | c in t :: Carried(c) then PrependAll(t, ReadString(rest)) else None
  {
    if t == "" {
      assert EscapeText(t) + rest == rest;
      assert ReadString(rest).Some? ==> "" + ReadString(rest).value.0 == ReadString(rest).value.0;
    } else {
      ReadsOn(t[1..], rest);
      ReadEscapedChar(t[0], EscapeText(t[1..]) + rest);
      assert EscapeText(t) + rest == EscapeChar(t[0]) + (EscapeText(t[1..]) + rest);
      assert forall c :: c in t <==> c == t[0] || c in t[1..];
      if ReadString(rest).Some? {
        assert [t[0]] + (t[1..] + ReadString(rest).value.0) == t + ReadString(rest).value.0;
      }
    }
  }

  function PrependAll(t: string, r: Option<(string, string)>): Option<(string, string)> {
    if r.None? then None else Some((t + r.value.0, r.value.1))
  }

  // ---- A cut ------------------------------------------------------------------------------

  // The characters of the text whose escapes lie within the first n characters.
  function Fitting(t: string, n: nat): (k: nat)
    ensures k <= |t|
  {
    if t == "" || n < |EscapeChar(t[0])| then 0 else 1 + Fitting(t[1..], n - |EscapeChar(t[0])|)
  }

  // The cut falls inside an escape.
  predicate CutInside(t: string, n: nat) {
    n < |EscapeText(t)| && |EscapeText(t[..Fitting(t, n)])| != n
  }

  lemma EscapeFront(t: string, k: nat)
    requires 0 < k <= |t|
    ensures EscapeText(t[..k]) == EscapeChar(t[0]) + EscapeText(t[1..][..k - 1])
  {
    assert t[..k][1..] == t[1..][..k - 1];
  }

  // A cut leaves the escape of the fitting characters and, inside an escape, a backslash.
  lemma {:induction false} CutShape(t: string, n: nat)
    requires n <= |EscapeText(t)|
    ensures EscapeText(t)[..n] == EscapeText(t[..Fitting(t, n)]) + if CutInside(t, n) then "\\" else ""
  {
    if t == "" {
      assert t[..0] == "";
    } else if n < |EscapeChar(t[0])| {
      assert t[..0] == "";
      if n > 0 {
        assert EscapeText(t)[..n] == ['\\'];
      }
    } else {
      var rest, m := t[1..], n - |EscapeChar(t[0])|;
      CutShape(rest, m);
      EscapeFront(t, Fitting(t, n));
      CutConcat(EscapeChar(t[0]), EscapeText(rest), n, "");
    }
  }

  lemma CutConcat(a: string, b: string, n: nat, c: string)
    requires |a| <= n <= |a| + |b|
    ensures (a + b)[..n] + c == a + (b[..n - |a|] + c)
    ensures (a + b)[..n] == a + b[..n - |a|]
  {
  }

  // An uncut text fits whole.
  lemma {:induction false} UncutFits(t: string, n: nat)
    requires n >= |EscapeText(t)|
    ensures Fitting(t, n) == |t| && !CutInside(t, n)
  {
    if t != "" {
      UncutFits(t[1..], n - |EscapeChar(t[0])|);
    }
  }

  // A truncated text, closed by a quote, reads back exactly when the characters that fit are
  // carried and the cut does not fall inside an escape; it reads back as these characters. A
  // cut inside an escape makes the closing quote part of the text, and reading goes on.
  lemma CutReadsBackIff(t: string, n: nat, rest: string)
    requires n <= |EscapeText(t)|
    ensures var shown := t[..Fitting(t, n)];
      ReadString(EscapeText(t)[..n] + ['"'] + rest) ==
        if !(forall c | c in shown :: Carried(c)) then None
        else if CutInside(t, n) then PrependAll(shown + ['"'], ReadString(rest))
        else Some((shown, rest))
  {
    var shown := t[..Fitting(t, n)];
    CutShape(t, n);
    if CutInside(t, n) {
      var text := shown + ['"'];
      EscapeConcat(shown, ['"']);
      EscapeOne('"');
      assert EscapeText(t)[..n] + ['"'] + rest == EscapeText(text) + rest;
      ReadsOn(text, rest);
      assert forall c :: c in text <==> c in shown || c == '"';
    } else {
      assert EscapeText(t)[..n] + ['"'] + rest == EscapeText(shown) + ['"'] + rest;
      EscapedReadsBackIff(shown, rest);
    }
  }
}
