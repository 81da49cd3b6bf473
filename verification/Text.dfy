// Python's text primitives, as far as the modelled code relies on them:
// str.partition, str.split(maxsplit=1)[0], str.splitlines and "\n".join.
// A Dafny char is a Unicode scalar value, so a string is a sequence of code points.
module Text {
  import opened Wrappers

  // str.isspace for one code point.
  predicate IsSpace(c: char) {
    var x := c as int;
    || 0x09 <= x <= 0x0D || 0x1C <= x <= 0x20 || x == 0x85 || x == 0xA0 || x == 0x1680
    || 0x2000 <= x <= 0x200A || x == 0x2028 || x == 0x2029 || x == 0x202F || x == 0x205F || x == 0x3000
  }

  // The code points at which str.splitlines ends a line.
  predicate IsLineBreak(c: char) {
    var x := c as int;
    0x0A <= x <= 0x0D || 0x1C <= x <= 0x1E || x == 0x85 || x == 0x2028 || x == 0x2029
  }

  ghost predicate OneLine(s: string) {
    forall c | c in s :: !IsLineBreak(c)
  }

  // The index of the first occurrence of c, or |s|.
  function IndexOf(s: string, c: char): (i: nat)
    ensures i <= |s|
    ensures c !in s[..i]
    ensures i < |s| ==> s[i] == c
  {
    if s == [] || s[0] == c then 0 else
      var k := IndexOf(s[1..], c);
      assert s[..1 + k] == [s[0]] + s[1..][..k];
      1 + k
  }

  lemma {:induction false} IndexOfAt(s: string, c: char, i: nat)
    requires i < |s| && s[i] == c && c !in s[..i]
    ensures IndexOf(s, c) == i
  {
    if i > 0 {
      assert s[..i][0] == s[0];
      assert s[1..][..i - 1] == s[..i][1..];
      IndexOfAt(s[1..], c, i - 1);
    }
  }

  // s.partition(c), None standing for an absent separator.
  function Partition(s: string, c: char): Option<(string, string)> {
    var i := IndexOf(s, c);
    if i == |s| then None else Some((s[..i], s[i + 1..]))
  }

  lemma PartitionJoined(a: string, c: char, b: string)
    requires c !in a
    ensures Partition(a + [c] + b, c) == Some((a, b))
  {
    var s := a + [c] + b;
    assert s[..|a|] == a && s[|a| + 1..] == b;
    IndexOfAt(s, c, |a|);
  }

  function SkipSpaces(s: string): (r: string)
    ensures |r| <= |s|
  {
    if s == [] || !IsSpace(s[0]) then s else SkipSpaces(s[1..])
  }

  function TakeWord(s: string): string {
    if s == [] || IsSpace(s[0]) then [] else [s[0]] + TakeWord(s[1..])
  }

  // s.split(maxsplit=1)[0]; None where Python raises IndexError.
  function FirstWord(s: string): Option<string> {
    var rest := SkipSpaces(s);
    if rest == [] then None else Some(TakeWord(rest))
  }

  lemma {:induction false} FirstWordMissing(s: string)
    ensures FirstWord(s).None? <==> forall c | c in s :: IsSpace(c)
  {
    if s != [] && IsSpace(s[0]) {
      FirstWordMissing(s[1..]);
      assert forall c :: c in s <==> c == s[0] || c in s[1..];
    } else if s != [] {
      assert s[0] in s;
    }
  }

  lemma {:induction false} FirstWordOf(word: string, suffix: string)
    requires word != [] && forall c | c in word :: !IsSpace(c)
    requires suffix == [] || IsSpace(suffix[0])
    ensures FirstWord(word + suffix) == Some(word)
  {
    assert word[0] in word;
    TakeWordOf(word, suffix);
  }

  lemma {:induction false} TakeWordOf(word: string, suffix: string)
    requires forall c | c in word :: !IsSpace(c)
    requires suffix == [] || IsSpace(suffix[0])
    ensures TakeWord(word + suffix) == word
  {
    if word == [] {
      assert word + suffix == suffix;
    } else {
      assert word[0] in word;
      assert (word + suffix)[1..] == word[1..] + suffix;
      TakeWordOf(word[1..], suffix);
    }
  }

  // str.splitlines: a carriage return followed by a line feed is one boundary, and a
  // boundary at the very end opens no further line.
  function SplitLines(s: string): (lines: seq<string>) {
    if s == [] then [] else
      var i := LineLength(s);
      if i == |s| then [s] else [s[..i]] + SplitLines(s[i + BreakWidth(s[i..])..])
  }

  function LineLength(s: string): (i: nat)
    ensures i <= |s|
    ensures OneLine(s[..i])
    ensures i < |s| ==> IsLineBreak(s[i])
  {
    if s == [] || IsLineBreak(s[0]) then 0 else
      var k := LineLength(s[1..]);
      assert s[..1 + k] == [s[0]] + s[1..][..k];
      1 + k
  }

  function BreakWidth(s: string): (w: nat)
    requires s != []
    ensures 1 <= w <= |s|
  {
    if |s| >= 2 && s[0] == '\r' && s[1] == '\n' then 2 else 1
  }

  function JoinLines(lines: seq<string>): string {
    if lines == [] then []
    else if |lines| == 1 then lines[0]
    else lines[0] + "\n" + JoinLines(lines[1..])
  }

  lemma {:induction false} LineLengthIs(s: string, i: nat)
    requires i <= |s| && OneLine(s[..i]) && (i < |s| ==> IsLineBreak(s[i]))
    ensures LineLength(s) == i
  {
    if i > 0 {
      assert s[..i][0] == s[0];
      assert s[1..][..i - 1] == s[..i][1..];
      LineLengthIs(s[1..], i - 1);
    }
  }

  lemma SplitFirst(head: string, tail: string)
    requires OneLine(head)
    ensures SplitLines(head + "\n" + tail) == [head] + SplitLines(tail)
  {
    var s := head + "\n" + tail;
    assert s[..|head|] == head && s[|head|] == '\n';
    LineLengthIs(s, |head|);
    assert s[|head|..][0] == '\n';
    assert s[|head| + 1..] == tail;
  }

  // "\n".join then splitlines gives the lines back, except that a final empty line is
  // swallowed (it reads as a trailing boundary).
  lemma {:induction false} SplitOfJoin(lines: seq<string>)
    requires forall l | l in lines :: OneLine(l)
    requires lines == [] || lines[|lines| - 1] != ""
    ensures SplitLines(JoinLines(lines)) == lines
  {
    if |lines| == 1 {
      assert lines[0][..|lines[0]|] == lines[0];
      LineLengthIs(lines[0], |lines[0]|);
    } else if |lines| > 1 {
      SplitFirst(lines[0], JoinLines(lines[1..]));
      SplitOfJoin(lines[1..]);
    }
  }

  // Every line followed by a newline, as programs print them.
  function Terminated(lines: seq<string>): string {
    if lines == [] then "" else lines[0] + "\n" + Terminated(lines[1..])
  }

  // splitlines gives printed lines back, empty ones included, and goes on with what follows.
  lemma {:induction false} SplitTerminated(lines: seq<string>, rest: string)
    requires forall l | l in lines :: OneLine(l)
    ensures SplitLines(Terminated(lines) + rest) == lines + SplitLines(rest)
  {
    if lines == [] {
      assert Terminated(lines) + rest == rest;
      assert lines + SplitLines(rest) == SplitLines(rest);
    } else {
      var first, more := lines[0], lines[1..];
      var tail := Terminated(more) + rest;
      assert SplitLines(Terminated(lines) + rest) == [first] + SplitLines(tail) by {
        TerminatedFirst(lines, rest);
        SplitFirst(first, tail);
      }
      assert SplitLines(tail) == more + SplitLines(rest) by {
        SplitTerminated(more, rest);
      }
      Regroup(lines, SplitLines(rest));
    }
  }

  lemma TerminatedFirst(lines: seq<string>, rest: string)
    requires lines != []
    ensures Terminated(lines) + rest == lines[0] + "\n" + (Terminated(lines[1..]) + rest)
  {
  }

  lemma Regroup(lines: seq<string>, rest: seq<string>)
    requires lines != []
    ensures [lines[0]] + (lines[1..] + rest) == lines + rest
  {
  }
}
