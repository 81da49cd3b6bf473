// _head_tail: command output shortened for an artifact to its head and tail, by lines and by
// bytes, without ever cutting a character in two.
module HeadTail {
  import opened Text
  import opened Utf8

  const MAX_BYTES := 100000
  const MAX_LINES := 100
  const MARKER := "\n[... truncated ...]\n"

  function FirstBytes(bytes: seq<Byte>): seq<Byte> {
    if |bytes| <= MAX_BYTES then bytes else bytes[..MAX_BYTES]
  }

  // Malformed bytes are dropped.
  function Clip(s: string): string {
    Decode(FirstBytes(Encode(s)), "")
  }

  function FirstLines(lines: seq<string>): seq<string> {
    if |lines| <= MAX_LINES then lines else lines[..MAX_LINES]
  }

  function LastLines(lines: seq<string>): seq<string> {
    if |lines| <= MAX_LINES then lines else lines[|lines| - MAX_LINES..]
  }

  predicate Fits(text: string) {
    |SplitLines(text)| <= MAX_LINES && |Encode(text)| <= MAX_BYTES
  }

  function Shortened(text: string): string {
    if Fits(text) then text
    else
      var lines := SplitLines(text);
      Clip(JoinLines(FirstLines(lines))) + MARKER + Clip(JoinLines(LastLines(lines)))
  }

  // Clipping keeps the longest prefix of whole characters that fits, and so the whole text
  // exactly when that fits.
  lemma ClipIsLongestPrefix(s: string, p: string)
    ensures Clip(s) <= s && |Encode(Clip(s))| <= MAX_BYTES
    ensures p <= s && |Encode(p)| <= MAX_BYTES ==> p <= Clip(s)
    ensures Clip(s) == s <==> |Encode(s)| <= MAX_BYTES
  {
    if |Encode(s)| <= MAX_BYTES {
      DecodeEncoded(s, "");
    } else {
      var k := WholeChars(s, MAX_BYTES);
      DecodeCut(s, MAX_BYTES, "");
      WholeCharsIsLargest(s, MAX_BYTES);
      assert Clip(s) == s[..k];
      assert s[..|s|] == s;
      if p <= s && |p| > k {
        EncodeGrows(p, k + 1);
        assert p[..k + 1] == s[..k + 1];
      }
    }
  }

  lemma {:induction false} AsciiTakesOneByte(s: string)
    requires forall i | 0 <= i < |s| :: s[i] < 0x80 as char
    ensures |Encode(s)| == |s|
  {
    if s != "" {
      AsciiTakesOneByte(s[1..]);
    }
  }

  lemma MarkerBytes(marker: string)
    requires marker == MARKER
    ensures |Encode(marker)| == 21
  {
    AsciiTakesOneByte(marker);
  }

  lemma JoinedBytes(a: string, b: string, c: string)
    ensures |Encode(a + b + c)| == |Encode(a)| + |Encode(b)| + |Encode(c)|
  {
    EncodeConcat(a + b, c);
    EncodeConcat(a, b);
  }

  // What fits is left alone; everything else becomes at most 200021 bytes.
  lemma ShortenedIsBounded(text: string)
    ensures Fits(text) ==> Shortened(text) == text
    ensures |Encode(Shortened(text))| <= 2 * MAX_BYTES + 21
  {
    if !Fits(text) {
      var lines := SplitLines(text);
      var head, tail := JoinLines(FirstLines(lines)), JoinLines(LastLines(lines));
      ClipIsLongestPrefix(head, "");
      ClipIsLongestPrefix(tail, "");
      var marker := MARKER;
      MarkerBytes(marker);
      JoinedBytes(Clip(head), marker, Clip(tail));
    }
  }

  // The tail is clipped at its end: the shortened output still ends with the last hundred
  // lines exactly when these fit by themselves.
  lemma EndIsKeptIff(text: string)
    requires !Fits(text)
    ensures var lines := SplitLines(text);
      var end := JoinLines(LastLines(lines));
      Shortened(text) == Clip(JoinLines(FirstLines(lines))) + MARKER + end <==> |Encode(end)| <= MAX_BYTES
  {
    var lines := SplitLines(text);
    var head, end := Clip(JoinLines(FirstLines(lines))), JoinLines(LastLines(lines));
    ClipIsLongestPrefix(end, "");
    if head + MARKER + Clip(end) == head + MARKER + end {
      assert (head + MARKER + Clip(end))[|head + MARKER|..] == Clip(end);
      assert (head + MARKER + end)[|head + MARKER|..] == end;
    }
  }

  // One long line: its last character is not in the shortened output.
  lemma EndOfLineIsLost(text: string)
    requires text == seq(MAX_BYTES, i => 'a') + ['z']
    ensures 'z' !in Shortened(text) && !Fits(text)
  {
    var front := seq(MAX_BYTES, i => 'a');
    AsciiTakesOneByte(text);
    AsciiTakesOneByte(front);
    LineLengthIs(text, |text|);
    assert text[..|text|] == text;
    assert SplitLines(text) == [text];
    ClipIsLongestPrefix(text, front);
    AsciiTakesOneByte(Clip(text));
    assert Clip(text) == front by {
      assert text[..|front|] == front;
    }
    assert 'z' !in MARKER;
  }
}
