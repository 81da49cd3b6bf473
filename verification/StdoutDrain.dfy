// The incremental reading of a running job's standard output: every poll reads the whole file
// and keeps what lies beyond the characters already kept.
module StdoutDrain {
  import opened Wrappers
  import opened Utf8

  const REPLACEMENT := "\U{FFFD}"

  function Concat(parts: seq<string>): string {
    if parts == [] then "" else Concat(parts[..|parts| - 1]) + parts[|parts| - 1]
  }

  // What is kept after a sequence of reads, of which None failed.
  function Drained(polls: seq<Option<string>>): string {
    if polls == [] then ""
    else
      var before, last := Drained(polls[..|polls| - 1]), polls[|polls| - 1];
      if last.Some? then KeepMore(before, last.value) else before
  }

  // What one more read makes of what was kept.
  function KeepMore(kept: string, read: string): string {
    if |read| > |kept| then kept + read[|kept|..] else kept
  }

  // The state of one _submit_and_wait.
  class Job {
    var offset: nat
    var parts: seq<string>
    ghost var polls: seq<Option<string>>

    ghost predicate Valid()
      reads this
    {
      Concat(parts) == Drained(polls) && offset == |Drained(polls)|
    }

    constructor ()
      ensures Valid() && polls == []
    {
      offset, parts, polls := 0, [], [];
    }

    // _drain_stdout, given what reading the file yields; a failed read changes nothing.
    method DrainStdout(content: Option<string>)
      requires Valid()
      modifies this
      ensures Valid() && polls == old(polls) + [content]
    {
      ghost var all := polls + [content];
      assert all[..|polls|] == polls;
      if content.Some? && |content.value| > offset {
        var added := content.value[offset..];
        assert (parts + [added])[..|parts|] == parts;
        parts := parts + [added];
        offset := |content.value|;
      }
      polls := all;
    }

    // The poll loop: one read while the job runs, per status seen, and one after its end.
    method SubmitAndWait(running: seq<Option<string>>, last: Option<string>) returns (stdout: string)
      requires Valid() && polls == []
      modifies this
      ensures Valid() && polls == running + [last] && stdout == Drained(running + [last])
    {
      for i := 0 to |running|
        invariant Valid() && polls == running[..i]
      {
        DrainStdout(running[i]);
        assert running[..i + 1] == running[..i] + [running[i]];
      }
      assert running[..|running|] == running;
      DrainStdout(last);
      stdout := JoinParts();
    }

    // "".join(stdout_parts).
    method JoinParts() returns (s: string)
      ensures s == Concat(parts)
    {
      s := "";
      for i := 0 to |parts|
        invariant s == Concat(parts[..i])
      {
        assert parts[..i + 1][..i] == parts[..i];
        s := s + parts[i];
      }
      assert parts[..|parts|] == parts;
    }
  }

  // ---- Conservation ---------------------------------------------------------------------

  ghost predicate AppendOnly(polls: seq<Option<string>>) {
    forall i, j | 0 <= i < j < |polls| && polls[i].Some? && polls[j].Some? :: polls[i].value <= polls[j].value
  }

  function LastRead(polls: seq<Option<string>>): string {
    if polls == [] then ""
    else if polls[|polls| - 1].Some? then polls[|polls| - 1].value
    else LastRead(polls[..|polls| - 1])
  }

  lemma {:induction false} LastReadIsOne(polls: seq<Option<string>>)
    ensures LastRead(polls) == "" || exists i :: 0 <= i < |polls| && polls[i] == Some(LastRead(polls))
  {
    if polls != [] {
      LastReadIsOne(polls[..|polls| - 1]);
    }
  }

  // Over an append-only text nothing is lost and nothing is kept twice: what is kept is the
  // last successful read, whatever reads failed.
  lemma {:induction false} DrainKeepsEverything(polls: seq<Option<string>>)
    requires AppendOnly(polls)
    ensures Drained(polls) == LastRead(polls)
  {
    if polls != [] {
      var before, last := polls[..|polls| - 1], polls[|polls| - 1];
      DrainKeepsEverything(before);
      LastReadIsOne(before);
      if last.Some? {
        assert LastRead(before) <= last.value;
      }
    }
  }

  // ---- A file of bytes ------------------------------------------------------------------

  // The file holds more and more of an encoded text; a read decodes what is there, with a
  // replacement character for a malformed end. None is a failed read.
  function ReadAt(text: string, cut: Option<nat>): Option<string> {
    match cut
    case None => None
    case Some(n) => Some(Decode(if n <= |Encode(text)| then Encode(text)[..n] else Encode(text), REPLACEMENT))
  }

  function ReadsAt(text: string, cuts: seq<Option<nat>>): seq<Option<string>> {
    seq(|cuts|, i requires 0 <= i < |cuts| => ReadAt(text, cuts[i]))
  }

  ghost predicate Growing(text: string, cuts: seq<Option<nat>>) {
    && (forall i | 0 <= i < |cuts| && cuts[i].Some? :: cuts[i].value <= |Encode(text)|)
    && (forall i, j | 0 <= i < j < |cuts| && cuts[i].Some? && cuts[j].Some? :: cuts[i].value <= cuts[j].value)
  }

  // A read that ended inside the character at place p.
  ghost predicate TornAt(text: string, cuts: seq<Option<nat>>, p: nat) {
    exists i :: 0 <= i < |cuts| && cuts[i].Some? && Torn(text, cuts[i].value) && WholeChars(text, cuts[i].value) == p
  }

  // The length of what a read yields.
  function ReadLength(text: string, n: nat): nat {
    WholeChars(text, n) + if Torn(text, n) then 1 else 0
  }

  lemma {:induction false} WholeCharsGrows(s: string, m: nat, n: nat)
    requires m <= n
    ensures WholeChars(s, m) <= WholeChars(s, n)
  {
    if s != "" && m >= |EncodeChar(s[0])| {
      WholeCharsGrows(s[1..], m - |EncodeChar(s[0])|, n - |EncodeChar(s[0])|);
    }
  }

  // What is kept: up to the length of the longest read so far, each character as it is in
  // the text, or replaced where the read that ended there was torn.
  ghost predicate KeptFrom(text: string, cuts: seq<Option<nat>>, kept: string) {
    && |kept| <= |text|
    && (forall p: nat | p < |kept| :: kept[p] == if TornAt(text, cuts, p) then REPLACEMENT[0] else text[p])
    && (forall i | 0 <= i < |cuts| && cuts[i].Some? :: ReadLength(text, cuts[i].value) <= |kept|)
    && (kept == "" || exists i :: 0 <= i < |cuts| && cuts[i].Some? && ReadLength(text, cuts[i].value) == |kept|)
  }

  lemma TornAtMore(text: string, cuts: seq<Option<nat>>, cut: Option<nat>, p: nat)
    ensures TornAt(text, cuts + [cut], p) <==>
      TornAt(text, cuts, p) || (cut.Some? && Torn(text, cut.value) && WholeChars(text, cut.value) == p)
  {
    var all := cuts + [cut];
    if TornAt(text, cuts, p) {
      var i :| 0 <= i < |cuts| && cuts[i].Some? && Torn(text, cuts[i].value) && WholeChars(text, cuts[i].value) == p;
      assert all[i] == cuts[i];
    }
    assert all[|cuts|] == cut;
  }

  lemma ReadOf(text: string, n: nat)
    requires n <= |Encode(text)|
    ensures var k := WholeChars(text, n);
      ReadAt(text, Some(n)) == Some(text[..k] + if Torn(text, n) then REPLACEMENT else "")
    ensures ReadLength(text, n) <= |text|
  {
    DecodeCut(text, n, REPLACEMENT);
  }

  lemma TornIsKept(text: string, cuts: seq<Option<nat>>, kept: string, p: nat)
    requires KeptFrom(text, cuts, kept) && TornAt(text, cuts, p)
    ensures p < |kept|
  {
    var i :| 0 <= i < |cuts| && cuts[i].Some? && Torn(text, cuts[i].value) && WholeChars(text, cuts[i].value) == p;
    assert ReadLength(text, cuts[i].value) <= |kept|;
  }

  // A torn read that adds nothing was torn at the same place before.
  lemma TornAgain(text: string, cuts: seq<Option<nat>>, n: nat, kept: string)
    requires Growing(text, cuts + [Some(n)]) && KeptFrom(text, cuts, kept)
    requires Torn(text, n) && ReadLength(text, n) <= |kept|
    ensures TornAt(text, cuts, WholeChars(text, n))
  {
    var i :| 0 <= i < |cuts| && cuts[i].Some? && ReadLength(text, cuts[i].value) == |kept|;
    var all := cuts + [Some(n)];
    assert all[i] == cuts[i] && all[|cuts|] == Some(n);
    WholeCharsGrows(text, cuts[i].value, n);
  }

  lemma CharactersKept(text: string, cuts: seq<Option<nat>>, n: nat, kept: string, p: nat)
    requires Growing(text, cuts + [Some(n)]) && KeptFrom(text, cuts, kept) && n <= |Encode(text)|
    requires var read := ReadAt(text, Some(n)).value; p < |KeepMore(kept, read)| && |read| <= |text|
    ensures var read := ReadAt(text, Some(n)).value;
      KeepMore(kept, read)[p] == if TornAt(text, cuts + [Some(n)], p) then REPLACEMENT[0] else text[p]
  {
    ReadOf(text, n);
    TornAtMore(text, cuts, Some(n), p);
    if Torn(text, n) && ReadLength(text, n) <= |kept| {
      TornAgain(text, cuts, n, kept);
    }
    forall q: nat | TornAt(text, cuts, q)
      ensures q < |kept|
    {
      TornIsKept(text, cuts, kept, q);
    }
  }

  // One more read of the growing file.
  lemma OneMoreRead(text: string, cuts: seq<Option<nat>>, n: nat, kept: string)
    requires Growing(text, cuts + [Some(n)]) && KeptFrom(text, cuts, kept)
    ensures KeptFrom(text, cuts + [Some(n)], KeepMore(kept, ReadAt(text, Some(n)).value))
  {
    var all := cuts + [Some(n)];
    assert all[|cuts|] == Some(n);
    ReadOf(text, n);
    var read := ReadAt(text, Some(n)).value;
    var kept' := KeepMore(kept, read);
    assert forall i | 0 <= i < |cuts| :: all[i] == cuts[i];
    forall p: nat | p < |kept'|
      ensures kept'[p] == if TornAt(text, all, p) then REPLACEMENT[0] else text[p]
    {
      CharactersKept(text, cuts, n, kept, p);
    }
    assert |kept'| == |read| ==> ReadLength(text, all[|cuts|].value) == |kept'|;
  }

  lemma {:induction false} DrainOfCuts(text: string, cuts: seq<Option<nat>>)
    requires Growing(text, cuts)
    ensures KeptFrom(text, cuts, Drained(ReadsAt(text, cuts)))
  {
    if cuts != [] {
      var before, last := cuts[..|cuts| - 1], cuts[|cuts| - 1];
      assert ReadsAt(text, cuts)[..|cuts| - 1] == ReadsAt(text, before);
      assert cuts == before + [last];
      DrainOfCuts(text, before);
      var kept := Drained(ReadsAt(text, before));
      if last.Some? {
        OneMoreRead(text, before, last.value, kept);
      } else {
        NothingRead(text, before, kept);
      }
    }
  }

  lemma NothingRead(text: string, cuts: seq<Option<nat>>, kept: string)
    requires KeptFrom(text, cuts, kept)
    ensures KeptFrom(text, cuts + [None], kept)
  {
    var all := cuts + [None];
    assert forall i | 0 <= i < |cuts| :: all[i] == cuts[i];
    forall p: nat
      ensures TornAt(text, all, p) <==> TornAt(text, cuts, p)
    {
      TornAtMore(text, cuts, None, p);
    }
  }

  // Over a growing file of UTF-8 text, whichever reads fail, the output is the text exactly
  // when some read reached the last character and none ended inside a character, unless that
  // character was itself a replacement: what such a read put in its place stays.
  lemma DrainConservesIff(text: string, cuts: seq<Option<nat>>)
    requires Growing(text, cuts)
    ensures Drained(ReadsAt(text, cuts)) == text <==>
      && (text == "" || exists i :: 0 <= i < |cuts| && cuts[i].Some? && ReadLength(text, cuts[i].value) == |text|)
      && forall p: nat | p < |text| && TornAt(text, cuts, p) :: text[p] == REPLACEMENT[0]
    ensures |Drained(ReadsAt(text, cuts))| <= |text|
  {
    DrainOfCuts(text, cuts);
    var kept := Drained(ReadsAt(text, cuts));
    if kept == text {
      forall p: nat | p < |text| && TornAt(text, cuts, p)
        ensures text[p] == REPLACEMENT[0]
      {
        assert kept[p] == text[p];
      }
    }
  }

  // A read of the whole file, torn ones before it or not, makes the length right.
  lemma WholeReadHasItsLength(text: string, cuts: seq<Option<nat>>)
    requires Growing(text, cuts) && Some(|Encode(text)|) in cuts
    ensures |Drained(ReadsAt(text, cuts))| == |text|
  {
    DrainOfCuts(text, cuts);
    DecodeEncoded(text, REPLACEMENT);
    var i :| 0 <= i < |cuts| && cuts[i] == Some(|Encode(text)|);
    assert ReadLength(text, cuts[i].value) == |text|;
  }

  // A letter with an accent whose first byte was read alone: the replacement character stays,
  // though the last read gave the letter.
  lemma AccentIsLost()
    ensures var text, cuts := "\U{E9}", [Some(1), Some(2)];
      && Growing(text, cuts) && ReadsAt(text, cuts)[1] == Some(text)
      && Drained(ReadsAt(text, cuts)) == REPLACEMENT != text
  {
    var text, cuts := "\U{E9}", [Some(1), Some(2)];
    assert Encode(text) == EncodeChar(text[0]) && |Encode(text)| == 2;
    DecodeEncoded(text, REPLACEMENT);
    assert text[..0] == "";
    assert WholeChars(text, 1) == 0 && Torn(text, 1) && ReadLength(text, 1) == 1;
    assert cuts[0] == Some(1);
    DrainOfCuts(text, cuts);
    var kept := Drained(ReadsAt(text, cuts));
    assert |kept| == 1 && kept[0] == REPLACEMENT[0];
  }
}
