// _parse_job_id: the job id is the last word of what sbatch printed, if it looks like one.
module JobIds {
  import opened Wrappers
  import opened Text
  import opened Names

  function TrimEnd(s: string): (r: string)
    ensures |r| <= |s|
  {
    if s == "" || !IsSpace(s[|s| - 1]) then s else TrimEnd(s[..|s| - 1])
  }

  function TakeLastWord(s: string): string {
    if s == "" || IsSpace(s[|s| - 1]) then "" else TakeLastWord(s[..|s| - 1]) + [s[|s| - 1]]
  }

  // s.strip().split()[-1]; None when there is no word.
  function LastWord(s: string): Option<string> {
    var t := TrimEnd(s);
    if t == "" then None else Some(TakeLastWord(t))
  }

  function ParseJobId(returnCode: int, stdout: string): Option<string> {
    if returnCode != 0 then None
    else match LastWord(stdout)
      case None => None
      case Some(candidate) => if ValidJobId(candidate) then Some(candidate) else None
  }

  predicate Spaces(s: string) {
    forall i | 0 <= i < |s| :: IsSpace(s[i])
  }

  predicate NoSpaces(s: string) {
    forall i | 0 <= i < |s| :: !IsSpace(s[i])
  }

  predicate EndsWord(front: string) {
    front == "" || IsSpace(front[|front| - 1])
  }

  // The word stands at the end of the text, blank space around it aside.
  ghost predicate IsLast(s: string, front: string, word: string, gap: string) {
    s == front + word + gap && EndsWord(front) && word != "" && NoSpaces(word) && Spaces(gap)
  }

  lemma {:induction false} TrimEndIs(text: string, gap: string)
    requires text != "" && !IsSpace(text[|text| - 1]) && Spaces(gap)
    ensures TrimEnd(text + gap) == text
  {
    if gap == "" {
      assert text + gap == text;
    } else {
      assert (text + gap)[..|text + gap| - 1] == text + gap[..|gap| - 1];
      TrimEndIs(text, gap[..|gap| - 1]);
    }
  }

  lemma {:induction false} TakeLastWordIs(front: string, word: string)
    requires EndsWord(front) && NoSpaces(word)
    ensures TakeLastWord(front + word) == word
  {
    if word == "" {
      assert front + word == front;
    } else {
      var init := word[..|word| - 1];
      assert (front + word)[..|front + word| - 1] == front + init;
      TakeLastWordIs(front, init);
      assert init + [word[|word| - 1]] == word;
    }
  }

  lemma {:induction false} TrimEndSplits(s: string) returns (gap: string)
    ensures s == TrimEnd(s) + gap && Spaces(gap)
    ensures TrimEnd(s) != "" ==> !IsSpace(TrimEnd(s)[|TrimEnd(s)| - 1])
  {
    if s == "" || !IsSpace(s[|s| - 1]) {
      gap := "";
    } else {
      var inner := TrimEndSplits(s[..|s| - 1]);
      gap := inner + [s[|s| - 1]];
    }
  }

  lemma {:induction false} LastWordSplits(s: string) returns (front: string)
    ensures s == front + TakeLastWord(s) && EndsWord(front) && NoSpaces(TakeLastWord(s))
  {
    if s == "" || IsSpace(s[|s| - 1]) {
      front := s;
    } else {
      front := LastWordSplits(s[..|s| - 1]);
      assert s == front + (TakeLastWord(s[..|s| - 1]) + [s[|s| - 1]]);
    }
  }

  lemma LastWordIff(s: string, word: string)
    ensures LastWord(s) == Some(word) <==> exists front, gap :: IsLast(s, front, word, gap)
  {
    if LastWord(s) == Some(word) {
      var gap := TrimEndSplits(s);
      var front := LastWordSplits(TrimEnd(s));
      assert IsLast(s, front, word, gap);
    }
    if front, gap :| IsLast(s, front, word, gap) {
      assert (front + word)[|front + word| - 1] == word[|word| - 1];
      TrimEndIs(front + word, gap);
      TakeLastWordIs(front, word);
    }
  }

  // An id is found exactly when sbatch succeeded and a well-formed id is the last word it
  // printed, whatever stands before it.
  lemma ParsedIff(returnCode: int, stdout: string, id: string)
    ensures ParseJobId(returnCode, stdout) == Some(id) <==>
      returnCode == 0 && ValidJobId(id) && exists front, gap :: IsLast(stdout, front, id, gap)
  {
    LastWordIff(stdout, id);
  }
}
