// The outage arithmetic of the wait loop: when it gives up, and how long it sleeps.
module Outage {
  import opened Wrappers

  const TOLERANCE_SECS := 300
  const FIRST_BACKOFF_SECS := 5
  const MAX_BACKOFF_SECS := 60

  // One poll: whether it raised, and the clock when it was over.
  datatype Poll = Poll(at: int, raised: bool)

  // Consecutive failures at the end of a history.
  function Streak(h: seq<Poll>): (k: nat)
    ensures k <= |h|
  {
    if h == [] || !h[|h| - 1].raised then 0 else Streak(h[..|h| - 1]) + 1
  }

  // The loop's outage_started after a history.
  function Started(h: seq<Poll>): Option<int> {
    if h == [] || !h[|h| - 1].raised then None
    else
      var before := Started(h[..|h| - 1]);
      if before.Some? then before else Some(h[|h| - 1].at)
  }

  // The loop's backoff after a history.
  function Backoff(h: seq<Poll>): (secs: int)
    ensures FIRST_BACKOFF_SECS <= secs <= MAX_BACKOFF_SECS
  {
    if h == [] || !h[|h| - 1].raised then FIRST_BACKOFF_SECS
    else
      var twice := 2 * Backoff(h[..|h| - 1]);
      if twice < MAX_BACKOFF_SECS then twice else MAX_BACKOFF_SECS
  }

  // The loop gives up at the end of this history.
  predicate GivesUp(h: seq<Poll>) {
    Started(h).Some? && h != [] && h[|h| - 1].at - Started(h).value > TOLERANCE_SECS
  }

  // The clock is monotone, and after a failure the loop slept at least its backoff.
  ghost predicate Paced(h: seq<Poll>) {
    forall k | 0 <= k < |h| - 1 :: h[k + 1].at >= h[k].at + if h[k].raised then Backoff(h[..k]) else 0
  }

  // The loop does not give up before its nth poll is over.
  ghost predicate LastedUntil(h: seq<Poll>, n: nat)
    requires n <= |h|
  {
    forall k: nat | k < n :: !GivesUp(h[..k])
  }

  // The earliest a poll after this history can be over.
  ghost predicate Due(h: seq<Poll>, now: int) {
    h != [] ==> now >= h[|h| - 1].at + if h[|h| - 1].raised then Backoff(h[..|h| - 1]) else 0
  }

  lemma PollAppended(h: seq<Poll>, last: Poll)
    requires Paced(h) && Due(h, last.at) && LastedUntil(h, |h|) && !GivesUp(h)
    ensures Paced(h + [last]) && LastedUntil(h + [last], |h| + 1)
    ensures (h + [last])[..|h|] == h
  {
    var h' := h + [last];
    forall k | 0 <= k < |h'| - 1
      ensures h'[k + 1].at >= h'[k].at + if h'[k].raised then Backoff(h'[..k]) else 0
    {
      assert h'[..k] == h[..k];
      if k < |h| - 1 {
        assert h[k + 1].at >= h[k].at + if h[k].raised then Backoff(h[..k]) else 0;
      }
    }
    forall k: nat | k < |h'|
      ensures !GivesUp(h'[..k])
    {
      assert h'[..k] == h[..k];
      assert h[..|h|] == h;
    }
  }

  function Pow2(k: nat): nat {
    if k == 0 then 1 else 2 * Pow2(k - 1)
  }

  function NthBackoff(k: nat): int {
    if FIRST_BACKOFF_SECS * Pow2(k) < MAX_BACKOFF_SECS then FIRST_BACKOFF_SECS * Pow2(k) else MAX_BACKOFF_SECS
  }

  // After k consecutive failures the next backoff is 5 * 2^k seconds, capped at a minute; a
  // successful poll brings it back to 5 and ends the outage.
  lemma {:induction false} BackoffDoubles(h: seq<Poll>)
    ensures Backoff(h) == NthBackoff(Streak(h))
    ensures Started(h).Some? <==> Streak(h) > 0
  {
    if h != [] && h[|h| - 1].raised {
      BackoffDoubles(h[..|h| - 1]);
    }
  }

  lemma {:induction false} StartedIsStreakStart(h: seq<Poll>)
    requires Streak(h) > 0
    ensures Started(h) == Some(h[|h| - Streak(h)].at)
    ensures forall i | |h| - Streak(h) <= i < |h| :: h[i].raised
    ensures Streak(h) < |h| ==> !h[|h| - Streak(h) - 1].raised
  {
    var before := h[..|h| - 1];
    BackoffDoubles(before);
    if Streak(before) > 0 {
      StartedIsStreakStart(before);
    }
  }

  lemma {:induction false} PacedIsMonotone(h: seq<Poll>, i: nat, j: nat)
    requires Paced(h) && i <= j < |h|
    ensures h[i].at <= h[j].at
  {
    if i < j {
      PacedIsMonotone(h, i, j - 1);
      BackoffDoubles(h[..j - 1]);
      var k := j - 1;
      assert h[k + 1].at >= h[k].at + if h[k].raised then Backoff(h[..k]) else 0;
    }
  }

  // The loop gives up exactly when every poll since some failure more than the tolerance
  // earlier has failed.
  lemma GivesUpIff(h: seq<Poll>)
    requires Paced(h)
    ensures GivesUp(h) <==>
      exists j :: 0 <= j < |h| && (forall i | j <= i < |h| :: h[i].raised) && h[|h| - 1].at - h[j].at > TOLERANCE_SECS
  {
    BackoffDoubles(h);
    if Streak(h) > 0 {
      StartedIsStreakStart(h);
      if j :| 0 <= j < |h| && (forall i | j <= i < |h| :: h[i].raised) && h[|h| - 1].at - h[j].at > TOLERANCE_SECS {
        assert j >= |h| - Streak(h);
        PacedIsMonotone(h, |h| - Streak(h), j);
      }
    }
  }

  // The sleeping time of the first k consecutive failures.
  function SleptFor(k: nat): int {
    if k == 0 then 0 else SleptFor(k - 1) + NthBackoff(k - 1)
  }

  lemma PacedBefore(h: seq<Poll>, n: nat)
    requires Paced(h) && n <= |h|
    ensures Paced(h[..n])
  {
    var before := h[..n];
    forall k | 0 <= k < |before| - 1
      ensures before[k + 1].at >= before[k].at + if before[k].raised then Backoff(before[..k]) else 0
    {
      assert before[..k] == h[..k];
      assert h[k + 1].at >= h[k].at + if h[k].raised then Backoff(h[..k]) else 0;
    }
  }

  // Two failures in a row are as far apart as the backoff between them.
  lemma FailuresApart(h: seq<Poll>)
    requires Paced(h) && Streak(h) > 1
    ensures var n := |h| - 1; h[n].at >= h[n - 1].at + NthBackoff(Streak(h[..n]) - 1)
  {
    var n := |h| - 1;
    var k := n - 1;
    var before := h[..n];
    assert before[..k] == h[..k] && before[k] == h[k];
    assert Streak(before) == Streak(h) - 1;
    BackoffDoubles(h[..k]);
    assert Streak(before) == Streak(h[..k]) + 1;
    assert h[k + 1].at >= h[k].at + if h[k].raised then Backoff(h[..k]) else 0;
  }

  lemma {:induction false} StreakTakes(h: seq<Poll>)
    requires Paced(h) && Streak(h) > 0
    ensures Started(h).Some? && h[|h| - 1].at - Started(h).value >= SleptFor(Streak(h) - 1)
  {
    var n := |h| - 1;
    var before := h[..n];
    BackoffDoubles(before);
    if Streak(before) > 0 {
      PacedBefore(h, n);
      StreakTakes(before);
      FailuresApart(h);
    }
  }

  lemma {:induction false} SleptForGrows(j: nat, k: nat)
    requires j <= k
    ensures SleptFor(j) <= SleptFor(k)
  {
    if j < k {
      SleptForGrows(j, k - 1);
    }
  }

  lemma EightSleeps()
    ensures SleptFor(8) == 315 && SleptFor(7) == 255
  {
    assert Pow2(1) == 2 && Pow2(2) == 4 && Pow2(3) == 8 && Pow2(4) == 16;
    assert Pow2(5) == 32 && Pow2(6) == 64 && Pow2(7) == 128;
    assert SleptFor(4) == 75;
    assert SleptFor(6) == 195;
  }

  // With sleeps at least as long as their nominal length, the loop never survives a ninth
  // consecutive failure.
  lemma NinthFailureEndsIt(h: seq<Poll>)
    requires Paced(h) && Streak(h) >= 9
    ensures GivesUp(h)
  {
    BackoffDoubles(h);
    StreakTakes(h);
    EightSleeps();
    SleptForGrows(8, Streak(h) - 1);
  }

  // k failures in a row, each poll failing the moment the previous sleep ends.
  function Prompt(k: nat): (h: seq<Poll>)
    ensures |h| == k
  {
    if k == 0 then [] else Prompt(k - 1) + [Poll(SleptFor(k - 1), true)]
  }

  lemma {:induction false} PromptPrefix(k: nat, i: nat)
    requires i <= k
    ensures Prompt(k)[..i] == Prompt(i)
    ensures i < k ==> Prompt(k)[i] == Poll(SleptFor(i), true)
  {
    if i < k {
      PromptPrefix(k - 1, i);
      assert Prompt(k)[..i] == Prompt(k - 1)[..i];
    }
  }

  lemma {:induction false} PromptStreak(k: nat)
    ensures Streak(Prompt(k)) == k
    ensures k > 0 ==> Started(Prompt(k)) == Some(0)
  {
    if k > 0 {
      PromptStreak(k - 1);
      PromptPrefix(k, k - 1);
      BackoffDoubles(Prompt(k - 1));
    }
  }

  lemma PromptIsPaced(k: nat)
    ensures Paced(Prompt(k))
  {
    var h := Prompt(k);
    forall i | 0 <= i < k - 1
      ensures h[i + 1].at >= h[i].at + if h[i].raised then Backoff(h[..i]) else 0
    {
      PromptPrefix(k, i);
      PromptPrefix(k, i + 1);
      PromptStreak(i);
      BackoffDoubles(Prompt(i));
    }
  }

  // The ninth failure is exactly where prompt failures end it: eight are survived.
  lemma PromptFailuresGiveUpIff(k: nat)
    ensures GivesUp(Prompt(k)) <==> k >= 9
  {
    PromptIsPaced(k);
    PromptStreak(k);
    if k >= 9 {
      NinthFailureEndsIt(Prompt(k));
    } else if k > 0 {
      PromptPrefix(k, k - 1);
      EightSleeps();
      SleptForGrows(k - 1, 7);
    }
  }
}
