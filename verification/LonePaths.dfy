// Continuations in which one waiter survives: its calls succeed and nobody stops it. On a
// survivor's path the others do as they like; on a lone path every other waiter is dead or
// idle, and time passes as it likes between steps.
module LonePaths {
  import opened Wrappers
  import opened Protocol
  import Provenance

  // What the environment decides in a step of the surviving waiter.
  ghost predicate Friendly(w: Waiter, c: Choice) {
    && Calm(c) && (c.SeeFlow? ==> c.up) && (c.ScancelAnswer? ==> c.ok)
    && (c.Answer? && w.pc.CallSacct? ==> SacctPc(w.pc.ids, c.lines) != Crashed)
  }

  // A step that leaves waiter p alive.
  ghost predicate Spares(s: State, p: nat, l: Label) {
    && p in s.waiters
    && match l
       case Local(q, c) => q == p ==> Friendly(s.waiters[p], c)
       case ExpireSlot(hpc) => InSection(s.waiters[p].pc) ==> s.waiters[p].hpc != hpc
       case _ => true
  }

  ghost predicate IsSurvivorPath(ss: seq<State>, ls: seq<Label>, p: nat) {
    && IsPath(ss, ls)
    && p in ss[0].waiters
    && forall i | 0 <= i < |ls| :: Spares(ss[i], p, ls[i])
  }

  // A step of waiter p alone, or of the clock, or the expiry of a slot p does not hold.
  ghost predicate Smooth(s: State, p: nat, l: Label) {
    && Spares(s, p, l)
    && match l
       case Local(q, _) => q == p
       case Tick(_) => true
       case ExpireSlot(_) => true
       case _ => false
  }

  ghost predicate IsLonePath(ss: seq<State>, ls: seq<Label>, p: nat) {
    && IsPath(ss, ls)
    && p in ss[0].waiters
    && forall i | 0 <= i < |ls| :: Smooth(ss[i], p, ls[i])
  }

  lemma LoneIsSurvivor(ss: seq<State>, ls: seq<Label>, p: nat)
    requires IsLonePath(ss, ls, p)
    ensures IsSurvivorPath(ss, ls, p)
  {
    forall i | 0 <= i < |ls|
      ensures Spares(ss[i], p, ls[i])
    {
      assert Smooth(ss[i], p, ls[i]);
    }
  }

  // To the survivor, the step of another is no step at all.
  lemma SparedStep(s: State, p: nat, l: Label)
    requires Spares(s, p, l) && Step(s, l).Some?
    ensures p in Step(s, l).value.waiters
    ensures !(l.Local? && l.p == p) ==> Step(s, l).value.waiters[p] == s.waiters[p]
  {
  }

  lemma SurvivorStep(ss: seq<State>, ls: seq<Label>, p: nat, k: nat)
    requires IsSurvivorPath(ss, ls, p) && k < |ls|
    ensures p in ss[k].waiters && p in ss[k + 1].waiters
    ensures Step(ss[k], ls[k]) == Some(ss[k + 1]) && Spares(ss[k], p, ls[k])
  {
    assert Step(ss[k], ls[k]) == Some(ss[k + 1]) && Spares(ss[k], p, ls[k]);
    SparedStep(ss[k], p, ls[k]);
  }

  lemma SurvivorPresent(ss: seq<State>, ls: seq<Label>, p: nat, k: nat)
    requires IsSurvivorPath(ss, ls, p) && k < |ss|
    ensures p in ss[k].waiters
  {
    if k > 0 {
      SurvivorStep(ss, ls, p, k - 1);
    }
  }

  // What a smooth step is to the lone waiter: one of its own moves, or a change of clock
  // and foreign slots only.
  lemma SmoothStep(s: State, p: nat, l: Label)
    requires p in s.waiters && Smooth(s, p, l) && Step(s, l).Some?
    ensures p in Step(s, l).value.waiters
    ensures !l.Local? ==>
      var sh' := Step(s, l).value.sh;
      && Step(s, l).value.waiters[p] == s.waiters[p]
      && sh' == s.sh.(now := sh'.now, slots := sh'.slots) && s.sh.now <= sh'.now
      && (s.waiters[p].hpc in sh'.slots ==>
            s.waiters[p].hpc in s.sh.slots && sh'.slots[s.waiters[p].hpc] == s.sh.slots[s.waiters[p].hpc])
  {
  }

  lemma LoneStep(ss: seq<State>, ls: seq<Label>, p: nat, k: nat)
    requires IsLonePath(ss, ls, p) && k < |ls|
    ensures p in ss[k].waiters && p in ss[k + 1].waiters
    ensures Step(ss[k], ls[k]) == Some(ss[k + 1]) && Smooth(ss[k], p, ls[k])
  {
    LoneIsSurvivor(ss, ls, p);
    SurvivorStep(ss, ls, p, k);
    assert Smooth(ss[k], p, ls[k]);
  }

  lemma LonePresent(ss: seq<State>, ls: seq<Label>, p: nat, k: nat)
    requires IsLonePath(ss, ls, p) && k < |ss|
    ensures p in ss[k].waiters
  {
    LoneIsSurvivor(ss, ls, p);
    SurvivorPresent(ss, ls, p, k);
  }

  lemma {:induction false} PathKeepsProvenance(ss: seq<State>, ls: seq<Label>, i: nat)
    requires IsPath(ss, ls) && i < |ss| && Provenance.Inv(ss[0])
    ensures Provenance.Inv(ss[i]) && ss[i].sh.hpcs == ss[0].sh.hpcs
  {
    if i > 0 {
      var k := i - 1;
      PathKeepsProvenance(ss, ls, k);
      assert Step(ss[k], ls[k]) == Some(ss[k + 1]);
      Provenance.StepKeepsInv(ss[k], ls[k]);
    }
  }

  // ---- Building lone paths --------------------------------------------------------------

  function Last<T>(xs: seq<T>): T
    requires xs != []
  {
    xs[|xs| - 1]
  }

  lemma Extend(ss: seq<State>, ls: seq<Label>, p: nat, l: Label) returns (ss': seq<State>, ls': seq<Label>)
    requires IsLonePath(ss, ls, p) && Smooth(Last(ss), p, l) && Step(Last(ss), l).Some?
    ensures IsLonePath(ss', ls', p) && ss'[0] == ss[0] && Last(ss') == Step(Last(ss), l).value
    ensures ls' == ls + [l] && ss' == ss + [Last(ss')]
  {
    ss', ls' := ss + [Step(Last(ss), l).value], ls + [l];
    forall i | 0 <= i < |ls'|
      ensures Step(ss'[i], ls'[i]) == Some(ss'[i + 1]) && Smooth(ss'[i], p, ls'[i])
    {
      if i < |ls| {
        assert Step(ss[i], ls[i]) == Some(ss[i + 1]) && Smooth(ss[i], p, ls[i]);
      }
    }
  }

  lemma SuffixIsLone(ss: seq<State>, ls: seq<Label>, p: nat, i: nat)
    requires IsLonePath(ss, ls, p) && i < |ss|
    ensures IsLonePath(ss[i..], ls[i..], p)
  {
    LonePresent(ss, ls, p, i);
    forall j | 0 <= j < |ls| - i
      ensures Step(ss[i..][j], ls[i..][j]) == Some(ss[i..][j + 1]) && Smooth(ss[i..][j], p, ls[i..][j])
    {
      LoneStep(ss, ls, p, i + j);
    }
  }
}
