// Why ownership asks that the owner stay the same between the two halves of _set_status: what
// another flow writes in between is lost.
module Interference {
  import opened Wrappers
  import opened Names
  import opened Protocol
  import Ownership

  // Two waiters of different flows insert the same job: both read that there is no variable,
  // both write.
  function Schedule(hpc: string, job: string, f: string, g: string): seq<Label> {
    [Spawn(1, Waiter(hpc, job, Some(f), SubmitRead, 0)), Spawn(2, Waiter(hpc, job, Some(g), SubmitRead, 0)),
     Local(1, Go), Local(2, Go), Local(1, Go), Local(2, Go)]
  }

  function Emptiness(hpc: string): Shared {
    Shared({hpc}, 0, map[], map[], {}, 0, map[], {}, {}, {})
  }

  lemma BothRead(hpc: string, job: string, f: string, g: string) returns (ss: seq<State>)
    requires ValidJobId(job)
    ensures |ss| == 5 && Init(ss[0])
    ensures forall i | 0 <= i < 4 :: Step(ss[i], Schedule(hpc, job, f, g)[i]) == Some(ss[i + 1])
    ensures ss[3].sh == Emptiness(hpc) && 2 in ss[3].waiters && ss[3].waiters[2].pc.SubmitRead?
    ensures ss[4].sh == Emptiness(hpc)
    ensures ss[4].waiters == map[1 := Waiter(hpc, job, Some(f), SubmitWrite(Some(f)), 0), 2 := Waiter(hpc, job, Some(g), SubmitWrite(Some(g)), 0)]
  {
    var sh, v, w := Emptiness(hpc), Waiter(hpc, job, Some(f), SubmitRead, 0), Waiter(hpc, job, Some(g), SubmitRead, 0);
    var v', w' := v.(pc := SubmitWrite(Some(f))), w.(pc := SubmitWrite(Some(g)));
    var s0, s1, s2 := State(sh, map[]), State(sh, map[1 := v]), State(sh, map[1 := v, 2 := w]);
    var s3, s4 := State(sh, map[1 := v', 2 := w]), State(sh, map[1 := v', 2 := w']);
    ss := [s0, s1, s2, s3, s4];
    assert Step(s0, Spawn(1, v)) == Some(s1) && Step(s1, Spawn(2, w)) == Some(s2);
    assert s2.waiters[1 := v'] == s3.waiters && s3.waiters[2 := w'] == s4.waiters;
    assert Step(s2, Local(1, Go)) == Some(s3) && Step(s3, Local(2, Go)) == Some(s4);
  }

  lemma BothWrite(s: State, hpc: string, job: string, f: string, g: string) returns (s': State, s'': State)
    requires s.sh == Emptiness(hpc)
    requires s.waiters == map[1 := Waiter(hpc, job, Some(f), SubmitWrite(Some(f)), 0), 2 := Waiter(hpc, job, Some(g), SubmitWrite(Some(g)), 0)]
    ensures Step(s, Local(1, Go)) == Some(s') && Step(s', Local(2, Go)) == Some(s'')
    ensures var name := StatusVarName(hpc, job);
      && Ownership.OwnedBy(s'.sh, name, f) && Ownership.OwnedBy(s''.sh, name, g)
      && s'.sh.store[name].born == s''.sh.store[name].born
    ensures 2 in s'.waiters && s'.waiters[2] == s.waiters[2]
  {
    s' := Step(s, Local(1, Go)).value;
    assert s'.waiters[2] == s.waiters[2];
    s'' := Step(s', Local(2, Go)).value;
  }

  // For every HPC, job and pair of flows there is a run in which the variable of one flow
  // becomes the other's without having been deleted, so that cancelling the other would
  // cancel its job.
  lemma OwnerCanBeLost(hpc: string, job: string, f: string, g: string) returns (ss: seq<State>, ls: seq<Label>)
    requires ValidJobId(job) && f != g
    ensures IsRun(ss, ls) && |ss| == 7
    ensures var name := StatusVarName(hpc, job);
      && Ownership.OwnedBy(ss[5].sh, name, f) && Ownership.OwnedBy(ss[6].sh, name, g)
      && ss[5].sh.store[name].born == ss[6].sh.store[name].born
    ensures !Ownership.OwnerSteady(ss, ls, StatusVarName(hpc, job))
  {
    ls := Schedule(hpc, job, f, g);
    var start := BothRead(hpc, job, f, g);
    var s', s'' := BothWrite(start[4], hpc, job, f, g);
    ss := start + [s', s''];
    forall i | 0 <= i < 6
      ensures Step(ss[i], ls[i]) == Some(ss[i + 1])
    {
      if i < 4 {
        assert Step(start[i], ls[i]) == Some(start[i + 1]);
      }
    }
    var name := StatusVarName(hpc, job);
    assert ss[3] == start[3] && ss[4] == start[4] && ss[5].waiters[2] == ss[4].waiters[2];
    assert Ownership.ReadFor(ss, ls, 3, 5, 2);
    assert Ownership.Writes(ss[5], ls[5], name);
    assert Ownership.OwnerAt(ss[3].sh, name) == None && Ownership.OwnerAt(ss[5].sh, name) == Some(f);
  }
}
