// Slurm job states, their spelling in sacct output and which of them are terminal.
module SlurmStates {
  import opened Wrappers
  import opened Text

  datatype SlurmState =
    | BootFail | Cancelled | Completed | Deadline | Failed | NodeFail | OutOfMemory
    | Pending | Preempted | Running | Suspended | Timeout
    | Completing | Configuring | Expediting | LaunchFailed | PowerUpNode | ReconfigFail
    | Requeued | RequeueFed | RequeueHold | Resizing | ResvDelHold | Revoked | Signaling
    | SpecialExit | StageOut | Stopped | UpdateDb

  // The job has its final disposition and will not transition further.
  predicate IsTerminal(st: SlurmState) {
    st.BootFail? || st.Cancelled? || st.Completed? || st.Deadline? || st.Failed? || st.NodeFail?
    || st.OutOfMemory? || st.Preempted? || st.Timeout? || st.Revoked? || st.LaunchFailed?
  }

  function Name(st: SlurmState): string {
    match st
    case BootFail => "BOOT_FAIL"
    case Cancelled => "CANCELLED"
    case Completed => "COMPLETED"
    case Deadline => "DEADLINE"
    case Failed => "FAILED"
    case NodeFail => "NODE_FAIL"
    case OutOfMemory => "OUT_OF_MEMORY"
    case Pending => "PENDING"
    case Preempted => "PREEMPTED"
    case Running => "RUNNING"
    case Suspended => "SUSPENDED"
    case Timeout => "TIMEOUT"
    case Completing => "COMPLETING"
    case Configuring => "CONFIGURING"
    case Expediting => "EXPEDITING"
    case LaunchFailed => "LAUNCH_FAILED"
    case PowerUpNode => "POWER_UP_NODE"
    case ReconfigFail => "RECONFIG_FAIL"
    case Requeued => "REQUEUED"
    case RequeueFed => "REQUEUE_FED"
    case RequeueHold => "REQUEUE_HOLD"
    case Resizing => "RESIZING"
    case ResvDelHold => "RESV_DEL_HOLD"
    case Revoked => "REVOKED"
    case Signaling => "SIGNALING"
    case SpecialExit => "SPECIAL_EXIT"
    case StageOut => "STAGE_OUT"
    case Stopped => "STOPPED"
    case UpdateDb => "UPDATE_DB"
  }

  lemma LongNameInjective(a: SlurmState, b: SlurmState)
    requires Name(a) == Name(b) && |Name(a)| >= 10
    ensures a == b
  {
    var n := Name(a);
    var x, y := n[0], n[2];
  }

  lemma MidNameInjective(a: SlurmState, b: SlurmState)
    requires Name(a) == Name(b) && 8 <= |Name(a)| < 10
    ensures a == b
  {
    var n := Name(a);
    var x, y, z := n[0], n[2], n[7];
  }

  lemma ShortNameInjective(a: SlurmState, b: SlurmState)
    requires Name(a) == Name(b) && |Name(a)| < 8
    ensures a == b
  {
    var n := Name(a);
    var x, y := n[0], n[2];
  }

  lemma NameInjective(a: SlurmState, b: SlurmState)
    requires Name(a) == Name(b)
    ensures a == b
  {
    if |Name(a)| >= 10 {
      LongNameInjective(a, b);
    } else if |Name(a)| >= 8 {
      MidNameInjective(a, b);
    } else {
      ShortNameInjective(a, b);
    }
  }

  lemma NameLetters0To3(st: SlurmState, i: nat)
    requires 0 <= i < 3 && i < |Name(st)|
    ensures 'A' <= Name(st)[i] <= '_'
  {
    var n := Name(st);
    assert |n| > 0 ==> 'A' <= n[0] <= '_';
    assert |n| > 1 ==> 'A' <= n[1] <= '_';
    assert |n| > 2 ==> 'A' <= n[2] <= '_';
  }

  lemma NameLetters3To6(st: SlurmState, i: nat)
    requires 3 <= i < 6 && i < |Name(st)|
    ensures 'A' <= Name(st)[i] <= '_'
  {
    var n := Name(st);
    assert |n| > 3 ==> 'A' <= n[3] <= '_';
    assert |n| > 4 ==> 'A' <= n[4] <= '_';
    assert |n| > 5 ==> 'A' <= n[5] <= '_';
  }

  lemma NameLetters6To9(st: SlurmState, i: nat)
    requires 6 <= i < 9 && i < |Name(st)|
    ensures 'A' <= Name(st)[i] <= '_'
  {
    var n := Name(st);
    assert |n| > 6 ==> 'A' <= n[6] <= '_';
    assert |n| > 7 ==> 'A' <= n[7] <= '_';
    assert |n| > 8 ==> 'A' <= n[8] <= '_';
  }

  lemma NameLetters9To13(st: SlurmState, i: nat)
    requires 9 <= i < 13 && i < |Name(st)|
    ensures 'A' <= Name(st)[i] <= '_'
  {
    var n := Name(st);
    assert |n| > 9 ==> 'A' <= n[9] <= '_';
    assert |n| > 10 ==> 'A' <= n[10] <= '_';
    assert |n| > 11 ==> 'A' <= n[11] <= '_';
    assert |n| > 12 ==> 'A' <= n[12] <= '_';
  }

  lemma NameLetters(st: SlurmState, i: nat)
    requires i < |Name(st)|
    ensures 'A' <= Name(st)[i] <= '_'
  {
    assert |Name(st)| <= 13;
    if i < 3 {
      NameLetters0To3(st, i);
    } else if i < 6 {
      NameLetters3To6(st, i);
    } else if i < 9 {
      NameLetters6To9(st, i);
    } else {
      NameLetters9To13(st, i);
    }
  }

  lemma NameIsOneWord(st: SlurmState)
    ensures Name(st) != ""
    ensures forall c | c in Name(st) :: 'A' <= c <= '_' && !IsSpace(c) && !IsLineBreak(c) && c != '|'
  {
    var name := Name(st);
    forall c | c in name
      ensures 'A' <= c <= '_'
    {
      var i :| 0 <= i < |name| && name[i] == c;
      NameLetters(st, i);
    }
  }

  // The state spelt by a token, None for a token outside the known set.
  function Named(token: string): (r: Option<SlurmState>)
    ensures r.Some? ==> Name(r.value) == token
    ensures r.None? ==> forall st :: Name(st) != token
  {
    if exists st: SlurmState :: Name(st) == token then
      assert forall a, b | Name(a) == token == Name(b) :: a == b by {
        forall a, b | Name(a) == token == Name(b) ensures a == b { NameInjective(a, b); }
      }
      var st :| Name(st) == token;
      Some(st)
    else None
  }

  // Reading back a printed state gives that state, and only printed states are read.
  lemma NamedIffName(token: string, st: SlurmState)
    ensures Named(token) == Some(st) <==> token == Name(st)
  {
    if token == Name(st) {
      NameInjective(st, Named(token).value);
    }
  }
}
