// The names of the shared variables, the grammar of Slurm job ids, and exactly when two
// jobs can never be given the same status variable.
module Names {
  function StatusVarName(hpc: string, job: string): string {
    "sbatch_" + hpc + "_" + job
  }

  function LeaseVarName(hpc: string): string {
    "_sbatch_monitoring_" + hpc
  }

  predicate Digits(s: string) {
    forall c | c in s :: '0' <= c <= '9'
  }

  // [1-9]\d*
  predicate PositiveNumber(s: string) {
    s != "" && s[0] != '0' && Digits(s)
  }

  predicate ArrayIdAt(s: string, k: nat) {
    k < |s| && s[k] == '_' && PositiveNumber(s[..k]) && s[k + 1..] != "" && Digits(s[k + 1..])
  }

  // [1-9]\d*(?:_\d+)?
  predicate ValidJobId(s: string) {
    PositiveNumber(s) || exists k: nat | k < |s| :: ArrayIdAt(s, k)
  }

  // b is a followed by an underscore and a positive number.
  ghost predicate IndexedCopy(a: string, b: string) {
    exists n :: PositiveNumber(n) && b == a + "_" + n
  }

  ghost predicate Separated(hpcs: set<string>) {
    forall a, b | a in hpcs && b in hpcs :: !IndexedCopy(a, b)
  }

  ghost predicate NamesAreInjective(hpcs: set<string>) {
    forall a, b, j, k | a in hpcs && b in hpcs && ValidJobId(j) && ValidJobId(k) &&
      StatusVarName(a, j) == StatusVarName(b, k) :: a == b && j == k
  }

  lemma StatusIsNoLease(hpc: string, job: string, other: string)
    ensures StatusVarName(hpc, job) != LeaseVarName(other)
  {
    assert StatusVarName(hpc, job)[0] == 's' && LeaseVarName(other)[0] == '_';
  }

  lemma LeaseNameInjective(a: string, b: string)
    requires LeaseVarName(a) == LeaseVarName(b)
    ensures a == b
  {
    assert a == LeaseVarName(a)[19..] && b == LeaseVarName(b)[19..];
  }

  lemma SameHpcSameJob(hpc: string, j: string, k: string)
    requires StatusVarName(hpc, j) == StatusVarName(hpc, k)
    ensures j == k
  {
    var n := |"sbatch_" + hpc + "_"|;
    assert j == StatusVarName(hpc, j)[n..] && k == StatusVarName(hpc, k)[n..];
  }

  lemma DigitElsewhere(s: string, k: nat, i: nat)
    requires ArrayIdAt(s, k) && i < |s| && i != k
    ensures '0' <= s[i] <= '9'
  {
    if i < k {
      assert s[i] == s[..k][i] && s[..k][i] in s[..k];
    } else {
      assert s[i] == s[k + 1..][i - k - 1] && s[k + 1..][i - k - 1] in s[k + 1..];
    }
  }

  // A job id contains at most one underscore, and it follows a positive number.
  lemma SplitJobId(a: string, b: string)
    requires ValidJobId(a + "_" + b)
    ensures PositiveNumber(a)
  {
    var s := a + "_" + b;
    assert s[|a|] == '_' && s[|a|] in s;
    var k: nat :| k < |s| && ArrayIdAt(s, k);
    if |a| != k {
      DigitElsewhere(s, k, |a|);
    }
    assert s[..|a|] == a;
  }

  lemma PrefixesOf(a: string, b: string, j: string, k: string)
    requires |a| < |b| && a + "_" + j == b + "_" + k && ValidJobId(j)
    ensures IndexedCopy(a, b)
  {
    var whole := a + "_" + j;
    var n := b[|a| + 1..];
    assert b == whole[..|b|] && whole[..|a|] == a && whole[|a|] == '_';
    assert b == a + "_" + n;
    assert j == whole[|a| + 1..] == n + "_" + k;
    SplitJobId(n, k);
  }

  // Status variables are told apart by their names, for all valid job ids, exactly when no
  // HPC is named like another one with an array index appended.
  lemma NamesInjectiveIff(hpcs: set<string>)
    ensures NamesAreInjective(hpcs) <==> Separated(hpcs)
  {
    if Separated(hpcs) {
      forall a, b, j, k | a in hpcs && b in hpcs && ValidJobId(j) && ValidJobId(k) && StatusVarName(a, j) == StatusVarName(b, k)
        ensures a == b && j == k
      {
        assert a + "_" + j == StatusVarName(a, j)[7..] == b + "_" + k;
        if |a| < |b| {
          PrefixesOf(a, b, j, k);
        } else if |b| < |a| {
          PrefixesOf(b, a, k, j);
        } else {
          assert a == (a + "_" + j)[..|a|] == b;
          SameHpcSameJob(a, j, k);
        }
      }
    }
    forall a, b | a in hpcs && b in hpcs && IndexedCopy(a, b)
      ensures !NamesAreInjective(hpcs)
    {
      var n :| PositiveNumber(n) && b == a + "_" + n;
      var j := n + "_" + "1";
      assert j[..|n|] == n && j[|n| + 1..] == "1";
      assert ArrayIdAt(j, |n|);
      assert PositiveNumber("1");
      assert StatusVarName(a, j) == StatusVarName(b, "1");
      assert |a| != |b|;
    }
  }
}
