// The cache key of a task: the run's token, the task's name and a hash of the parameters,
// joined by double colons. When two calls share a key, and that a resumed run uses the keys
// of the run it resumes.
module CacheKeys {
  import opened Wrappers

  const SEPARATOR := "::"
  const SHORT_ID_LENGTH := 8

  // Derived from the id of the flow run, and printed for the user to resume with.
  function ShortRunId(runId: string): string {
    "flo" + if |runId| < SHORT_ID_LENGTH then runId else runId[..SHORT_ID_LENGTH]
  }

  // An absent and an empty rerun token both mean the run's own short id.
  function Token(given: Option<string>, runId: string): string {
    if given.Some? && given.value != "" then given.value else ShortRunId(runId)
  }

  function Key(token: string, task: string, hash: string): string {
    token + SEPARATOR + task + SEPARATOR + hash
  }

  // rerun_aware_cache_key.
  function CacheKey(given: Option<string>, runId: string, task: string, hash: string): string {
    Key(Token(given, runId), task, hash)
  }

  predicate ColonFree(s: string) {
    ':' !in s
  }

  // A run given the token that a fresh run printed uses exactly the fresh run's keys,
  // whatever its own id is. An empty token is no token.
  lemma ResumedKeysAreFreshKeys(freshId: string, laterId: string, task: string, hash: string)
    ensures CacheKey(Some(ShortRunId(freshId)), laterId, task, hash) == CacheKey(None, freshId, task, hash)
    ensures CacheKey(Some(""), freshId, task, hash) == CacheKey(None, freshId, task, hash)
  {
    assert ShortRunId(freshId)[0] == 'f';
  }

  // What follows the last colon of a string is determined by the string.
  lemma LastColon(a: string, b: string, h: string, k: string)
    requires a + SEPARATOR + h == b + SEPARATOR + k && ColonFree(h) && ColonFree(k)
    ensures a == b && h == k
  {
    var s := a + SEPARATOR + h;
    assert s[|a| + 1] == ':' && s[|b| + 1] == ':';
    assert |a| == |b|;
    assert s[..|a|] == a && s[..|b|] == b;
    assert s[|a| + 2..] == h && s[|b| + 2..] == k;
  }

  // With colon-free hashes a key determines the hash and everything before it, so the runs of
  // one token never confuse two calls, whatever the tasks are called.
  lemma KeySplits(t: string, n: string, h: string, t': string, n': string, h': string)
    requires ColonFree(h) && ColonFree(h')
    ensures Key(t, n, h) == Key(t', n', h') <==> t + SEPARATOR + n == t' + SEPARATOR + n' && h == h'
    ensures t == t' ==> (Key(t, n, h) == Key(t', n', h') <==> n == n' && h == h')
  {
    if Key(t, n, h) == Key(t', n', h') {
      LastColon(t + SEPARATOR + n, t' + SEPARATOR + n', h, h');
    }
    if t == t' && t + SEPARATOR + n == t' + SEPARATOR + n' {
      assert n == (t + SEPARATOR + n)[|t| + 2..];
      assert n' == (t' + SEPARATOR + n')[|t'| + 2..];
    }
  }

  // A name that continues a shorter one backwards across a separator.
  predicate Swallows(n: string, n': string) {
    || n == ":" + n'
    || (|n| >= |n'| + 2 && n[|n| - |n'| - 2..] == SEPARATOR + n')
  }

  // Across tokens, the keys of a set of task names are distinct exactly when no name swallows
  // another.
  ghost predicate KeysAreDistinct(names: set<string>) {
    forall t, n, h, t', n', h' ::
      n in names && n' in names && ColonFree(h) && ColonFree(h') && Key(t, n, h) == Key(t', n', h')
      ==> t == t' && n == n' && h == h'
  }

  ghost predicate NoneSwallows(names: set<string>) {
    forall n, n' :: n in names && n' in names ==> !Swallows(n, n')
  }

  lemma LongerTokenSwallows(t: string, n: string, t': string, n': string)
    requires t + SEPARATOR + n == t' + SEPARATOR + n' && |t| < |t'|
    ensures Swallows(n, n')
  {
    var s, d := t + SEPARATOR + n, |t'| - |t|;
    assert s[|t| + 2..] == n && s[|t'| + 2..] == n' && s[|t'|..] == SEPARATOR + n';
    if d == 1 {
      assert n[0] == s[|t'| + 1] == ':' && n[1..] == n';
    } else {
      assert n[d - 2..] == s[|t'|..];
    }
  }

  lemma SwallowingCollides(n: string, n': string) returns (t: string, t': string)
    requires Swallows(n, n')
    ensures t != t' && Key(t, n, "") == Key(t', n', "")
  {
    t := "";
    if n == ":" + n' {
      t' := ":";
      assert Key(t, n, "") == ":::" + n' + "::" == Key(t', n', "");
    } else {
      var x := n[..|n| - |n'| - 2];
      t' := "::" + x;
      assert n == x + SEPARATOR + n';
      assert Key(t, n, "") == "::" + x + "::" + n' + "::" == Key(t', n', "");
    }
  }

  lemma SwallowerHasColon(n: string, n': string)
    requires Swallows(n, n')
    ensures !ColonFree(n)
  {
    if n != ":" + n' {
      assert n[|n| - |n'| - 2] == n[|n| - |n'| - 2..][0];
    }
  }

  lemma KeysAreDistinctIff(names: set<string>)
    ensures KeysAreDistinct(names) <==> NoneSwallows(names)
    ensures (forall n | n in names :: ColonFree(n)) ==> KeysAreDistinct(names)
  {
    if NoneSwallows(names) {
      forall t, n, h, t', n', h' | n in names && n' in names && ColonFree(h) && ColonFree(h') && Key(t, n, h) == Key(t', n', h')
        ensures t == t' && n == n' && h == h'
      {
        KeySplits(t, n, h, t', n', h');
        if |t| < |t'| {
          LongerTokenSwallows(t, n, t', n');
        } else if |t'| < |t| {
          LongerTokenSwallows(t', n', t, n);
        } else {
          assert t == (t + SEPARATOR + n)[..|t|] && t' == (t' + SEPARATOR + n')[..|t'|];
        }
      }
    } else {
      var n, n' :| n in names && n' in names && Swallows(n, n');
      var t, t' := SwallowingCollides(n, n');
      assert ColonFree("");
    }
    if forall n | n in names :: ColonFree(n) {
      forall n, n' | n in names && n' in names && Swallows(n, n')
        ensures false
      {
        SwallowerHasColon(n, n');
      }
    }
  }
}
