// Resumption transparency: a flow of cached tasks that is killed anywhere, any number of
// times, and resumed with the token its first run printed, ends with the result of one run
// that nothing interrupted, and executes no committed task a second time.
module Resumption {
  import opened Wrappers
  import opened CacheKeys

  type Value = string

  // A deterministic flow decides its next call from the results it has seen. A task is named
  // and takes parameters; a run without failures returns `body` of them.
  datatype Act = Call(task: string, params: Value) | Return(result: Value)

  datatype Flow = Flow(next: seq<Value> -> Act, body: (string, Value) -> Value, hash: Value -> string)

  // The hash is taken to be injective, and hexadecimal digits contain no colon.
  ghost predicate Sound(f: Flow) {
    && (forall p :: ColonFree(f.hash(p)))
    && (forall p, q :: f.hash(p) == f.hash(q) ==> p == q)
  }

  // What happens at one step of an attempt: it goes well, the process dies before the step
  // has any effect, the task raises or the process dies before its result is committed, or
  // it dies right after. A step answered from the cache goes well or dies.
  datatype Fate = Fine | Dies | FailsUncommitted | DiesCommitted

  // One execution of a task body.
  datatype Execution = Execution(key: string, committed: bool)

  datatype Outcome = Completed(result: Value) | Interrupted

  type Cache = map<string, Value>

  datatype Report = Report(cache: Cache, log: seq<Execution>, outcome: Outcome)

  // One run of the flow from a cache, as long as fate supplies steps.
  function Attempt(f: Flow, token: string, cache: Cache, seen: seq<Value>, fates: seq<Fate>): Report
    decreases |fates|
  {
    match f.next(seen)
    case Return(v) => Report(cache, [], Completed(v))
    case Call(task, params) =>
      var k := Key(token, task, f.hash(params));
      if fates == [] || fates[0].Dies? then Report(cache, [], Interrupted)
      else if k in cache then Attempt(f, token, cache, seen + [cache[k]], fates[1..])
      else if fates[0].FailsUncommitted? then Report(cache, [Execution(k, false)], Interrupted)
      else
        var v := f.body(task, params);
        if fates[0].DiesCommitted? then Report(cache[k := v], [Execution(k, true)], Interrupted)
        else
          var rest := Attempt(f, token, cache[k := v], seen + [v], fates[1..]);
          rest.(log := [Execution(k, true)] + rest.log)
  }

  // One uninterrupted run without any cache, of at most n calls.
  function Plain(f: Flow, seen: seq<Value>, n: nat): Outcome
    decreases n
  {
    match f.next(seen)
    case Return(v) => Completed(v)
    case Call(task, params) => if n == 0 then Interrupted else Plain(f, seen + [f.body(task, params)], n - 1)
  }

  // A run of the flow as the user started it: with or without a token.
  datatype Start = Start(given: Option<string>, runId: string, fates: seq<Fate>)

  // The runs one after the other, sharing the result store.
  function Session(f: Flow, cache: Cache, starts: seq<Start>): Report {
    if starts == [] then Report(cache, [], Interrupted)
    else
      var before := Session(f, cache, starts[..|starts| - 1]);
      var last := starts[|starts| - 1];
      var r := Attempt(f, Token(last.given, last.runId), before.cache, [], last.fates);
      Report(r.cache, before.log + r.log, r.outcome)
  }

  // A first run without a token, and later runs given the token it printed.
  ghost predicate Resumes(starts: seq<Start>) {
    && starts != [] && starts[0].given == None
    && forall i | 1 <= i < |starts| :: starts[i].given == Some(ShortRunId(starts[0].runId))
  }

  // ---- What the cache of a token may hold ----------------------------------------------

  // Every entry under the token is the value of the call it is filed under.
  ghost predicate Truthful(f: Flow, token: string, cache: Cache) {
    forall task, params ::
      var k := Key(token, task, f.hash(params));
      k in cache ==> cache[k] == f.body(task, params)
  }

  lemma CommitStaysTruthful(f: Flow, token: string, cache: Cache, task: string, params: Value)
    requires Sound(f) && Truthful(f, token, cache)
    ensures Truthful(f, token, cache[Key(token, task, f.hash(params)) := f.body(task, params)])
  {
    var cache' := cache[Key(token, task, f.hash(params)) := f.body(task, params)];
    forall t, p | Key(token, t, f.hash(p)) in cache'
      ensures cache'[Key(token, t, f.hash(p))] == f.body(t, p)
    {
      KeySplits(token, t, f.hash(p), token, task, f.hash(params));
    }
  }

  // An attempt keeps the cache truthful, and completes only with the plain result.
  lemma {:induction false} AttemptIsPlain(f: Flow, token: string, cache: Cache, seen: seq<Value>, fates: seq<Fate>)
    requires Sound(f) && Truthful(f, token, cache)
    ensures var r := Attempt(f, token, cache, seen, fates);
      && Truthful(f, token, r.cache)
      && (r.outcome.Completed? ==> r.outcome == Plain(f, seen, |fates|))
    decreases |fates|
  {
    if f.next(seen).Call? && fates != [] {
      var task, params := f.next(seen).task, f.next(seen).params;
      var k := Key(token, task, f.hash(params));
      CommitStaysTruthful(f, token, cache, task, params);
      if k in cache {
        AttemptIsPlain(f, token, cache, seen + [cache[k]], fates[1..]);
      } else {
        AttemptIsPlain(f, token, cache[k := f.body(task, params)], seen + [f.body(task, params)], fates[1..]);
      }
    }
  }

  predicate Undisturbed(fates: seq<Fate>) {
    forall i | 0 <= i < |fates| :: fates[i].Fine?
  }

  // The executions of a log never run a key that is already in the cache, or was committed
  // earlier in the log; what was committed is in the cache afterwards.
  ghost predicate NothingTwice(cache: Cache, log: seq<Execution>, after: Cache) {
    && cache.Keys <= after.Keys
    && (forall i | 0 <= i < |log| :: log[i].key !in cache && (log[i].committed ==> log[i].key in after))
    && (forall i, j | 0 <= i < j < |log| :: log[i].committed ==> log[j].key != log[i].key)
  }

  lemma NothingTwiceJoins(a: Cache, log: seq<Execution>, b: Cache, log': seq<Execution>, c: Cache)
    requires NothingTwice(a, log, b) && NothingTwice(b, log', c)
    ensures NothingTwice(a, log + log', c)
  {
  }

  lemma {:induction false} AttemptRunsNothingTwice(f: Flow, token: string, cache: Cache, seen: seq<Value>, fates: seq<Fate>)
    ensures var r := Attempt(f, token, cache, seen, fates); NothingTwice(cache, r.log, r.cache)
    decreases |fates|
  {
    if f.next(seen).Call? && fates != [] && fates[0].Fine? {
      var task, params := f.next(seen).task, f.next(seen).params;
      var k := Key(token, task, f.hash(params));
      if k in cache {
        AttemptRunsNothingTwice(f, token, cache, seen + [cache[k]], fates[1..]);
      } else {
        var v := f.body(task, params);
        AttemptRunsNothingTwice(f, token, cache[k := v], seen + [v], fates[1..]);
        var rest := Attempt(f, token, cache[k := v], seen + [v], fates[1..]);
        NothingTwiceJoins(cache, [Execution(k, true)], cache[k := v], rest.log, rest.cache);
      }
    } else if f.next(seen).Call? && fates != [] && !fates[0].Dies? {
      var k := Key(token, f.next(seen).task, f.hash(f.next(seen).params));
      if k in cache {
        AttemptRunsNothingTwice(f, token, cache, seen + [cache[k]], fates[1..]);
      }
    }
  }

  // An undisturbed attempt completes exactly when the plain run does, from any truthful
  // cache: nothing an interrupted run left behind can hold the flow back.
  lemma {:induction false} UndisturbedIsPlain(f: Flow, token: string, cache: Cache, seen: seq<Value>, fates: seq<Fate>)
    requires Sound(f) && Truthful(f, token, cache) && Undisturbed(fates)
    ensures Attempt(f, token, cache, seen, fates).outcome == Plain(f, seen, |fates|)
    decreases |fates|
  {
    if f.next(seen).Call? && fates != [] {
      assert fates[0].Fine?;
      var task, params := f.next(seen).task, f.next(seen).params;
      var k := Key(token, task, f.hash(params));
      if k in cache {
        UndisturbedIsPlain(f, token, cache, seen + [cache[k]], fates[1..]);
      } else {
        CommitStaysTruthful(f, token, cache, task, params);
        UndisturbedIsPlain(f, token, cache[k := f.body(task, params)], seen + [f.body(task, params)], fates[1..]);
      }
    }
  }

  // ---- Sessions -------------------------------------------------------------------------

  lemma {:induction false} SessionIsPlain(f: Flow, token: string, cache: Cache, starts: seq<Start>)
    requires Sound(f) && Truthful(f, token, cache)
    requires forall i | 0 <= i < |starts| :: Token(starts[i].given, starts[i].runId) == token
    ensures Truthful(f, token, Session(f, cache, starts).cache)
    ensures starts != [] && Session(f, cache, starts).outcome.Completed? ==>
      Session(f, cache, starts).outcome == Plain(f, [], |starts[|starts| - 1].fates|)
    ensures starts != [] && Undisturbed(starts[|starts| - 1].fates) ==>
      Session(f, cache, starts).outcome == Plain(f, [], |starts[|starts| - 1].fates|)
  {
    if starts != [] {
      var init := starts[..|starts| - 1];
      SessionIsPlain(f, token, cache, init);
      var fates := starts[|starts| - 1].fates;
      AttemptIsPlain(f, token, Session(f, cache, init).cache, [], fates);
      if Undisturbed(fates) {
        UndisturbedIsPlain(f, token, Session(f, cache, init).cache, [], fates);
      }
    }
  }

  // However often the flow was interrupted, and wherever: when a resumed run completes, its
  // result is that of one uninterrupted run, and an undisturbed last run completes exactly
  // when the uninterrupted one does.
  lemma ResumingIsTransparent(f: Flow, starts: seq<Start>)
    requires Sound(f) && Resumes(starts)
    ensures var r, fates := Session(f, map[], starts), starts[|starts| - 1].fates;
      r.outcome.Completed? || Undisturbed(fates) ==> r.outcome == Plain(f, [], |fates|)
  {
    var token := ShortRunId(starts[0].runId);
    forall i | 0 <= i < |starts|
      ensures Token(starts[i].given, starts[i].runId) == token
    {
      assert token[0] == 'f';
    }
    SessionIsPlain(f, token, map[], starts);
  }

  // No committed task is executed again, in the same run or in a later one.
  lemma {:induction false} NothingCommittedRunsAgain(f: Flow, cache: Cache, starts: seq<Start>)
    ensures NothingTwice(cache, Session(f, cache, starts).log, Session(f, cache, starts).cache)
  {
    if starts != [] {
      var init, last := starts[..|starts| - 1], starts[|starts| - 1];
      NothingCommittedRunsAgain(f, cache, init);
      var before := Session(f, cache, init);
      var token := Token(last.given, last.runId);
      AttemptRunsNothingTwice(f, token, before.cache, [], last.fates);
      var r := Attempt(f, token, before.cache, [], last.fates);
      NothingTwiceJoins(cache, before.log, before.cache, r.log, r.cache);
    }
  }
}
