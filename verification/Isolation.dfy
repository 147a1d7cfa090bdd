/** When an executor that a run reuses keeps its trials apart: exactly when no vendor it can
    still pay has a refusal left. */
module Isolation {
  import opened Sequences
  import opened Errors
  import opened Models
  import opened Executor
  import opened Harness
  import opened Strategies
  import opened Accounting

  /** A vendor that is up has used up its refusals. */
  predicate SpentOn(byId: Catalog, attempts: Attempts, v: string)
    requires v in byId
  {
    !byId[v].down ==> byId[v].failsNextNAttempts <= AttemptsOf(attempts, v)
  }

  predicate Spent(ex: ExecutorState) {
    forall v :: v in ex.byId ==> SpentOn(ex.byId, ex.attempts, v)
  }

  /** The agent does the same on any two spent executors of the catalog. */
  ghost predicate OneScript(agent: AgentFn, byId: Catalog) {
    forall task: TaskSpec, seed: int, a: Attempts, b: Attempts ::
      Spent(ExecutorState(byId, a)) && Spent(ExecutorState(byId, b))
      ==> agent(task, seed, ExecutorState(byId, a)) == agent(task, seed, ExecutorState(byId, b))
  }

  /** Every run on the executor splits into separate runs on it as it is now. */
  ghost predicate Isolates(task: TaskSpec, agent: AgentFn, s: ExecutorState) {
    forall b: int, n: nat, m: nat :: IsolatesAt(task, agent, s, b, n, m)
  }

  predicate IsolatesAt(task: TaskSpec, agent: AgentFn, s: ExecutorState, b: int, n: nat, m: nat) {
    Trials(task, agent, b, Some(s), n + m).records
    == Join(Trials(task, agent, b, Some(s), n).records, Trials(task, agent, b + n, Some(s), m).records)
  }

  // ----- a spent executor isolates

  /** Two trial states that no call can tell apart. */
  predicate Alike(byId: Catalog, st: TrialState, st': TrialState) {
    st.calls == st'.calls && Spent(ExecutorState(byId, st.attempts)) && Spent(ExecutorState(byId, st'.attempts))
  }

  lemma SpentStays(byId: Catalog, st: TrialState, call: PayCall)
    requires Spent(ExecutorState(byId, st.attempts))
    ensures Spent(ExecutorState(byId, ViewPay(byId, st, call).1.attempts))
  {
    var after := ViewPay(byId, st, call).1.attempts;
    forall v | v in byId ensures SpentOn(byId, after, v) {
      assert SpentOn(byId, st.attempts, v) && AttemptsOf(st.attempts, v) <= AttemptsOf(after, v);
    }
  }

  lemma AlikePay(byId: Catalog, st: TrialState, st': TrialState, call: PayCall)
    requires Alike(byId, st, st')
    ensures Alike(byId, ViewPay(byId, st, call).1, ViewPay(byId, st', call).1)
    ensures ViewPay(byId, st, call).0 == ViewPay(byId, st', call).0
  {
    SpentStays(byId, st, call);
    SpentStays(byId, st', call);
    if call.target in byId {
      assert SpentOn(byId, st.attempts, call.target) && SpentOn(byId, st'.attempts, call.target);
    }
  }

  lemma {:induction false} AlikePayAll(byId: Catalog, st: TrialState, st': TrialState, calls: seq<PayCall>)
    requires Alike(byId, st, st')
    ensures Alike(byId, PayAll(byId, st, calls), PayAll(byId, st', calls))
  {
    if calls != [] {
      var n := |calls| - 1;
      AlikePayAll(byId, st, st', calls[..n]);
      AlikePay(byId, PayAll(byId, st, calls[..n]), PayAll(byId, st', calls[..n]), calls[n]);
    }
  }

  lemma {:induction false} AlikeReplies(byId: Catalog, st: TrialState, st': TrialState, calls: seq<PayCall>)
    requires Alike(byId, st, st')
    ensures Replies(byId, st, calls) == Replies(byId, st', calls)
  {
    if calls != [] {
      var n := |calls| - 1;
      AlikeReplies(byId, st, st', calls[..n]);
      AlikePayAll(byId, st, st', calls[..n]);
      AlikePay(byId, PayAll(byId, st, calls[..n]), PayAll(byId, st', calls[..n]), calls[n]);
    }
  }

  lemma AlikePlays(strategy: Strategy, task: TaskSpec, seed: int, byId: Catalog, st: TrialState, st': TrialState, script: Script)
    requires Alike(byId, st, st') && Plays(strategy, task, seed, byId, st, script)
    ensures Plays(strategy, task, seed, byId, st', script)
  {
    forall i | 0 <= i < |script.calls| ensures AsksAt(strategy, task, seed, byId, st', script.calls, i) {
      AlikeReplies(byId, st, st', script.calls[..i]);
      assert AsksAt(strategy, task, seed, byId, st, script.calls, i);
    }
    AlikeReplies(byId, st, st', script.calls);
  }

  /** The agent plays the strategy on every executor of the catalog. */
  ghost predicate PlaysOn(strategy: Strategy, agent: AgentFn, byId: Catalog) {
    forall task: TaskSpec, seed: int, a: Attempts ::
      Plays(strategy, task, seed, byId, TrialState(a, []), agent(task, seed, ExecutorState(byId, a)))
  }

  /** An agent that sees no more of the executor than its replies has one script on spent ones. */
  lemma StrategyOneScript(strategy: Strategy, agent: AgentFn, byId: Catalog)
    requires PlaysOn(strategy, agent, byId)
    ensures OneScript(agent, byId)
  {
    forall task: TaskSpec, seed: int, a: Attempts, b: Attempts
      | Spent(ExecutorState(byId, a)) && Spent(ExecutorState(byId, b))
      ensures agent(task, seed, ExecutorState(byId, a)) == agent(task, seed, ExecutorState(byId, b))
    {
      var s, t := agent(task, seed, ExecutorState(byId, a)), agent(task, seed, ExecutorState(byId, b));
      AlikePlays(strategy, task, seed, byId, TrialState(a, []), TrialState(b, []), s);
      PlaysOnce(strategy, task, seed, byId, TrialState(b, []), s, t);
    }
  }

  lemma SpentTrial(task: TaskSpec, agent: AgentFn, seed: int, byId: Catalog, a: Attempts, b: Attempts)
    requires OneScript(agent, byId)
    requires Spent(ExecutorState(byId, a)) && Spent(ExecutorState(byId, b))
    ensures var (r, after) := Trial(task, agent, seed, ExecutorState(byId, a));
            var (r', after') := Trial(task, agent, seed, ExecutorState(byId, b));
            r == r' && after.byId == after'.byId == byId && Spent(after) && Spent(after')
  {
    AlikePayAll(byId, TrialState(a, []), TrialState(b, []), agent(task, seed, ExecutorState(byId, a)).calls);
  }

  /** Two runs that have recorded the same on spent executors of one catalog. */
  predicate SameSoFar(byId: Catalog, p: Progress, q: Progress) {
    && p.records == q.records && p.shared.Some? && q.shared.Some?
    && p.shared.value.byId == byId && q.shared.value.byId == byId
    && Spent(p.shared.value) && Spent(q.shared.value)
  }

  lemma SameAdvance(task: TaskSpec, agent: AgentFn, seed: int, byId: Catalog, p: Progress, q: Progress)
    requires OneScript(agent, byId) && SameSoFar(byId, p, q)
    ensures SameSoFar(byId, Advance(task, agent, seed, p), Advance(task, agent, seed, q))
  {
    SpentTrial(task, agent, seed, byId, p.shared.value.attempts, q.shared.value.attempts);
  }

  lemma {:induction false} IterateRelated<S(!new)>(step: (int, S) -> S, seed: int, n: nat, p: S, q: S, related: (S, S) -> bool)
    requires related(p, q)
    requires forall seed: int, p: S, q: S :: related(p, q) ==> related(step(seed, p), step(seed, q))
    ensures related(Iterate(step, seed, n, p), Iterate(step, seed, n, q))
  {
    if n > 0 {
      IterateRelated(step, seed, n - 1, p, q, related);
    }
  }

  lemma SameTrials(task: TaskSpec, agent: AgentFn, b: int, byId: Catalog, n: nat, s: ExecutorState, t: ExecutorState)
    requires OneScript(agent, byId) && s.byId == t.byId == byId && Spent(s) && Spent(t)
    ensures SameSoFar(byId, Trials(task, agent, b, Some(s), n), Trials(task, agent, b, Some(t), n))
  {
    var same := (p: Progress, q: Progress) => SameSoFar(byId, p, q);
    forall seed: int, p: Progress, q: Progress | same(p, q)
      ensures same(Step(task, agent)(seed, p), Step(task, agent)(seed, q))
    {
      SameAdvance(task, agent, seed, byId, p, q);
    }
    IterateRelated(Step(task, agent), b, n, Progress(Ok([]), Some(s)), Progress(Ok([]), Some(t)), same);
  }

  lemma SpentIsolates(task: TaskSpec, agent: AgentFn, s: ExecutorState)
    requires Spent(s) && OneScript(agent, s.byId)
    ensures Isolates(task, agent, s)
  {
    forall b: int, n: nat, m: nat ensures IsolatesAt(task, agent, s, b, n, m) {
      SpentIsolatesAt(task, agent, s, b, n, m);
    }
  }

  lemma SpentIsolatesAt(task: TaskSpec, agent: AgentFn, s: ExecutorState, b: int, n: nat, m: nat)
    requires Spent(s) && OneScript(agent, s.byId)
    ensures IsolatesAt(task, agent, s, b, n, m)
  {
    var first := Trials(task, agent, b, Some(s), n);
    if first.records.Ok? {
      RunsCompose(task, agent, b, Some(s), n, m);
      SameTrials(task, agent, b, s.byId, n, s, s);
      SameTrials(task, agent, b + n, s.byId, m, first.shared.value, s);
    } else {
      StopsAt(task, agent, b, Some(s), n, n + m);
    }
  }

  // ----- an unspent one does not

  /** The agent that pays one vendor its price once a trial, whatever it is handed. */
  function Persistent(call: PayCall): AgentFn {
    (task: TaskSpec, seed: int, ex: ExecutorState) => Script([call], Returned(AgentResult([], 1, [], 0.0)))
  }

  function CallFor(s: ExecutorState, v: string): PayCall
    requires v in s.byId
  {
    PayCall(v, s.byId[v].price)
  }

  function Refusals(s: ExecutorState, v: string): int
    requires v in s.byId
  {
    s.byId[v].failsNextNAttempts - AttemptsOf(s.attempts, v)
  }

  /** What the persistent agent finds: a refusal while any are left, and one fewer of them. */
  lemma PersistentPay(s: ExecutorState, v: string)
    requires v in s.byId && !s.byId[v].down
    ensures var after := PayAll(s.byId, TrialState(s.attempts, []), [CallFor(s, v)]);
            && Refusals(ExecutorState(s.byId, after.attempts), v) == Refusals(s, v) - 1
            && after.calls == (if Refusals(s, v) > 0 then [] else [SyntheticPurchase(s.byId[v])])
  {
    FoldOne(Payer(s.byId), TrialState(s.attempts, []), CallFor(s, v));
  }

  lemma PersistentTrial(task: TaskSpec, seed: int, s: ExecutorState, v: string, call: PayCall)
    requires v in s.byId && !s.byId[v].down && call == CallFor(s, v)
    ensures var (r, after) := Trial(task, Persistent(call), seed, s);
            && r.Ok? && after.byId == s.byId && Refusals(after, v) == Refusals(s, v) - 1
            && r.value.executed == (if Refusals(s, v) > 0 then [] else [SyntheticPurchase(s.byId[v])])
  {
    PersistentPay(s, v);
  }

  /** A run so far of the persistent agent: it found a refusal until they were used up. */
  predicate Persisted(s: ExecutorState, v: string, n: nat, p: Progress)
    requires v in s.byId
  {
    && p.records.Ok? && |p.records.value| == n
    && p.shared.Some? && p.shared.value.byId == s.byId && Refusals(p.shared.value, v) == Refusals(s, v) - n
    && forall i :: 0 <= i < n ==>
         p.records.value[i].executed == (if Refusals(s, v) > i then [] else [SyntheticPurchase(s.byId[v])])
  }

  lemma PersistentStep(task: TaskSpec, seed: int, s: ExecutorState, v: string, n: nat, p: Progress)
    requires v in s.byId && !s.byId[v].down && Persisted(s, v, n, p)
    ensures Persisted(s, v, n + 1, Advance(task, Persistent(CallFor(s, v)), seed, p))
  {
    PersistentTrial(task, seed, p.shared.value, v, CallFor(s, v));
  }

  lemma {:induction false} IterateCounts<S(!new)>(step: (int, S) -> S, seed: int, n: nat, start: S, kept: (nat, S) -> bool)
    requires kept(0, start)
    requires forall k: nat, s: int, q: S :: kept(k, q) ==> kept(k + 1, step(s, q))
    ensures kept(n, Iterate(step, seed, n, start))
  {
    if n > 0 {
      IterateCounts(step, seed, n - 1, start, kept);
    }
  }

  lemma PersistentRun(task: TaskSpec, b: int, s: ExecutorState, v: string, n: nat)
    requires v in s.byId && !s.byId[v].down
    ensures Persisted(s, v, n, Trials(task, Persistent(CallFor(s, v)), b, Some(s), n))
  {
    var step := Step(task, Persistent(CallFor(s, v)));
    var kept := (k: nat, p: Progress) => Persisted(s, v, k, p);
    forall k: nat, seed: int, p: Progress | kept(k, p) ensures kept(k + 1, step(seed, p)) {
      PersistentStep(task, seed, s, v, k, p);
    }
    IterateCounts(step, b, n, Progress(Ok([]), Some(s)), kept);
  }

  /** With a refusal left, the vendor refuses until its refusals are used up and then serves: the
      next trial of the run serves, the first of a separate run refuses. */
  lemma UnspentLeaks(task: TaskSpec, s: ExecutorState, b: int, v: string)
    requires v in s.byId && !SpentOn(s.byId, s.attempts, v)
    ensures OneScript(Persistent(CallFor(s, v)), s.byId)
    ensures Refusals(s, v) > 0 && !IsolatesAt(task, Persistent(CallFor(s, v)), s, b, Refusals(s, v), 1)
  {
    PersistentOneScript(CallFor(s, v), s.byId);
    LeaksAfter(task, s, b, v, Refusals(s, v));
  }

  lemma PersistentOneScript(call: PayCall, byId: Catalog)
    ensures OneScript(Persistent(call), byId)
  {
  }

  lemma LeaksAfter(task: TaskSpec, s: ExecutorState, b: int, v: string, n: nat)
    requires v in s.byId && !s.byId[v].down && Refusals(s, v) == n > 0
    ensures !IsolatesAt(task, Persistent(CallFor(s, v)), s, b, n, 1)
  {
    PersistentRun(task, b, s, v, n + 1);
    PersistentRun(task, b, s, v, n);
    PersistentRun(task, b + n, s, v, 1);
    var agent := Persistent(CallFor(s, v));
    LastDiffers(Trials(task, agent, b, Some(s), n + 1).records, Trials(task, agent, b, Some(s), n).records,
                Trials(task, agent, b + n, Some(s), 1).records, n);
  }

  lemma LastDiffers(whole: Result<seq<TrialRecord>>, first: Result<seq<TrialRecord>>, second: Result<seq<TrialRecord>>, n: nat)
    requires whole.Ok? && |whole.value| == n + 1 && first.Ok? && |first.value| == n && second.Ok? && |second.value| == 1
    requires whole.value[n].executed != second.value[0].executed
    ensures whole != Join(first, second)
  {
    assert (first.value + second.value)[n] == second.value[0];
  }

  /** A shared executor keeps the trials of every such agent apart exactly when it is spent. */
  lemma IsolatesExactly(task: TaskSpec, s: ExecutorState)
    ensures Spent(s) <==> forall agent: AgentFn :: OneScript(agent, s.byId) ==> Isolates(task, agent, s)
  {
    if Spent(s) {
      forall agent: AgentFn | OneScript(agent, s.byId) ensures Isolates(task, agent, s) {
        SpentIsolates(task, agent, s);
      }
    } else {
      var v :| v in s.byId && !SpentOn(s.byId, s.attempts, v);
      UnspentLeaks(task, s, 0, v);
    }
  }

  /** The run that the default executor is rebuilt to avoid: a vendor that refuses once refuses the
      first trial and serves the second, though the agent does the same in both. */
  lemma SharedExecutorLeaks() returns (task: TaskSpec, agent: AgentFn, cold: ExecutorState)
    ensures !IsolatesAt(task, agent, cold, 0, 1, 1)
  {
    var flaky := Vendor("v", "c", 0.0, true, None, None, 1, false);
    task := TaskSpec("t", Mandate("c", 0.0, None, None), [flaky], Synthetic, Grading(None, false));
    cold := ExecutorState(map["v" := flaky], map[]);
    agent := OneRefusalLeaks(task, cold, "v");
  }

  lemma OneRefusalLeaks(task: TaskSpec, s: ExecutorState, v: string) returns (agent: AgentFn)
    requires v in s.byId && !s.byId[v].down && Refusals(s, v) == 1
    ensures !IsolatesAt(task, agent, s, 0, 1, 1)
  {
    agent := Persistent(CallFor(s, v));
    LeaksAfter(task, s, 0, v, 1);
  }
}
