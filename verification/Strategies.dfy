/** Agents that look at the replies to their payments, as agents of the harness. */
module Strategies {
  import opened Models
  import opened Executor
  import opened Harness

  /** What such an agent does next: it asks for a payment or ends. */
  datatype Move = Ask(call: PayCall) | Stop(ending: Ending)

  /** The next move, after these replies so far. */
  type Strategy = (TaskSpec, int, seq<Reply>) -> Move

  /** The replies to a list of payments through the view. */
  function Replies(byId: Catalog, st: TrialState, calls: seq<PayCall>): (r: seq<Reply>)
    ensures |r| == |calls|
  {
    if calls == [] then [] else
      var n := |calls| - 1;
      Replies(byId, st, calls[..n]) + [ViewPay(byId, PayAll(byId, st, calls[..n]), calls[n]).0]
  }

  predicate AsksAt(strategy: Strategy, task: TaskSpec, seed: int, byId: Catalog, st: TrialState, calls: seq<PayCall>, i: nat)
    requires i < |calls|
  {
    strategy(task, seed, Replies(byId, st, calls[..i])) == Ask(calls[i])
  }

  /** The script is what the strategy does on this executor: each payment is the move after the
      replies to those before, and the ending is the move after all of them. */
  ghost predicate Plays(strategy: Strategy, task: TaskSpec, seed: int, byId: Catalog, st: TrialState, script: Script) {
    && (forall i :: 0 <= i < |script.calls| ==> AsksAt(strategy, task, seed, byId, st, script.calls, i))
    && strategy(task, seed, Replies(byId, st, script.calls)) == Stop(script.ending)
  }

  lemma {:induction false} SameStart(strategy: Strategy, task: TaskSpec, seed: int, byId: Catalog, st: TrialState,
                                     s: Script, t: Script, n: nat)
    requires Plays(strategy, task, seed, byId, st, s) && Plays(strategy, task, seed, byId, st, t)
    requires n <= |s.calls| && n <= |t.calls|
    ensures s.calls[..n] == t.calls[..n]
  {
    if n > 0 {
      SameStart(strategy, task, seed, byId, st, s, t, n - 1);
      assert AsksAt(strategy, task, seed, byId, st, s.calls, n - 1) && AsksAt(strategy, task, seed, byId, st, t.calls, n - 1);
      assert s.calls[..n] == s.calls[..n - 1] + [s.calls[n - 1]] && t.calls[..n] == t.calls[..n - 1] + [t.calls[n - 1]];
    }
  }

  /** A strategy plays one script on an executor at most. */
  lemma PlaysOnce(strategy: Strategy, task: TaskSpec, seed: int, byId: Catalog, st: TrialState, s: Script, t: Script)
    requires Plays(strategy, task, seed, byId, st, s) && Plays(strategy, task, seed, byId, st, t)
    ensures s == t
  {
    var n := if |s.calls| <= |t.calls| then |s.calls| else |t.calls|;
    SameStart(strategy, task, seed, byId, st, s, t, n);
    NextMove(strategy, task, seed, byId, st, s, n);
    NextMove(strategy, task, seed, byId, st, t, n);
  }

  ghost predicate Ends(strategy: Strategy, task: TaskSpec, seed: int, ex: ExecutorState) {
    exists script :: Plays(strategy, task, seed, ex.byId, TrialState(ex.attempts, []), script)
  }

  /** Every strategy that ends on every executor is an agent of the harness. */
  lemma StrategyIsAgent(strategy: Strategy) returns (agent: AgentFn)
    requires forall task: TaskSpec, seed: int, ex: ExecutorState :: Ends(strategy, task, seed, ex)
    ensures forall task: TaskSpec, seed: int, ex: ExecutorState ::
              Plays(strategy, task, seed, ex.byId, TrialState(ex.attempts, []), agent(task, seed, ex))
  {
    agent := (task: TaskSpec, seed: int, ex: ExecutorState) =>
      assert Ends(strategy, task, seed, ex);
      var script :| Plays(strategy, task, seed, ex.byId, TrialState(ex.attempts, []), script);
      script;
  }

  /** The strategy itself, asking and looking at the replies, does to the view what its script does.
      The script bounds the number of its payments. */
  method PlayOn(strategy: Strategy, task: TaskSpec, seed: int, view: RecordingView, ghost script: Script) returns (ending: Ending)
    requires Plays(strategy, task, seed, view.inner.byId, view.State(), script)
    modifies view`calls, view.inner`attempts
    ensures ending == script.ending
    ensures view.State() == PayAll(view.inner.byId, old(view.State()), script.calls)
  {
    ghost var start, byId, i := view.State(), view.inner.byId, 0;
    var replies: seq<Reply> := [];
    assert script.calls[..0] == [];
    while strategy(task, seed, replies).Ask?
      invariant i <= |script.calls|
      invariant replies == Replies(byId, start, script.calls[..i])
      invariant view.State() == PayAll(byId, start, script.calls[..i])
      decreases |script.calls| - i
    {
      NextMove(strategy, task, seed, byId, start, script, i);
      var reply := view.Pay(strategy(task, seed, replies).call);
      assert script.calls[..i + 1][..i] == script.calls[..i];
      replies, i := replies + [reply], i + 1;
    }
    NextMove(strategy, task, seed, byId, start, script, i);
    ending := strategy(task, seed, replies).ending;
  }

  lemma NextMove(strategy: Strategy, task: TaskSpec, seed: int, byId: Catalog, st: TrialState, script: Script, i: nat)
    requires Plays(strategy, task, seed, byId, st, script) && i <= |script.calls|
    ensures strategy(task, seed, Replies(byId, st, script.calls[..i]))
            == if i < |script.calls| then Ask(script.calls[i]) else Stop(script.ending)
    ensures i == |script.calls| ==> script.calls[..i] == script.calls
  {
    if i < |script.calls| {
      assert AsksAt(strategy, task, seed, byId, st, script.calls, i);
    } else {
      assert script.calls[..i] == script.calls;
    }
  }
}
