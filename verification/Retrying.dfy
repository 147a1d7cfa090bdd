/** The recovery loops as agents that see no more of the executor than its replies. */
module Retrying {
  import opened Errors
  import opened Models
  import opened Policy
  import opened Executor
  import opened Harness
  import opened Strategies
  import opened Planner
  import opened Recovery
  import opened Isolation

  /** The next move of a loop that has these vendors before it, with so many tries left for the
      first, once it has read its replies. */
  function RecoverMove(loop: Loop, cap: real, screen: Vendor -> Result<string>, cs: seq<Vendor>, left: nat, replies: seq<Reply>): Move
    decreases |cs|, left
  {
    if cs == [] then Stop(Returned(Escalated(loop.giveUp, 0.0))) else
      match screen(cs[0])
      case Err(PriceAnomaly) => RecoverMove(loop, cap, screen, cs[1..], loop.attempts, replies)
      case Err(e) => Stop(Propagated(e))
      case Ok(target) =>
        if left == 0 then RecoverMove(loop, cap, screen, cs[1..], loop.attempts, replies)
        else if replies == [] then Ask(PayCall(target, cap))
        else
          match replies[0]
          case Paid(p) => Stop(Returned(Bought(p)))
          case Raised(e) =>
            if Catches(loop, e) then RecoverMove(loop, cap, screen, cs, left - 1, replies[1..]) else Stop(Propagated(e))
  }

  function Recovering(loop: Loop): Strategy {
    (task: TaskSpec, seed: int, replies: seq<Reply>) =>
      RecoverMove(loop, task.mandate.budgetCap, Screen(loop, task), SortByPrice(InPolicyCandidates(task)), loop.attempts, replies)
  }

  predicate MovesAt(move: seq<Reply> -> Move, byId: Catalog, st: TrialState, calls: seq<PayCall>, i: nat)
    requires i < |calls|
  {
    move(Replies(byId, st, calls[..i])) == Ask(calls[i])
  }

  /** What such moves play. */
  ghost predicate Follows(move: seq<Reply> -> Move, byId: Catalog, st: TrialState, script: Script) {
    && (forall i :: 0 <= i < |script.calls| ==> MovesAt(move, byId, st, script.calls, i))
    && move(Replies(byId, st, script.calls)) == Stop(script.ending)
  }

  lemma {:induction false} RepliesAfter(byId: Catalog, st: TrialState, call: PayCall, calls: seq<PayCall>)
    ensures var (reply, after) := ViewPay(byId, st, call);
            && Replies(byId, st, [call] + calls) == [reply] + Replies(byId, after, calls)
            && PayAll(byId, st, [call] + calls) == PayAll(byId, after, calls)
    decreases |calls|
  {
    PayOne(byId, st, call);
    PayAllAppend(byId, st, [call], calls);
    var all := [call] + calls;
    if calls == [] {
      assert all[..0] == [] && all == [call];
    } else {
      var n := |calls| - 1;
      RepliesAfter(byId, st, call, calls[..n]);
      assert all[..|all| - 1] == [call] + calls[..n] && all[|all| - 1] == calls[n];
    }
  }

  /** A vendor tried, and the script of the ones after it. */
  function Joined(tried: Tried, calls: seq<PayCall>, rest: Script): Script {
    match tried
    case Success(p) => Script(calls, Returned(Bought(p)))
    case Crashed(e) => Script(calls, Propagated(e))
    case Exhausted => Script(calls + rest.calls, rest.ending)
  }

  function First(call: PayCall, rest: Script): Script {
    Script([call] + rest.calls, rest.ending)
  }

  lemma JoinedFirst(tried: Tried, call: PayCall, calls: seq<PayCall>, rest: Script)
    ensures Joined(tried, [call] + calls, rest) == First(call, Joined(tried, calls, rest))
  {
    assert ([call] + calls) + rest.calls == [call] + (calls + rest.calls);
  }

  /** A first payment, and moves that go on after its reply. */
  lemma AskFirst(move: seq<Reply> -> Move, next: seq<Reply> -> Move, byId: Catalog, st: TrialState, call: PayCall, rest: Script)
    requires move([]) == Ask(call)
    requires forall rs :: move([ViewPay(byId, st, call).0] + rs) == next(rs)
    requires Follows(next, byId, ViewPay(byId, st, call).1, rest)
    ensures Follows(move, byId, st, First(call, rest))
  {
    var calls := [call] + rest.calls;
    assert calls[..0] == [];
    forall i | 0 < i < |calls| ensures MovesAt(move, byId, st, calls, i) {
      assert MovesAt(next, byId, ViewPay(byId, st, call).1, rest.calls, i - 1);
      LaterMove(move, next, byId, st, call, rest.calls, i);
    }
    RepliesAfter(byId, st, call, rest.calls);
  }

  lemma LaterMove(move: seq<Reply> -> Move, next: seq<Reply> -> Move, byId: Catalog, st: TrialState, call: PayCall, calls: seq<PayCall>, i: nat)
    requires forall rs :: move([ViewPay(byId, st, call).0] + rs) == next(rs)
    requires 0 < i <= |calls| && MovesAt(next, byId, ViewPay(byId, st, call).1, calls, i - 1)
    ensures MovesAt(move, byId, st, [call] + calls, i)
  {
    assert ([call] + calls)[..i] == [call] + calls[..i - 1];
    RepliesAfter(byId, st, call, calls[..i - 1]);
  }

  /** The script of a loop in the middle of a vendor. */
  function RestScript(loop: Loop, cap: real, screen: Vendor -> Result<string>, byId: Catalog, st: TrialState, cs: seq<Vendor>, left: nat): Script {
    if cs == [] then Script([], Returned(Escalated(loop.giveUp, 0.0))) else
      match screen(cs[0])
      case Err(PriceAnomaly) => FallBack(loop, cap, screen, byId, st, cs[1..])
      case Err(e) => Script([], Propagated(e))
      case Ok(target) =>
        var (tried, calls) := Try(loop, byId, st, PayCall(target, cap), left);
        Joined(tried, calls, FallBack(loop, cap, screen, byId, PayAll(byId, st, calls), cs[1..]))
  }

  lemma RestIsFallBack(loop: Loop, cap: real, screen: Vendor -> Result<string>, byId: Catalog, st: TrialState, cs: seq<Vendor>)
    ensures RestScript(loop, cap, screen, byId, st, cs, loop.attempts) == FallBack(loop, cap, screen, byId, st, cs)
  {
  }

  /** A caught refusal: its payment, and then the script with one try fewer. */
  lemma RestAfterRefusal(loop: Loop, cap: real, screen: Vendor -> Result<string>, byId: Catalog, st: TrialState, cs: seq<Vendor>, left: nat)
    requires cs != [] && screen(cs[0]).Ok? && left > 0
    requires var reply := ViewPay(byId, st, PayCall(screen(cs[0]).value, cap)).0; reply.Raised? && Catches(loop, reply.error)
    ensures var call := PayCall(screen(cs[0]).value, cap);
            RestScript(loop, cap, screen, byId, st, cs, left)
            == First(call, RestScript(loop, cap, screen, byId, ViewPay(byId, st, call).1, cs, left - 1))
  {
    var call := PayCall(screen(cs[0]).value, cap);
    var after := ViewPay(byId, st, call).1;
    var (tried, calls) := Try(loop, byId, after, call, left - 1);
    RefusalFirst(loop, byId, st, call, left);
    JoinedFirst(tried, call, calls, FallBack(loop, cap, screen, byId, PayAll(byId, after, calls), cs[1..]));
  }

  lemma RefusalFirst(loop: Loop, byId: Catalog, st: TrialState, call: PayCall, left: nat)
    requires left > 0
    requires var reply := ViewPay(byId, st, call).0; reply.Raised? && Catches(loop, reply.error)
    ensures var (tried, calls) := Try(loop, byId, ViewPay(byId, st, call).1, call, left - 1);
            && Try(loop, byId, st, call, left) == (tried, [call] + calls)
            && PayAll(byId, st, [call] + calls) == PayAll(byId, ViewPay(byId, st, call).1, calls)
  {
    RepliesAfter(byId, st, call, Try(loop, byId, ViewPay(byId, st, call).1, call, left - 1).1);
  }

  lemma {:induction false} MovesFollow(loop: Loop, cap: real, screen: Vendor -> Result<string>, byId: Catalog, st: TrialState,
                                       cs: seq<Vendor>, left: nat)
    ensures Follows(rs => RecoverMove(loop, cap, screen, cs, left, rs), byId, st, RestScript(loop, cap, screen, byId, st, cs, left))
    decreases |cs|, left
  {
    if cs != [] {
      if screen(cs[0]) == Err(PriceAnomaly) || (screen(cs[0]).Ok? && left == 0) {
        MovesFollow(loop, cap, screen, byId, st, cs[1..], loop.attempts);
        RestIsFallBack(loop, cap, screen, byId, st, cs[1..]);
        NothingTried(loop, cap, screen, byId, st, cs, left);
        FollowsSame(rs => RecoverMove(loop, cap, screen, cs, left, rs), rs => RecoverMove(loop, cap, screen, cs[1..], loop.attempts, rs),
                    byId, st, FallBack(loop, cap, screen, byId, st, cs[1..]));
      } else if screen(cs[0]).Ok? {
        AskFollows(loop, cap, screen, byId, st, cs, left);
      }
    }
  }

  lemma FollowsSame(move: seq<Reply> -> Move, next: seq<Reply> -> Move, byId: Catalog, st: TrialState, script: Script)
    requires Follows(next, byId, st, script) && forall rs :: move(rs) == next(rs)
    ensures Follows(move, byId, st, script)
  {
    forall i | 0 <= i < |script.calls| ensures MovesAt(move, byId, st, script.calls, i) {
      assert MovesAt(next, byId, st, script.calls, i);
    }
  }

  lemma NothingTried(loop: Loop, cap: real, screen: Vendor -> Result<string>, byId: Catalog, st: TrialState, cs: seq<Vendor>, left: nat)
    requires cs != [] && (screen(cs[0]) == Err(PriceAnomaly) || (screen(cs[0]).Ok? && left == 0))
    ensures RestScript(loop, cap, screen, byId, st, cs, left) == FallBack(loop, cap, screen, byId, st, cs[1..])
  {
    var rest := FallBack(loop, cap, screen, byId, st, cs[1..]);
    assert [] + rest.calls == rest.calls;
  }

  lemma AskFollows(loop: Loop, cap: real, screen: Vendor -> Result<string>, byId: Catalog, st: TrialState, cs: seq<Vendor>, left: nat)
    requires cs != [] && screen(cs[0]).Ok? && left > 0
    ensures Follows(rs => RecoverMove(loop, cap, screen, cs, left, rs), byId, st, RestScript(loop, cap, screen, byId, st, cs, left))
    decreases |cs|, left, 0
  {
    var call := PayCall(screen(cs[0]).value, cap);
    var (reply, after) := ViewPay(byId, st, call);
    var move := rs => RecoverMove(loop, cap, screen, cs, left, rs);
    if reply.Raised? && Catches(loop, reply.error) {
      MovesFollow(loop, cap, screen, byId, after, cs, left - 1);
      RefusalFollows(loop, cap, screen, byId, st, cs, left);
    } else {
      var ending := if reply.Paid? then Returned(Bought(reply.purchase)) else Propagated(reply.error);
      var next: seq<Reply> -> Move := _ => Stop(ending);
      AskFirst(move, next, byId, st, call, Script([], ending));
      RestAtEnd(loop, cap, screen, byId, st, cs, left);
    }
  }

  lemma RefusalFollows(loop: Loop, cap: real, screen: Vendor -> Result<string>, byId: Catalog, st: TrialState, cs: seq<Vendor>, left: nat)
    requires cs != [] && screen(cs[0]).Ok? && left > 0
    requires var reply := ViewPay(byId, st, PayCall(screen(cs[0]).value, cap)).0; reply.Raised? && Catches(loop, reply.error)
    requires var after := ViewPay(byId, st, PayCall(screen(cs[0]).value, cap)).1;
             Follows(rs => RecoverMove(loop, cap, screen, cs, left - 1, rs), byId, after,
                     RestScript(loop, cap, screen, byId, after, cs, left - 1))
    ensures Follows(rs => RecoverMove(loop, cap, screen, cs, left, rs), byId, st, RestScript(loop, cap, screen, byId, st, cs, left))
  {
    var call := PayCall(screen(cs[0]).value, cap);
    var (reply, after) := ViewPay(byId, st, call);
    var move, next := rs => RecoverMove(loop, cap, screen, cs, left, rs), rs => RecoverMove(loop, cap, screen, cs, left - 1, rs);
    forall rs ensures move([reply] + rs) == next(rs) {
      MoveAfterRefusal(loop, cap, screen, cs, left, reply, rs);
    }
    AskFirst(move, next, byId, st, call, RestScript(loop, cap, screen, byId, after, cs, left - 1));
    RestAfterRefusal(loop, cap, screen, byId, st, cs, left);
  }

  lemma MoveAfterRefusal(loop: Loop, cap: real, screen: Vendor -> Result<string>, cs: seq<Vendor>, left: nat, reply: Reply, rs: seq<Reply>)
    requires cs != [] && screen(cs[0]).Ok? && left > 0 && reply.Raised? && Catches(loop, reply.error)
    ensures RecoverMove(loop, cap, screen, cs, left, [reply] + rs) == RecoverMove(loop, cap, screen, cs, left - 1, rs)
  {
    assert ([reply] + rs)[1..] == rs;
  }

  lemma RestAtEnd(loop: Loop, cap: real, screen: Vendor -> Result<string>, byId: Catalog, st: TrialState, cs: seq<Vendor>, left: nat)
    requires cs != [] && screen(cs[0]).Ok? && left > 0
    requires var reply := ViewPay(byId, st, PayCall(screen(cs[0]).value, cap)).0; !(reply.Raised? && Catches(loop, reply.error))
    ensures var call := PayCall(screen(cs[0]).value, cap);
            var reply := ViewPay(byId, st, call).0;
            RestScript(loop, cap, screen, byId, st, cs, left)
            == First(call, Script([], if reply.Paid? then Returned(Bought(reply.purchase)) else Propagated(reply.error)))
  {
    var call := PayCall(screen(cs[0]).value, cap);
    assert [call] + [] == [call];
  }

  /** Each loop plays its strategy on every executor. */
  lemma RecovererPlays(loop: Loop, byId: Catalog)
    ensures PlaysOn(Recovering(loop), Recoverer(loop), byId)
  {
    forall task: TaskSpec, seed: int, a: Attempts
      ensures Plays(Recovering(loop), task, seed, byId, TrialState(a, []), Recoverer(loop)(task, seed, ExecutorState(byId, a)))
    {
      var cap, screen, cs := task.mandate.budgetCap, Screen(loop, task), SortByPrice(InPolicyCandidates(task));
      MovesFollow(loop, cap, screen, byId, TrialState(a, []), cs, loop.attempts);
      RestIsFallBack(loop, cap, screen, byId, TrialState(a, []), cs);
      FollowsIsPlays(Recovering(loop), task, seed, rs => RecoverMove(loop, cap, screen, cs, loop.attempts, rs), byId,
                     TrialState(a, []), FallBack(loop, cap, screen, byId, TrialState(a, []), cs));
    }
  }

  lemma FollowsIsPlays(strategy: Strategy, task: TaskSpec, seed: int, move: seq<Reply> -> Move, byId: Catalog, st: TrialState, script: Script)
    requires Follows(move, byId, st, script) && forall rs :: strategy(task, seed, rs) == move(rs)
    ensures Plays(strategy, task, seed, byId, st, script)
  {
    forall i | 0 <= i < |script.calls| ensures AsksAt(strategy, task, seed, byId, st, script.calls, i) {
      assert MovesAt(move, byId, st, script.calls, i);
    }
  }

  /** So a shared executor without a refusal left keeps the trials of every retrying loop apart. */
  lemma RecovererIsolated(loop: Loop, task: TaskSpec, s: ExecutorState)
    requires Spent(s)
    ensures Isolates(task, Recoverer(loop), s)
  {
    RecovererPlays(loop, s.byId);
    StrategyOneScript(Recovering(loop), Recoverer(loop), s.byId);
    SpentIsolates(task, Recoverer(loop), s);
  }
}
