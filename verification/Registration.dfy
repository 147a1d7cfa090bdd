/** register_spend_permission against a chain that other parties also write to. */
module Registration {
  import opened Sequences
  import opened Errors
  import opened Eip712

  /** The manager's two flags, per permission hash. */
  datatype Flags = Flags(approved: set<Hash>, revoked: set<Hash>)

  datatype Step = Approve(id: Hash) | Revoke(id: Hash)

  /** Neither flag is ever cleared, and approving a revoked hash changes nothing. */
  function Apply(s: Flags, step: Step): Flags {
    match step
    case Approve(id) => if id in s.revoked then s else s.(approved := s.approved + {id})
    case Revoke(id) => s.(revoked := s.revoked + {id})
  }

  function ApplyAll(s: Flags, steps: seq<Step>): Flags {
    Fold(Apply, s, steps)
  }

  /** isValid, leaving the time window aside. */
  predicate Usable(s: Flags, id: Hash) {
    id in s.approved && id !in s.revoked
  }

  /** The two reads: both answered, or an exception of the first or the second. */
  datatype Reads = BothRead | FirstFails(error: Exn) | SecondFails(error: Exn)

  /** What becomes of our transaction: an exception while it is built or sent, no receipt within the
      retries, both of which leave open whether it landed, a revert, or a block. */
  datatype Fate = Broken(error: Exn, landed: bool) | Unseen(landed: bool) | Reverted | Mined(replies: Reads)

  /** Everything about one call that the caller does not decide: the other parties' steps before
      the transaction, between it and the first read, and between the two reads. */
  datatype Surroundings = Surroundings(before: seq<Step>, fate: Fate, beforeReads: seq<Step>, betweenReads: seq<Step>)

  function Landing(s: Flags, id: Hash, landed: bool): Flags {
    if landed then Apply(s, Approve(id)) else s
  }

  /** The call's outcome, and the flags at its last instant. */
  function Outcome(s: Flags, id: Hash, txHash: string, w: Surroundings): (Result<string>, Flags) {
    var sent := ApplyAll(s, w.before);
    match w.fate
    case Broken(e, landed) => (Err(e), Landing(sent, id, landed))
    case Unseen(landed) => (Err(SettlementNotConfirmed(txHash)), Landing(sent, id, landed))
    case Reverted => (Err(SpendPermissionUnauthorized), sent)
    case Mined(replies) =>
      var firstRead := ApplyAll(Apply(sent, Approve(id)), w.beforeReads);
      var secondRead := ApplyAll(firstRead, w.betweenReads);
      match replies
      case FirstFails(e) => (Err(e), firstRead)
      case SecondFails(e) => (Err(e), secondRead)
      case BothRead =>
        (if id !in firstRead.approved || id in secondRead.revoked then Err(SpendPermissionUnauthorized) else Ok(txHash),
         secondRead)
  }

  class Manager {
    var approved: set<Hash>
    var revoked: set<Hash>

    constructor ()
      ensures State() == Flags({}, {})
    {
      approved, revoked := {}, {};
    }

    function State(): Flags
      reads this
    {
      Flags(approved, revoked)
    }

    method Take(step: Step)
      modifies this
      ensures State() == Apply(old(State()), step)
    {
      match step {
        case Approve(id) =>
          if id !in revoked {
            approved := approved + {id};
          }
        case Revoke(id) =>
          revoked := revoked + {id};
      }
    }

    method TakeAll(steps: seq<Step>)
      modifies this
      ensures State() == ApplyAll(old(State()), steps)
    {
      assert steps[..0] == [];
      for i := 0 to |steps|
        invariant State() == ApplyAll(old(State()), steps[..i])
      {
        Take(steps[i]);
        assert steps[..i + 1][..i] == steps[..i];
      }
      assert steps[..|steps|] == steps;
    }
  }

  method Register(manager: Manager, id: Hash, txHash: string, w: Surroundings) returns (r: Result<string>)
    modifies manager
    ensures (r, manager.State()) == Outcome(old(manager.State()), id, txHash, w)
  {
    manager.TakeAll(w.before);
    match w.fate {
      case Broken(e, landed) =>
        if landed {
          manager.Take(Approve(id));
        }
        return Err(e);
      case Unseen(landed) =>
        if landed {
          manager.Take(Approve(id));
        }
        return Err(SettlementNotConfirmed(txHash));
      case Reverted =>
        return Err(SpendPermissionUnauthorized);
      case Mined(replies) =>
        manager.Take(Approve(id));
        manager.TakeAll(w.beforeReads);
        if replies.FirstFails? {
          return Err(replies.error);
        }
        var approved := id in manager.approved;
        manager.TakeAll(w.betweenReads);
        if replies.SecondFails? {
          return Err(replies.error);
        }
        var revoked := id in manager.revoked;
        if !approved || revoked {
          return Err(SpendPermissionUnauthorized);
        }
        return Ok(txHash);
    }
  }

  // ----- what holds for every interleaving

  lemma {:induction false} FlagsStay(s: Flags, steps: seq<Step>)
    ensures s.approved <= ApplyAll(s, steps).approved && s.revoked <= ApplyAll(s, steps).revoked
  {
    if steps != [] {
      FlagsStay(s, steps[..|steps| - 1]);
    }
  }

  /** A return is as good as one atomic look: at the instant of the second read the permission is
      approved and not revoked. And a mined transaction whose reads are answered returns exactly then. */
  lemma ReadBackIsSnapshot(s: Flags, id: Hash, txHash: string, w: Surroundings)
    ensures var (r, last) := Outcome(s, id, txHash, w);
            && (r.Ok? <==> w.fate == Mined(BothRead) && Usable(last, id))
            && (w.fate == Mined(BothRead) ==> (r.Ok? <==> id !in last.revoked))
  {
    if w.fate.Mined? {
      var sent := Apply(ApplyAll(s, w.before), Approve(id));
      FlagsStay(sent, w.beforeReads);
      FlagsStay(ApplyAll(sent, w.beforeReads), w.betweenReads);
    }
  }

  /** What the caller gets: the exception of whatever failed, no receipt as unconfirmed under the hash,
      and the hash exactly if the permission is usable at the last read. */
  predicate Answers(id: Hash, txHash: string, w: Surroundings, last: Flags, r: Result<string>) {
    match w.fate
    case Broken(e, _) => r == Err(e)
    case Unseen(_) => r == Err(SettlementNotConfirmed(txHash))
    case Reverted => r == Err(SpendPermissionUnauthorized)
    case Mined(FirstFails(e)) => r == Err(e)
    case Mined(SecondFails(e)) => r == Err(e)
    case Mined(BothRead) => r == if id in last.approved && id !in last.revoked then Ok(txHash) else Err(SpendPermissionUnauthorized)
  }

  lemma RegisterAnswers(s: Flags, id: Hash, txHash: string, w: Surroundings)
    ensures var (r, last) := Outcome(s, id, txHash, w); Answers(id, txHash, w, last, r)
  {
    ReadBackIsSnapshot(s, id, txHash, w);
  }

  datatype Call = Call(id: Hash, txHash: string, around: Surroundings)

  /** The outcomes of a series of calls. */
  function Outcomes(s: Flags, calls: seq<Call>): seq<Result<string>>
    decreases |calls|
  {
    if calls == [] then [] else
      var (r, after) := Outcome(s, calls[0].id, calls[0].txHash, calls[0].around);
      [r] + Outcomes(after, calls[1..])
  }

  lemma RevokedStays(s: Flags, id: Hash, c: Call)
    requires id in s.revoked
    ensures var (r, after) := Outcome(s, c.id, c.txHash, c.around);
            id in after.revoked && (c.id == id ==> r.Err?)
  {
    var w := c.around;
    FlagsStay(s, w.before);
    if w.fate.Mined? {
      var sent := Apply(ApplyAll(s, w.before), Approve(c.id));
      FlagsStay(sent, w.beforeReads);
      FlagsStay(ApplyAll(sent, w.beforeReads), w.betweenReads);
    }
  }

  /** Once a hash is revoked no later call for it returns, whatever else happens in between. */
  lemma {:induction false} RevokedForGood(s: Flags, id: Hash, calls: seq<Call>)
    requires id in s.revoked
    ensures |Outcomes(s, calls)| == |calls|
    ensures forall i :: 0 <= i < |calls| && calls[i].id == id ==> Outcomes(s, calls)[i].Err?
    decreases |calls|
  {
    if calls != [] {
      var after := Outcome(s, calls[0].id, calls[0].txHash, calls[0].around).1;
      RevokedStays(s, id, calls[0]);
      RevokedForGood(after, id, calls[1..]);
      forall i | 0 <= i < |calls| && calls[i].id == id ensures Outcomes(s, calls)[i].Err? {
        if i > 0 {
          assert Outcomes(s, calls)[i] == Outcomes(after, calls[1..])[i - 1];
        }
      }
    }
  }

  /** The same reads in the other order, the revocation first. */
  function ReversedReads(firstRead: Flags, id: Hash, betweenReads: seq<Step>): (bool, Flags) {
    var secondRead := ApplyAll(firstRead, betweenReads);
    (id in secondRead.approved && id !in firstRead.revoked, secondRead)
  }

  /** The other order accepts a permission that is revoked by the time it returns, and so does
      looking at the approval alone; the order in the code refuses it. */
  lemma OrderMatters(id: Hash, txHash: string)
    ensures var approved := Flags({id}, {});
            var (accepted, last) := ReversedReads(approved, id, [Revoke(id)]);
            && accepted && !Usable(last, id) && id in last.approved
            && Outcome(Flags({}, {}), id, txHash, Surroundings([], Mined(BothRead), [], [Revoke(id)])).0.Err?
  {
    var s := Flags({id}, {});
    assert ApplyAll(s, [Revoke(id)][..0]) == s;
    assert ApplyAll(s, [Revoke(id)]) == Flags({id}, {id});
    assert Apply(ApplyAll(Flags({}, {}), []), Approve(id)) == s;
    assert ApplyAll(s, []) == s;
  }
}
