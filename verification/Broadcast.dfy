/**
 Settling EVM authorizations: any number of concurrent broadcast calls claim a key, settle, and
 then commit a reference or roll the claim back. Store calls are atomic steps; a settlement may
 end in any way the hook or the facilitator can answer, and any call may die at an await.
 */
module Broadcast {
  import opened Wrappers

  type CallId = nat

  type Key = string

  datatype Value = PendingClaim | Reference(text: string)

  // ---------- How a settlement ends ----------

  /** What the settle hook or the facilitator did. */
  datatype Answer =
    | HookReturned(reference: Option<string>)
    | HookRaised(rollback: bool)
    | FacilitatorFailed
    | FacilitatorReplied(success: bool, pending: bool, transaction: string)

  /** How _settle ends: a reference, an error that proves nothing settled, or another error. */
  datatype Outcome = Settled(reference: string) | NothingSettled | Unknown

  /**
   Only a VerificationFailedError or an InvalidPayloadError rolls back. A facilitator that failed,
   or reported a pending transfer, may have broadcast it; a success without a transaction, or a
   hook result that is not a non-empty string, is an internal error.
   */
  function OutcomeOf(a: Answer): Outcome {
    match a
    case HookReturned(r) => if r.Some? && r.value != "" then Settled(r.value) else Unknown
    case HookRaised(rollback) => if rollback then NothingSettled else Unknown
    case FacilitatorFailed => Unknown
    case FacilitatorReplied(success, pending, transaction) =>
      if !success then (if pending then Unknown else NothingSettled)
      else if transaction == "" then Unknown
      else Settled(transaction)
  }

  // ---------- Steps ----------

  datatype Error = Replayed | CacheFull | RolledBack | Failed | Died

  datatype Task =
    | Claiming(key: Key)
    | Settling(key: Key)
    | RollingBack(key: Key)
    | Committing(key: Key, reference: string)
    | Returned(reference: string)
    | Raised(error: Error)

  datatype Event =
    | Enter(call: CallId, key: Key)
    // Without an answer the call died settling.
    | Leave(call: CallId, key: Key, answer: Option<Answer>)

  /** The claim store, the calls, the settlements so far, and the keys whose claim expired. */
  datatype State = State(store: map<Key, Value>, tasks: map<CallId, Task>, log: seq<Event>, expired: set<Key>)

  datatype Action =
    | Start(call: CallId, key: Key)
    | TryClaim(call: CallId, full: bool)
    | EndSettle(call: CallId, answer: Answer)
    | Rollback(call: CallId)
    | Commit(call: CallId)
    | Die(call: CallId)
    | Expire(key: Key)

  predicate Enabled(s: State, a: Action) {
    match a
    case Start(c, _) => c !in s.tasks
    case TryClaim(c, _) => c in s.tasks && s.tasks[c].Claiming?
    case EndSettle(c, _) => c in s.tasks && s.tasks[c].Settling?
    case Rollback(c) => c in s.tasks && s.tasks[c].RollingBack?
    case Commit(c) => c in s.tasks && s.tasks[c].Committing?
    case Die(c) => c in s.tasks && !s.tasks[c].Returned? && !s.tasks[c].Raised?
    case Expire(k) => k in s.store
  }

  function Apply(s: State, a: Action): State
    requires Enabled(s, a)
  {
    match a
    case Start(c, k) => s.(tasks := s.tasks[c := Claiming(k)])
    case TryClaim(c, full) =>
      var k := s.tasks[c].key;
      if k in s.store then s.(tasks := s.tasks[c := Raised(Replayed)])
      else if full then s.(tasks := s.tasks[c := Raised(CacheFull)])
      else s.(store := s.store[k := PendingClaim], tasks := s.tasks[c := Settling(k)], log := s.log + [Enter(c, k)])
    case EndSettle(c, answer) =>
      var k, outcome := s.tasks[c].key, OutcomeOf(answer);
      s.(log := s.log + [Leave(c, k, Some(answer))],
         tasks := s.tasks[c := match outcome
                               case Settled(r) => Committing(k, r)
                               case NothingSettled => RollingBack(k)
                               case Unknown => Raised(Failed)])
    case Rollback(c) =>
      s.(store := s.store - {s.tasks[c].key}, tasks := s.tasks[c := Raised(RolledBack)])
    case Commit(c) =>
      s.(store := s.store[s.tasks[c].key := Reference(s.tasks[c].reference)],
         tasks := s.tasks[c := Returned(s.tasks[c].reference)])
    case Die(c) =>
      s.(log := if s.tasks[c].Settling? then s.log + [Leave(c, s.tasks[c].key, None)] else s.log,
         tasks := s.tasks[c := Raised(Died)])
    case Expire(k) => s.(store := s.store - {k}, expired := s.expired + {k})
  }

  /** No call has started; claims of earlier processes may be stored. */
  ghost predicate IsRun(run: seq<State>, acts: seq<Action>) {
    && |run| == |acts| + 1
    && run[0].tasks == map[] && run[0].log == [] && run[0].expired == {}
    && forall i :: 0 <= i < |acts| ==> Enabled(run[i], acts[i]) && run[i + 1] == Apply(run[i], acts[i])
  }

  // ---------- The claim protects its key ----------

  /** This call holds the claim of `k`: it is settling, or has yet to undo or record its claim. */
  predicate Holds(s: State, c: CallId, k: Key) {
    c in s.tasks && match s.tasks[c]
                    case Settling(key) => key == k
                    case RollingBack(key) => key == k
                    case _ => false
  }

  /**
   The answer proves that nothing was paid: the hook raised one of the two errors that say so, or
   the facilitator refused, without a transfer left pending.
   */
  predicate ProvesUnpaid(answer: Option<Answer>) {
    answer.Some? &&
    match answer.value
    case HookRaised(rollback) => rollback
    case FacilitatorReplied(success, pending, _) => !success && !pending
    case _ => false
  }

  /** The answer, of whichever kind, gives the reference of a settled payment. */
  predicate Gives(answer: Answer, reference: string) {
    && reference != ""
    && (answer == HookReturned(Some(reference))
        || (answer.FacilitatorReplied? && answer.success && answer.transaction == reference))
  }

  /** How a settlement ends, by the answer alone. */
  lemma OutcomeIs(answer: Answer)
    ensures OutcomeOf(answer).NothingSettled? <==> ProvesUnpaid(Some(answer))
    ensures forall reference :: OutcomeOf(answer) == Settled(reference) <==> Gives(answer, reference)
  {
  }

  /** The call left its settlement of `k` with a proof that nothing was paid. */
  predicate Unpaid(e: Event, c: CallId, k: Key) {
    e.Leave? && e.call == c && e.key == k && ProvesUnpaid(e.answer)
  }

  /** A settlement of `k` ended in a way that may have paid. */
  ghost predicate Spent(log: seq<Event>, k: Key) {
    exists i :: 0 <= i < |log| && log[i].Leave? && log[i].key == k && !ProvesUnpaid(log[i].answer)
  }

  ghost predicate Protected(s: State, k: Key) {
    && (forall c :: Holds(s, c, k) ==> k in s.store)
    && (forall c, d :: Holds(s, c, k) && Holds(s, d, k) ==> c == d)
    && (Spent(s.log, k) ==> k in s.store && forall c :: !Holds(s, c, k))
  }

  lemma SpentAfter(s: State, a: Action, k: Key)
    requires Enabled(s, a)
    ensures Spent(s.log, k) ==> Spent(Apply(s, a).log, k)
    ensures Spent(Apply(s, a).log, k) && !Spent(s.log, k) ==>
      (a.EndSettle? || a.Die?) && s.tasks[a.call] == Settling(k) && !Holds(Apply(s, a), a.call, k)
  {
    var s' := Apply(s, a);
    if i :| 0 <= i < |s.log| && s.log[i].Leave? && s.log[i].key == k && !ProvesUnpaid(s.log[i].answer) {
      assert s'.log[i] == s.log[i];
    }
    if i :| 0 <= i < |s'.log| && s'.log[i].Leave? && s'.log[i].key == k && !ProvesUnpaid(s'.log[i].answer) {
      assert i < |s.log| ==> s'.log[i] == s.log[i];
    }
  }

  /** Only claiming a free key makes a call a holder. */
  lemma HoldsAfter(s: State, a: Action, c: CallId, k: Key)
    requires Enabled(s, a) && Holds(Apply(s, a), c, k) && !Holds(s, c, k)
    ensures a.TryClaim? && a.call == c && k !in s.store && k in Apply(s, a).store
  {
  }

  /** A claim goes only by expiry, or by its own holder's rollback. */
  lemma StoreAfter(s: State, a: Action, k: Key)
    requires Enabled(s, a) && k in s.store && k !in Apply(s, a).store
    ensures a == Expire(k) || (a.Rollback? && Holds(s, a.call, k) && !Holds(Apply(s, a), a.call, k))
  {
  }

  lemma ExpireShows(s: State, a: Action, k: Key)
    requires Enabled(s, a) && k !in Apply(s, a).expired
    ensures a != Expire(k) && k !in s.expired
  {
  }

  lemma StepKeepsProtected(s: State, a: Action, k: Key)
    requires Enabled(s, a) && Protected(s, k) && k !in Apply(s, a).expired
    ensures Protected(Apply(s, a), k)
  {
    hide Spent, Apply;
    var s' := Apply(s, a);
    SpentAfter(s, a, k);
    ExpireShows(s, a, k);
    var spending := (a.EndSettle? || a.Die?) && s.tasks[a.call] == Settling(k);
    assert spending ==> Holds(s, a.call, k);
    if k in s.store && k !in s'.store {
      StoreAfter(s, a, k);
    }
    forall c | Holds(s', c, k)
      ensures k in s'.store && !Spent(s'.log, k)
      ensures forall d :: Holds(s', d, k) ==> c == d
    {
      forall d | Holds(s', d, k) && !Holds(s, d, k)
        ensures a.TryClaim? && a.call == d && k !in s.store && k in s'.store
      {
        HoldsAfter(s, a, d, k);
      }
      if Spent(s'.log, k) {
        assert false;
      }
    }
  }

  lemma {:induction false} ExpiredGrows(run: seq<State>, acts: seq<Action>, i: nat, j: nat)
    requires IsRun(run, acts) && i <= j < |run|
    ensures run[i].expired <= run[j].expired
  {
    if i < j {
      ExpiredGrows(run, acts, i, j - 1);
    }
  }

  lemma {:induction false} RunKeepsProtected(run: seq<State>, acts: seq<Action>, i: nat, k: Key)
    requires IsRun(run, acts) && i < |run| && k !in run[i].expired
    ensures Protected(run[i], k)
  {
    if i > 0 {
      ExpiredGrows(run, acts, i - 1, i);
      RunKeepsProtected(run, acts, i - 1, k);
      StepKeepsProtected(run[i - 1], acts[i - 1], k);
    }
  }

  // ---------- The settlements of one key ----------

  /** Settlements of `k` never overlap, and none starts after one that may have paid. */
  ghost predicate SettlesOnce(log: seq<Event>, k: Key) {
    forall i, j :: 0 <= i < j < |log| && log[i].Enter? && log[i].key == k && log[j].Enter? && log[j].key == k
      ==> exists n :: i < n < j && Unpaid(log[n], log[i].call, k)
  }

  /** Every settlement of `k` so far has rolled back, or is the one in progress or spent. */
  ghost predicate LastAccounted(s: State, k: Key) {
    forall i :: 0 <= i < |s.log| && s.log[i].Enter? && s.log[i].key == k ==>
      || Holds(s, s.log[i].call, k)
      || Spent(s.log, k)
      || exists n :: i < n < |s.log| && Unpaid(s.log[n], s.log[i].call, k)
  }

  lemma LogAfter(s: State, a: Action)
    requires Enabled(s, a)
    ensures s.log <= Apply(s, a).log && |Apply(s, a).log| <= |s.log| + 1
    ensures |Apply(s, a).log| == |s.log| + 1 && Apply(s, a).log[|s.log|].Enter? ==>
      var k := Apply(s, a).log[|s.log|].key;
      k !in s.store && Apply(s, a).log[|s.log|] == Enter(a.call, k) && Holds(Apply(s, a), a.call, k)
  {
  }

  /** A holder stops holding only by rolling back or by spending its key. */
  lemma HolderLeaves(s: State, a: Action, c: CallId, k: Key)
    requires Enabled(s, a) && Holds(s, c, k)
    ensures Holds(Apply(s, a), c, k) || Spent(Apply(s, a).log, k) || s.tasks[c] == RollingBack(k)
  {
    var s' := Apply(s, a);
    if !Holds(s', c, k) && s.tasks[c] == Settling(k) {
      var e := s'.log[|s.log|];
      assert e.Leave? && e.key == k && !ProvesUnpaid(e.answer);
    }
  }

  /** A call that is rolling back has reported that nothing settled. */
  ghost predicate RolledInLog(s: State, k: Key) {
    forall i :: 0 <= i < |s.log| && s.log[i].Enter? && s.log[i].key == k
                && s.log[i].call in s.tasks && s.tasks[s.log[i].call] == RollingBack(k)
      ==> exists n :: i < n < |s.log| && Unpaid(s.log[n], s.log[i].call, k)
  }

  lemma StepKeepsRolled(s: State, a: Action, k: Key)
    requires Enabled(s, a) && RolledInLog(s, k)
    ensures RolledInLog(Apply(s, a), k)
  {
    var s' := Apply(s, a);
    LogAfter(s, a);
    forall i | 0 <= i < |s'.log| && s'.log[i].Enter? && s'.log[i].key == k
               && s'.log[i].call in s'.tasks && s'.tasks[s'.log[i].call] == RollingBack(k)
      ensures exists n :: i < n < |s'.log| && Unpaid(s'.log[n], s'.log[i].call, k)
    {
      var c := s'.log[i].call;
      assert i < |s.log| && s.log[i] == s'.log[i];
      if c in s.tasks && s.tasks[c] == RollingBack(k) {
        var n :| i < n < |s.log| && Unpaid(s.log[n], c, k);
        assert s'.log[n] == s.log[n];
      } else {
        assert Unpaid(s'.log[|s.log|], c, k);
      }
    }
  }

  lemma StepKeepsAccounted(s: State, a: Action, k: Key)
    requires Enabled(s, a) && LastAccounted(s, k) && RolledInLog(s, k)
    ensures LastAccounted(Apply(s, a), k)
  {
    hide Spent, Apply;
    var s' := Apply(s, a);
    LogAfter(s, a);
    SpentAfter(s, a, k);
    forall i | 0 <= i < |s'.log| && s'.log[i].Enter? && s'.log[i].key == k
      ensures Holds(s', s'.log[i].call, k) || Spent(s'.log, k)
              || exists n :: i < n < |s'.log| && Unpaid(s'.log[n], s'.log[i].call, k)
    {
      if i < |s.log| {
        var c := s.log[i].call;
        assert s'.log[i] == s.log[i];
        if exists n :: i < n < |s.log| && Unpaid(s.log[n], c, k) {
          var n :| i < n < |s.log| && Unpaid(s.log[n], c, k);
          assert s'.log[n] == s.log[n];
        } else if Holds(s, c, k) {
          HolderLeaves(s, a, c, k);
        }
      }
    }
  }

  lemma StepKeepsOnce(s: State, a: Action, k: Key)
    requires Enabled(s, a) && Protected(s, k) && LastAccounted(s, k) && SettlesOnce(s.log, k)
    ensures SettlesOnce(Apply(s, a).log, k)
  {
    hide Spent, Apply, Holds;
    var s' := Apply(s, a);
    LogAfter(s, a);
    forall i, j | 0 <= i < j < |s'.log| && s'.log[i].Enter? && s'.log[i].key == k
                  && s'.log[j].Enter? && s'.log[j].key == k
      ensures exists n :: i < n < j && Unpaid(s'.log[n], s'.log[i].call, k)
    {
      assert s.log[i] == s'.log[i];
      var c := s.log[i].call;
      if j < |s.log| {
        assert s.log[j] == s'.log[j];
        var n :| i < n < j && Unpaid(s.log[n], c, k);
        assert s'.log[n] == s.log[n];
      } else {
        var n :| i < n < |s.log| && Unpaid(s.log[n], c, k);
        assert s'.log[n] == s.log[n];
      }
    }
  }

  lemma {:induction false} RunKeepsOnce(run: seq<State>, acts: seq<Action>, i: nat, k: Key)
    requires IsRun(run, acts) && i < |run| && k !in run[i].expired
    ensures SettlesOnce(run[i].log, k) && LastAccounted(run[i], k) && RolledInLog(run[i], k)
  {
    hide Apply, Enabled, SettlesOnce, LastAccounted, RolledInLog;
    if i == 0 {
      NoSettlements(run[0], k);
    } else {
      ExpiredGrows(run, acts, i - 1, i);
      RunKeepsOnce(run, acts, i - 1, k);
      RunKeepsProtected(run, acts, i - 1, k);
      StepKeepsOnce(run[i - 1], acts[i - 1], k);
      StepKeepsAccounted(run[i - 1], acts[i - 1], k);
      StepKeepsRolled(run[i - 1], acts[i - 1], k);
    }
  }

  lemma NoSettlements(s: State, k: Key)
    requires s.log == []
    ensures SettlesOnce(s.log, k) && LastAccounted(s, k) && RolledInLog(s, k)
  {
  }

  /**
   Single settlement: over any run of concurrent broadcasts, while the claim of a key has not
   expired, its settlements never overlap, and each one after the first was preceded by a report
   that the one before settled nothing. So once a settlement returned a reference, or ended in
   any error but the two rollback types, that key is never settled again.
   */
  lemma SingleSettlement(run: seq<State>, acts: seq<Action>, i: nat, k: Key, m: nat, j: nat)
    requires IsRun(run, acts) && i < |run| && k !in run[i].expired
    requires m < j < |run[i].log|
    requires run[i].log[j].Enter? && run[i].log[j].key == k
    ensures SettlesOnce(run[i].log, k)
    ensures run[i].log[m].Leave? && run[i].log[m].key == k ==> ProvesUnpaid(run[i].log[m].answer)
  {
    RunKeepsOnce(run, acts, i, k);
    if run[i].log[m].Leave? && run[i].log[m].key == k && !ProvesUnpaid(run[i].log[m].answer) {
      NeverEnteredOnceSpent(run, acts, i, k, m, j);
    }
  }

  /** No settlement of `k` starts at a log position after one that may have paid. */
  lemma {:induction false} NeverEnteredOnceSpent(
    run: seq<State>, acts: seq<Action>, i: nat, k: Key, m: nat, j: nat)
    requires IsRun(run, acts) && i < |run| && k !in run[i].expired
    requires m < j < |run[i].log| && run[i].log[m].Leave? && run[i].log[m].key == k
    requires !ProvesUnpaid(run[i].log[m].answer)
    ensures !(run[i].log[j].Enter? && run[i].log[j].key == k)
  {
    if i > 0 {
      var s, a := run[i - 1], acts[i - 1];
      hide Apply, Enabled;
      LogAfter(s, a);
      ExpiredGrows(run, acts, i - 1, i);
      if j < |s.log| {
        NeverEnteredOnceSpent(run, acts, i - 1, k, m, j);
      } else {
        RunKeepsProtected(run, acts, i - 1, k);
        assert s.log[m] == run[i].log[m];
      }
    }
  }

  // ---------- What the payer can do next ----------

  /** The settling call ends, and then does what its outcome asks for. */
  function Conclude(s: State, c: CallId, answer: Answer): State
    requires c in s.tasks && s.tasks[c].Settling?
  {
    var ended := Apply(s, EndSettle(c, answer));
    match OutcomeOf(answer)
    case Settled(_) => Apply(ended, Commit(c))
    case NothingSettled => Apply(ended, Rollback(c))
    case Unknown => ended
  }

  /**
   An undisturbed settlement frees its key exactly if the answer proves that nothing was paid: the
   same authorization can then be claimed again, and otherwise a further call is a replay. The call
   returns a reference, and stores it, exactly if the answer gives it.
   */
  lemma KeyIsFreedExactly(s: State, c: CallId, d: CallId, k: Key, answer: Answer)
    requires c in s.tasks && s.tasks[c] == Settling(k) && k in s.store
    requires d in s.tasks && s.tasks[d] == Claiming(k)
    ensures var s' := Conclude(s, c, answer);
            var unpaid := answer == HookRaised(true) || (answer.FacilitatorReplied? && !answer.success && !answer.pending);
            && c in s'.tasks && d in s'.tasks && s'.tasks[d] == Claiming(k)
            && Apply(s', TryClaim(d, false)).tasks[d] == (if unpaid then Settling(k) else Raised(Replayed))
            && (unpaid <==> k !in s'.store) && (unpaid ==> s'.tasks[c] == Raised(RolledBack) && s'.store == s.store - {k})
            && (forall text ::
                  s'.tasks[c] == Returned(text)
                  <==> text != "" && (answer == HookReturned(Some(text))
                                      || (answer.FacilitatorReplied? && answer.success && answer.transaction == text)))
            && (s'.tasks[c].Returned? ==> s'.store == s.store[k := Reference(s'.tasks[c].reference)])
            && (!unpaid && !s'.tasks[c].Returned? ==> s'.tasks[c] == Raised(Failed) && s'.store == s.store)
  {
    var ended := Apply(s, EndSettle(c, answer));
    assert ended.store == s.store;
    OutcomeIs(answer);
    hide OutcomeOf;
  }

  /**
   A claim is a replay exactly if the key is stored, and refused for room exactly if the key is free
   and the cache full; neither leaves a trace. Otherwise the call settles, and once the claim
   expires the key is free to be claimed again.
   */
  lemma ClaimIsRefusedExactly(s: State, c: CallId, d: CallId, k: Key, full: bool)
    requires c != d && c in s.tasks && s.tasks[c] == Claiming(k) && d in s.tasks && s.tasks[d] == Claiming(k)
    ensures var s' := Apply(s, TryClaim(c, full));
            && (s'.tasks[c] == Raised(Replayed) <==> k in s.store)
            && (s'.tasks[c] == Raised(CacheFull) <==> k !in s.store && full)
            && (s'.tasks[c].Raised? ==> s'.store == s.store && s'.log == s.log)
            && (!s'.tasks[c].Raised? ==>
                  && s'.tasks[c] == Settling(k) && s'.store == s.store[k := PendingClaim] && s'.log == s.log + [Enter(c, k)]
                  && Apply(s', TryClaim(d, full)).tasks[d] == Raised(Replayed)
                  && Apply(Apply(s', Expire(k)), TryClaim(d, false)).tasks[d] == Settling(k))
  {
    var s' := Apply(s, TryClaim(c, full));
    assert s'.tasks[d] == Claiming(k);
  }
}
