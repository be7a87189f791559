/**
 Payer admission: a payer has one pending sponsored transaction on a chain at a time.

 Calls of claim_payer and release interleave arbitrarily over the shared store, one store call
 or settlement query per step. Clock readings and settlement answers are inputs of the steps.
 Payer claims are written by put_if_absent, which never expires.
 */
module PayerAdmission {
  import opened Wrappers

  type CallId = nat

  const MAX_TRIES: nat := 200

  /** What the store key hashes, injectively. */
  datatype Key = Key(chainId: int, payer: string)

  /** What a stored text decodes to: a pending transaction, or something unreadable. */
  datatype Doc =
    | Unreadable
    | Pending(hash: string, receiptHash: Option<string>, expiresAt: Option<real>)
  {
    function Receipt(): string {
      if Pending? then receiptHash.GetOr(hash) else ""
    }
  }

  /** A stored text: compare_and_set compares texts, not what they decode to. */
  datatype Text = Text(spelling: nat, doc: Doc)

  datatype Claim = Claim(key: Key, value: Text, created: bool)

  /** The arguments of one claim_payer call, with the value it would store. */
  datatype Request = Request(key: Key, hash: string, receiptHash: Option<string>, expiresAt: real,
                             reconciling: bool, waitUntil: real, asks: bool)
  {
    function Value(): Text {
      Text(0, Pending(hash, Some(receiptHash.GetOr(hash)), Some(expiresAt)))
    }
  }

  datatype Error = Malformed | OtherPending | NotSettled | Contention | Abandoned

  datatype Task =
    // claim_payer: before get, before put_if_absent, before is_settled, evicting a settled
    // record (get, then compare_and_set), returning
    | Looking(req: Request, tries: nat, checked: Option<Text>)
    | Inserting(req: Request, tries: nat, checked: Option<Text>)
    | Asking(req: Request, tries: nat, checked: Option<Text>, raw: Text)
    | Evicting(req: Request, tries: nat, checked: Option<Text>, raw: Text)
    | Deleting(req: Request, tries: nat, checked: Option<Text>, raw: Text)
    | Returning(claim: Claim)
    // release: before get, before compare_and_set
    | Checking(claim: Claim, issue: CallId)
    | Dropping(claim: Claim, issue: CallId)
    | Finished
    | Raised(error: Error)

  /** What a claiming call was asked, and when. */
  datatype Ask = Ask(req: Request, now: real)

  /**
   The store and the tasks, with what each claiming call was asked, the claims returned so far, the
   release call each was last given to, those whose release has ended, and the receipt hashes
   reported settled.
   */
  datatype State = State(
    store: map<Key, Text>,
    tasks: map<CallId, Task>,
    asked: map<CallId, Ask>,
    issued: map<CallId, Claim>,
    given: map<CallId, CallId>,
    closed: set<CallId>,
    settled: set<string>)

  /** What one step reads from outside: clock readings and the settlement answer. */
  datatype Reading = Reading(now: real, later: real, last: real, answer: bool)

  function NextTry(req: Request, tries: nat, checked: Option<Text>): (next: Task)
    ensures next.Looking? || next.Raised?
  {
    if tries + 1 < MAX_TRIES then Looking(req, tries + 1, checked) else Raised(Contention)
  }

  /** Wait for a record that is not settled, or give up on it. */
  function Await(req: Request, tries: nat, checked: Option<Text>, raw: Text, r: Reading): (next: Task)
    requires raw.doc.Pending? && raw.doc.expiresAt.Some?
    ensures next.Looking? || next.Raised?
  {
    if raw.doc.expiresAt.value > r.later && r.last < req.waitUntil then NextTry(req, tries, checked)
    else if !req.reconciling && raw.doc.hash != req.hash then Raised(OtherPending)
    else Raised(NotSettled)
  }

  function AfterLook(t: Task, found: Option<Text>, r: Reading): (next: Task)
    requires t.Looking?
    ensures next.Returning? ==> !next.claim.created && found == Some(next.claim.value)
  {
    if found.None? then Inserting(t.req, t.tries, t.checked)
    else
      var raw := found.value;
      if raw.doc.Unreadable? then Raised(Malformed)
      else if t.req.reconciling && raw.doc.hash == t.req.hash then Returning(Claim(t.req.key, raw, false))
      else if raw.doc.expiresAt.None? then Raised(Malformed)
      else if t.req.asks && (t.checked != Some(raw) || r.now >= t.req.waitUntil)
      then Asking(t.req, t.tries, t.checked, raw)
      else Await(t.req, t.tries, t.checked, raw, r)
  }

  /** Where one atomic step leaves a running task. */
  function NextTask(store: map<Key, Text>, t: Task, r: Reading): Task {
    match t
    case Looking(req, _, _) => AfterLook(t, Lookup(store, req.key), r)
    case Inserting(req, tries, checked) =>
      if req.key !in store then Returning(Claim(req.key, req.Value(), true)) else NextTry(req, tries, checked)
    case Asking(req, tries, checked, raw) =>
      if r.answer then Evicting(req, tries, checked, raw)
      else if raw.doc.Pending? && raw.doc.expiresAt.Some? then Await(req, tries, Some(raw), raw, r)
      else Raised(Malformed)
    case Evicting(req, tries, checked, raw) =>
      if Lookup(store, req.key) == Some(raw) then Deleting(req, tries, checked, raw) else NextTry(req, tries, checked)
    case Deleting(req, tries, checked, _) => NextTry(req, tries, checked)
    case Returning(_) => Finished
    case Checking(claim, issue) =>
      if Lookup(store, claim.key) == Some(claim.value) then Dropping(claim, issue) else Finished
    case Dropping(_, _) => Finished
    case Finished => t
    case Raised(_) => t
  }

  /** Deletions compare the text once more. */
  function Deleted(store: map<Key, Text>, k: Key, raw: Text): map<Key, Text> {
    if Lookup(store, k) == Some(raw) then store - {k} else store
  }

  /** What the step leaves in the store. */
  function NextStore(store: map<Key, Text>, t: Task): map<Key, Text> {
    match t
    case Inserting(req, _, _) => if req.key !in store then store[req.key := req.Value()] else store
    case Deleting(req, _, _, raw) => Deleted(store, req.key, raw)
    case Dropping(claim, _) => Deleted(store, claim.key, claim.value)
    case _ => store
  }

  /** The step ends a release. */
  predicate EndsRelease(t: Task, next: Task) {
    t.Dropping? || (t.Checking? && !next.Dropping?)
  }

  /** One atomic step of a running task. */
  function Advance(s: State, c: CallId, r: Reading): State
    requires c in s.tasks
  {
    var t := s.tasks[c];
    var next := NextTask(s.store, t, r);
    s.(store := NextStore(s.store, t),
       tasks := s.tasks[c := next],
       issued := if t.Returning? then s.issued[c := t.claim] else s.issued,
       closed := if EndsRelease(t, next) then s.closed + {t.issue} else s.closed,
       settled := if t.Asking? && r.answer then s.settled + {t.raw.doc.Receipt()} else s.settled)
  }

  datatype Action =
    | DoClaim(call: CallId, req: Request, now: real)
    | DoRelease(call: CallId, issue: CallId)
    | DoAdvance(call: CallId, reading: Reading)
    | DoAbandon(call: CallId)

  /** Any call may start, run or die at an await; a release needs a claim that was returned. */
  predicate Possible(s: State, a: Action) {
    match a
    case DoClaim(c, _, _) => c !in s.tasks
    case DoRelease(c, issue) => c !in s.tasks && issue in s.issued
    case DoAdvance(c, _) => c in s.tasks
    case DoAbandon(c) => c in s.tasks && !s.tasks[c].Finished? && !s.tasks[c].Raised?
  }

  /**
   What callers owe: give each created claim to release at most once, and release a claim they
   did not create only once its transaction was reported settled.
   */
  predicate Owed(s: State, a: Action) {
    a.DoRelease? && a.issue in s.issued ==>
      if s.issued[a.issue].created then a.issue !in s.given
      else s.issued[a.issue].value.doc.Receipt() in s.settled
  }

  function Apply(s: State, a: Action): State
    requires Possible(s, a)
  {
    match a
    case DoClaim(c, req, now) =>
      // Past its expiry a transaction is never put under a payer key.
      s.(tasks := s.tasks[c := if req.reconciling && req.expiresAt <= now
                               then Returning(Claim(req.key, req.Value(), false))
                               else Looking(req, 0, None)],
         asked := s.asked[c := Ask(req, now)])
    case DoRelease(c, issue) =>
      s.(tasks := s.tasks[c := Checking(s.issued[issue], issue)], given := s.given[issue := c])
    case DoAdvance(c, reading) => Advance(s, c, reading)
    case DoAbandon(c) => s.(tasks := s.tasks[c := Raised(Abandoned)])
  }

  /** No call has started; the store may already hold anything. */
  ghost predicate Init(s: State) {
    s.tasks == map[] && s.asked == map[] && s.issued == map[] && s.given == map[] && s.closed == {} && s.settled == {}
  }

  ghost predicate IsRun(run: seq<State>, acts: seq<Action>) {
    && |run| == |acts| + 1 && Init(run[0])
    && forall i :: 0 <= i < |acts| ==>
         Possible(run[i], acts[i]) && Owed(run[i], acts[i]) && run[i + 1] == Apply(run[i], acts[i])
  }

  // ---------- The invariant ----------

  /** The payer key still stores exactly this claim's value, or its transaction was settled. */
  ghost predicate Backed(s: State, claim: Claim) {
    Lookup(s.store, claim.key) == Some(claim.value) || claim.value.doc.Receipt() in s.settled
  }

  /** A created claim that no release has finished with; `owner` is the call that created it. */
  ghost predicate Live(s: State, owner: CallId, claim: Claim) {
    claim.created && (
      || (owner in s.tasks && s.tasks[owner] == Returning(claim))
      || (owner in s.issued && s.issued[owner] == claim && owner !in s.closed))
  }

  /** The one release of a created claim, or a release of a claim that was settled. */
  ghost predicate ReleaseOk(s: State, c: CallId, claim: Claim, issue: CallId) {
    && issue in s.issued && s.issued[issue] == claim && issue in s.given
    && (claim.created ==> s.given[issue] == c && issue !in s.closed)
    && (!claim.created ==> claim.value.doc.Receipt() in s.settled)
  }

  ghost predicate TaskOk(s: State, c: CallId, t: Task) {
    match t
    case Looking(_, _, _) => c !in s.issued
    case Inserting(_, _, _) => c !in s.issued
    case Asking(_, _, _, _) => c !in s.issued
    case Evicting(_, _, _, raw) => c !in s.issued && raw.doc.Receipt() in s.settled
    case Deleting(_, _, _, raw) => c !in s.issued && raw.doc.Receipt() in s.settled
    case Returning(_) => c !in s.issued
    case Checking(claim, issue) => ReleaseOk(s, c, claim, issue)
    case Dropping(claim, issue) => ReleaseOk(s, c, claim, issue)
    case Finished => true
    case Raised(_) => true
  }

  ghost predicate WellFormed(s: State) {
    && s.given.Keys <= s.issued.Keys <= s.tasks.Keys
    && s.closed <= s.given.Keys
    && (forall c :: c in s.tasks ==> TaskOk(s, c, s.tasks[c]))
  }

  ghost predicate AllBacked(s: State) {
    forall owner, claim :: Live(s, owner, claim) ==> Backed(s, claim)
  }

  /** Live claims share key and value only once that transaction was settled. */
  ghost predicate SharedOnlySettled(s: State) {
    forall a, b, claim :: a != b && Live(s, a, claim) && Live(s, b, claim)
                          ==> claim.value.doc.Receipt() in s.settled
  }

  /** What a step leaves of the histories, and that only its own task changes. */
  lemma HistoriesAfter(s: State, a: Action)
    requires WellFormed(s) && Possible(s, a)
    ensures
      var s' := Apply(s, a);
      && s'.tasks == s.tasks[a.call := s'.tasks[a.call]]
      && s.settled <= s'.settled
      && s'.issued == (if a.DoAdvance? && s.tasks[a.call].Returning?
                       then s.issued[a.call := s.tasks[a.call].claim] else s.issued)
      && s'.given == (if a.DoRelease? then s.given[a.issue := a.call] else s.given)
      && s.closed <= s'.closed
  {
    hide NextTask, NextStore;
  }

  lemma OwnTaskStaysOk(s: State, a: Action)
    requires WellFormed(s) && Possible(s, a) && Owed(s, a)
    ensures TaskOk(Apply(s, a), a.call, Apply(s, a).tasks[a.call])
  {
    if a.DoAdvance? {
      assert TaskOk(s, a.call, s.tasks[a.call]);
    }
  }

  /** Only a created claim's own release closes it. */
  lemma ClosedAfter(s: State, a: Action, x: CallId)
    requires WellFormed(s) && Possible(s, a) && x in Apply(s, a).closed && x !in s.closed
    ensures x in s.issued && x in s.given
    ensures s.issued[x].created ==> s.given[x] == a.call
  {
  }

  lemma StepKeepsWellFormed(s: State, a: Action)
    requires WellFormed(s) && Possible(s, a) && Owed(s, a)
    ensures WellFormed(Apply(s, a))
  {
    hide Apply;
    var s' := Apply(s, a);
    HistoriesAfter(s, a);
    forall x | x in s'.closed
      ensures x in s'.given.Keys
    {
      if x !in s.closed {
        ClosedAfter(s, a, x);
      }
    }
    forall d | d in s'.tasks
      ensures TaskOk(s', d, s'.tasks[d])
    {
      if d == a.call {
        OwnTaskStaysOk(s, a);
      } else {
        var t := s.tasks[d];
        assert TaskOk(s, d, t);
        if (t.Checking? || t.Dropping?) && t.issue in s'.closed && t.issue !in s.closed {
          ClosedAfter(s, a, t.issue);
        }
      }
    }
  }

  lemma LookReturnsUncreated(s: State, c: CallId, r: Reading)
    requires c in s.tasks && s.tasks[c].Looking?
    ensures var next := Advance(s, c, r).tasks[c]; next.Returning? ==> !next.claim.created
  {
    hide AfterLook;
  }

  lemma InsertReturnsStored(s: State, c: CallId, r: Reading)
    requires c in s.tasks && s.tasks[c].Inserting?
    ensures var next := Advance(s, c, r).tasks[c];
            next.Returning? ==> next.claim.key !in s.store
                                && Lookup(Advance(s, c, r).store, next.claim.key) == Some(next.claim.value)
  {
    hide NextTry;
  }

  lemma OtherStepsReturnNothing(s: State, c: CallId, r: Reading)
    requires c in s.tasks && !s.tasks[c].Looking? && !s.tasks[c].Inserting?
    ensures !Advance(s, c, r).tasks[c].Returning?
  {
    hide NextTry, Await, Lookup, NextStore;
  }

  lemma CreatedByInserting(s: State, a: Action, claim: Claim)
    requires Possible(s, a) && Apply(s, a).tasks[a.call] == Returning(claim) && claim.created
    requires a.call in s.tasks ==> s.tasks[a.call] != Returning(claim)
    ensures a.DoAdvance? && claim.key !in s.store
    ensures Lookup(Apply(s, a).store, claim.key) == Some(claim.value)
  {
    if a.DoAdvance? {
      if s.tasks[a.call].Looking? {
        LookReturnsUncreated(s, a.call, a.reading);
      } else if s.tasks[a.call].Inserting? {
        InsertReturnsStored(s, a.call, a.reading);
      } else {
        OtherStepsReturnNothing(s, a.call, a.reading);
      }
      hide Advance;
    }
  }

  /** A claim is live after a step only if it was before, or the step has just stored it. */
  lemma LiveAfter(s: State, a: Action, owner: CallId, claim: Claim)
    requires WellFormed(s) && Possible(s, a) && Live(Apply(s, a), owner, claim)
    ensures Live(s, owner, claim)
            || (a.DoAdvance? && a.call == owner && claim.key !in s.store
                && Lookup(Apply(s, a).store, claim.key) == Some(claim.value))
  {
    hide Apply;
    HistoriesAfter(s, a);
    if !Live(s, owner, claim) && owner == a.call && Apply(s, a).tasks[owner] == Returning(claim) {
      CreatedByInserting(s, a, claim);
    }
  }

  lemma StepKeepsShared(s: State, a: Action)
    requires WellFormed(s) && AllBacked(s) && SharedOnlySettled(s) && Possible(s, a) && Owed(s, a)
    ensures SharedOnlySettled(Apply(s, a))
  {
    var s' := Apply(s, a);
    assert s.settled <= s'.settled;
    forall x, y, claim | x != y && Live(s', x, claim) && Live(s', y, claim)
      ensures claim.value.doc.Receipt() in s'.settled
    {
      LiveAfter(s, a, x, claim);
      LiveAfter(s, a, y, claim);
      assert Live(s, x, claim) ==> Backed(s, claim);
      assert Live(s, y, claim) ==> Backed(s, claim);
    }
  }

  lemma StepKeepsBacked(s: State, a: Action)
    requires WellFormed(s) && AllBacked(s) && SharedOnlySettled(s) && Possible(s, a) && Owed(s, a)
    ensures AllBacked(Apply(s, a))
  {
    var s' := Apply(s, a);
    assert s.settled <= s'.settled;
    forall owner, claim | Live(s', owner, claim)
      ensures Backed(s', claim)
    {
      LiveAfter(s, a, owner, claim);
      if Live(s, owner, claim) && Lookup(s.store, claim.key) != Lookup(s'.store, claim.key) {
        assert a.DoAdvance? && TaskOk(s, a.call, s.tasks[a.call]);
        var t := s.tasks[a.call];
        if t.Dropping? && t.claim.created && t.claim == claim {
          assert Live(s, t.issue, claim);
        }
      }
    }
  }

  lemma {:induction false} RunKeepsBacked(run: seq<State>, acts: seq<Action>, i: nat)
    requires IsRun(run, acts) && i < |run|
    ensures WellFormed(run[i]) && AllBacked(run[i]) && SharedOnlySettled(run[i])
  {
    if i > 0 {
      RunKeepsBacked(run, acts, i - 1);
      StepKeepsWellFormed(run[i - 1], acts[i - 1]);
      StepKeepsShared(run[i - 1], acts[i - 1]);
      StepKeepsBacked(run[i - 1], acts[i - 1]);
    }
  }

  /**
   Payer admission: in every reachable state, each created claim not yet given to release is
   still stored under its payer key, or its transaction was reported settled.
   */
  lemma CreatedClaimsAreBacked(run: seq<State>, acts: seq<Action>, i: nat, a: CallId)
    requires IsRun(run, acts) && i < |run|
    requires a in run[i].issued && run[i].issued[a].created && a !in run[i].given
    ensures Backed(run[i], run[i].issued[a])
  {
    RunKeepsBacked(run, acts, i);
    assert Live(run[i], a, run[i].issued[a]);
  }

  /** Two created claims of one payer outstanding at once: one of them was reported settled. */
  lemma OnePendingPerPayer(run: seq<State>, acts: seq<Action>, i: nat, a: CallId, b: CallId)
    requires IsRun(run, acts) && i < |run| && a != b
    requires a in run[i].issued && run[i].issued[a].created && a !in run[i].given
    requires b in run[i].issued && run[i].issued[b].created && b !in run[i].given
    requires run[i].issued[a].key == run[i].issued[b].key
    ensures run[i].issued[a].value.doc.Receipt() in run[i].settled
            || run[i].issued[b].value.doc.Receipt() in run[i].settled
  {
    RunKeepsBacked(run, acts, i);
    assert Live(run[i], a, run[i].issued[a]);
    assert Live(run[i], b, run[i].issued[b]);
  }

  // ---------- What a claiming call is told ----------

  /** The call has read this text under the key. */
  ghost predicate Saw(run: seq<State>, acts: seq<Action>, i: nat, c: CallId, k: Key, raw: Text)
    requires |run| == |acts| + 1 && i < |run|
  {
    exists j :: 0 <= j < i && acts[j].DoAdvance? && acts[j].call == c && Lookup(run[j].store, k) == Some(raw)
  }

  /** At a step of the call the record had expired, or the call had no time left to wait for it. */
  ghost predicate WaitedOut(acts: seq<Action>, i: nat, c: CallId, expiresAt: real, waitUntil: real)
    requires i <= |acts|
  {
    exists j :: && 0 <= j < i && acts[j].DoAdvance? && acts[j].call == c
                && (expiresAt <= acts[j].reading.later || acts[j].reading.last >= waitUntil)
  }

  /** The call has asked about this text, and was told that it is not settled. */
  ghost predicate Denied(run: seq<State>, acts: seq<Action>, i: nat, c: CallId, raw: Text)
    requires |run| == |acts| + 1 && i < |run|
  {
    exists j :: && 0 <= j < i && acts[j].DoAdvance? && acts[j].call == c && !acts[j].reading.answer
                && c in run[j].tasks && run[j].tasks[c].Asking? && run[j].tasks[c].raw == raw
  }

  ghost predicate Checked(run: seq<State>, acts: seq<Action>, i: nat, c: CallId, checked: Option<Text>)
    requires |run| == |acts| + 1 && i < |run|
  {
    checked.Some? ==> Denied(run, acts, i, c, checked.value)
  }

  /** A readable record with an expiry that the call has seen and does not return. */
  ghost predicate Prior(run: seq<State>, acts: seq<Action>, i: nat, c: CallId, req: Request, raw: Text)
    requires |run| == |acts| + 1 && i < |run|
  {
    && Saw(run, acts, i, c, req.key, raw) && raw.doc.Pending? && raw.doc.expiresAt.Some?
    && !(req.reconciling && raw.doc.hash == req.hash)
  }

  /**
   A claim answers its request: it is for its key and its transaction; created, it stores what was
   asked; not created, the call reconciles, and the text was either read from the store, or is what
   was asked, already expired then.
   */
  ghost predicate Answers(run: seq<State>, acts: seq<Action>, i: nat, c: CallId, ask: Ask, claim: Claim)
    requires |run| == |acts| + 1 && i < |run|
  {
    var Ask(req, now) := ask;
    var own := Text(0, Pending(req.hash, Some(if req.receiptHash.Some? then req.receiptHash.value else req.hash),
                               Some(req.expiresAt)));
    && claim.key == req.key && claim.value.doc.Pending? && claim.value.doc.hash == req.hash
    && (claim.created ==> claim.value == own)
    && (!claim.created ==>
          req.reconciling && ((req.expiresAt <= now && claim.value == own) || Saw(run, acts, i, c, req.key, claim.value)))
  }

  /** What a refusal says is true: of a record that was there, and of the request. */
  ghost predicate Justified(run: seq<State>, acts: seq<Action>, i: nat, c: CallId, req: Request, e: Error)
    requires |run| == |acts| + 1 && i < |run|
  {
    match e
    case Malformed =>
      exists raw :: Saw(run, acts, i, c, req.key, raw) && (raw.doc.Unreadable? || raw.doc.expiresAt.None?)
    case OtherPending =>
      exists raw :: && Prior(run, acts, i, c, req, raw) && !req.reconciling && raw.doc.hash != req.hash
                    && WaitedOut(acts, i, c, raw.doc.expiresAt.value, req.waitUntil)
                    && (req.asks ==> Denied(run, acts, i, c, raw))
    case NotSettled =>
      exists raw :: && Prior(run, acts, i, c, req, raw) && (req.reconciling <==> raw.doc.hash != req.hash)
                    && WaitedOut(acts, i, c, raw.doc.expiresAt.value, req.waitUntil)
                    && (req.asks ==> Denied(run, acts, i, c, raw))
    case _ => true
  }

  /** What a claiming call has been told so far, and what it goes by. */
  ghost predicate Told(run: seq<State>, acts: seq<Action>, i: nat, c: CallId)
    requires |run| == |acts| + 1 && i < |run|
  {
    && (c in run[i].issued ==> c in run[i].asked && Answers(run, acts, i, c, run[i].asked[c], run[i].issued[c]))
    && (c in run[i].tasks ==> TaskTold(run, acts, i, c, run[i].tasks[c]))
  }

  ghost predicate TaskTold(run: seq<State>, acts: seq<Action>, i: nat, c: CallId, t: Task)
    requires |run| == |acts| + 1 && i < |run|
  {
    var asked := run[i].asked;
    match t
    case Looking(req, _, checked) => c in asked && asked[c].req == req && Checked(run, acts, i, c, checked)
    case Inserting(req, _, checked) => c in asked && asked[c].req == req && Checked(run, acts, i, c, checked)
    case Asking(req, _, checked, raw) =>
      && c in asked && asked[c].req == req && Checked(run, acts, i, c, checked)
      && Prior(run, acts, i, c, req, raw)
    case Evicting(req, _, checked, _) => c in asked && asked[c].req == req && Checked(run, acts, i, c, checked)
    case Deleting(req, _, checked, _) => c in asked && asked[c].req == req && Checked(run, acts, i, c, checked)
    case Returning(claim) => c in asked && Answers(run, acts, i, c, asked[c], claim)
    case Raised(e) => c in asked ==> Justified(run, acts, i, c, asked[c].req, e)
    case Checking(_, _) => c !in asked
    case Dropping(_, _) => c !in asked
    case Finished => true
  }

  lemma SawEarlier(run: seq<State>, acts: seq<Action>, i: nat, c: CallId, k: Key, raw: Text)
    requires |run| == |acts| + 1 && i + 1 < |run| && Saw(run, acts, i, c, k, raw)
    ensures Saw(run, acts, i + 1, c, k, raw)
  {
  }

  lemma CheckedEarlier(run: seq<State>, acts: seq<Action>, i: nat, c: CallId, checked: Option<Text>)
    requires |run| == |acts| + 1 && i + 1 < |run| && Checked(run, acts, i, c, checked)
    ensures Checked(run, acts, i + 1, c, checked)
  {
  }

  lemma AnswersEarlier(run: seq<State>, acts: seq<Action>, i: nat, c: CallId, ask: Ask, claim: Claim)
    requires |run| == |acts| + 1 && i + 1 < |run| && Answers(run, acts, i, c, ask, claim)
    ensures Answers(run, acts, i + 1, c, ask, claim)
  {
    hide Saw;
    if Saw(run, acts, i, c, ask.req.key, claim.value) {
      SawEarlier(run, acts, i, c, ask.req.key, claim.value);
    }
  }

  lemma WaitedOutEarlier(acts: seq<Action>, i: nat, c: CallId, expiresAt: real, waitUntil: real)
    requires i < |acts| && WaitedOut(acts, i, c, expiresAt, waitUntil)
    ensures WaitedOut(acts, i + 1, c, expiresAt, waitUntil)
  {
  }

  lemma JustifiedEarlier(run: seq<State>, acts: seq<Action>, i: nat, c: CallId, req: Request, e: Error)
    requires |run| == |acts| + 1 && i + 1 < |run| && Justified(run, acts, i, c, req, e)
    ensures Justified(run, acts, i + 1, c, req, e)
  {
    hide Saw, WaitedOut;
    match e
    case Malformed =>
      var raw :| Saw(run, acts, i, c, req.key, raw) && (raw.doc.Unreadable? || raw.doc.expiresAt.None?);
      SawEarlier(run, acts, i, c, req.key, raw);
    case OtherPending =>
      var raw :| Prior(run, acts, i, c, req, raw) && !req.reconciling && raw.doc.hash != req.hash
                 && WaitedOut(acts, i, c, raw.doc.expiresAt.value, req.waitUntil)
                 && (req.asks ==> Denied(run, acts, i, c, raw));
      CheckedEarlier(run, acts, i, c, if req.asks then Some(raw) else None);
      SawEarlier(run, acts, i, c, req.key, raw);
      WaitedOutEarlier(acts, i, c, raw.doc.expiresAt.value, req.waitUntil);
    case NotSettled =>
      var raw :| Prior(run, acts, i, c, req, raw) && (req.reconciling <==> raw.doc.hash != req.hash)
                 && WaitedOut(acts, i, c, raw.doc.expiresAt.value, req.waitUntil)
                 && (req.asks ==> Denied(run, acts, i, c, raw));
      CheckedEarlier(run, acts, i, c, if req.asks then Some(raw) else None);
      SawEarlier(run, acts, i, c, req.key, raw);
      WaitedOutEarlier(acts, i, c, raw.doc.expiresAt.value, req.waitUntil);
    case _ =>
  }

  /** Giving up on a record, or waiting for it, is as its expiry and the time left demand. */
  lemma AwaitTells(run: seq<State>, acts: seq<Action>, i: nat, c: CallId, req: Request, tries: nat,
                   checked: Option<Text>, raw: Text)
    requires |run| == |acts| + 1 && i < |acts| && acts[i].DoAdvance? && acts[i].call == c
    requires Prior(run, acts, i + 1, c, req, raw) && Checked(run, acts, i + 1, c, checked)
    requires req.asks ==> checked == Some(raw)
    ensures var next, r := Await(req, tries, checked, raw, acts[i].reading), acts[i].reading;
            && (next.Looking? ==> next.req == req && next.checked == checked)
            && (next.Raised? ==> Justified(run, acts, i + 1, c, req, next.error))
            && (next == Raised(OtherPending) || next == Raised(NotSettled)
                <==> raw.doc.expiresAt.value <= r.later || r.last >= req.waitUntil)
  {
    hide Saw, Denied;
    var r := acts[i].reading;
    if raw.doc.expiresAt.value <= r.later || r.last >= req.waitUntil {
      assert WaitedOut(acts, i + 1, c, raw.doc.expiresAt.value, req.waitUntil);
    }
  }

  lemma LookTells(run: seq<State>, acts: seq<Action>, i: nat, c: CallId)
    requires |run| == |acts| + 1 && i < |acts| && acts[i].DoAdvance? && acts[i].call == c && c in run[i].tasks
    requires run[i + 1].asked == run[i].asked && run[i].tasks[c].Looking? && TaskTold(run, acts, i, c, run[i].tasks[c])
    ensures var t := run[i].tasks[c];
            TaskTold(run, acts, i + 1, c, AfterLook(t, Lookup(run[i].store, t.req.key), acts[i].reading))
  {
    hide Await, NextTry, WaitedOut, Denied;
    var t := run[i].tasks[c];
    CheckedEarlier(run, acts, i, c, t.checked);
    var found := Lookup(run[i].store, t.req.key);
    if found.Some? {
      var raw := found.value;
      assert Saw(run, acts, i + 1, c, t.req.key, raw);
      hide Saw, Checked;
      if raw.doc.Pending? && raw.doc.expiresAt.Some? && !(t.req.reconciling && raw.doc.hash == t.req.hash)
         && (t.req.asks ==> t.checked == Some(raw)) {
        AwaitTells(run, acts, i, c, t.req, t.tries, t.checked, raw);
      }
    }
  }

  /** The step of any other task. */
  lemma StepTells(run: seq<State>, acts: seq<Action>, i: nat, c: CallId)
    requires |run| == |acts| + 1 && i < |acts| && acts[i].DoAdvance? && acts[i].call == c && c in run[i].tasks
    requires run[i + 1] == Advance(run[i], c, acts[i].reading) && Told(run, acts, i, c)
    ensures Told(run, acts, i + 1, c)
  {
    hide AfterLook, Await, NextTry, NextStore, Saw, WaitedOut, Answers, Justified, Checked;
    var t := run[i].tasks[c];
    if c in run[i].issued {
      AnswersEarlier(run, acts, i, c, run[i].asked[c], run[i].issued[c]);
    }
    if t.Looking? {
      LookTells(run, acts, i, c);
    } else if t.Asking? {
      AskTells(run, acts, i, c);
    } else if t.Inserting? {
      CheckedEarlier(run, acts, i, c, t.checked);
      InsertTells(run, acts, i, c);
    } else if t.Returning? {
      AnswersEarlier(run, acts, i, c, run[i].asked[c], t.claim);
    } else if t.Raised? && c in run[i].asked {
      JustifiedEarlier(run, acts, i, c, run[i].asked[c].req, t.error);
    } else if t.Evicting? || t.Deleting? {
      CheckedEarlier(run, acts, i, c, t.checked);
      RetryTells(run, acts, i, c, t.req, t.tries, t.checked);
    }
  }

  lemma AskTells(run: seq<State>, acts: seq<Action>, i: nat, c: CallId)
    requires |run| == |acts| + 1 && i < |acts| && acts[i].DoAdvance? && acts[i].call == c && c in run[i].tasks
    requires run[i + 1].asked == run[i].asked && run[i].tasks[c].Asking? && TaskTold(run, acts, i, c, run[i].tasks[c])
    ensures TaskTold(run, acts, i + 1, c, NextTask(run[i].store, run[i].tasks[c], acts[i].reading))
  {
    hide Await, NextTry, Saw, WaitedOut;
    var t := run[i].tasks[c];
    SawEarlier(run, acts, i, c, t.req.key, t.raw);
    CheckedEarlier(run, acts, i, c, t.checked);
    if !acts[i].reading.answer {
      assert Denied(run, acts, i + 1, c, t.raw);
      hide Denied;
      AwaitTells(run, acts, i, c, t.req, t.tries, Some(t.raw), t.raw);
    }
  }

  lemma RetryTells(run: seq<State>, acts: seq<Action>, i: nat, c: CallId, req: Request, tries: nat, checked: Option<Text>)
    requires |run| == |acts| + 1 && i < |acts| && c in run[i + 1].asked && run[i + 1].asked[c].req == req
    requires Checked(run, acts, i + 1, c, checked)
    ensures TaskTold(run, acts, i + 1, c, NextTry(req, tries, checked))
  {
  }

  lemma InsertTells(run: seq<State>, acts: seq<Action>, i: nat, c: CallId)
    requires |run| == |acts| + 1 && i < |acts| && acts[i].DoAdvance? && c in run[i].tasks && run[i].tasks[c].Inserting?
    requires run[i + 1] == Advance(run[i], c, acts[i].reading) && Told(run, acts, i, c)
    requires Checked(run, acts, i + 1, c, run[i].tasks[c].checked)
    ensures c in run[i + 1].tasks && TaskTold(run, acts, i + 1, c, run[i + 1].tasks[c])
  {
    hide Saw, Checked;
    var t := run[i].tasks[c];
    RetryTells(run, acts, i, c, t.req, t.tries, t.checked);
    hide NextTry;
  }

  /** A step of another call tells this one nothing new. */
  lemma OthersTellNothing(run: seq<State>, acts: seq<Action>, i: nat, c: CallId)
    requires |run| == |acts| + 1 && i < |acts| && acts[i].call != c && Told(run, acts, i, c)
    requires Possible(run[i], acts[i]) && run[i + 1] == Apply(run[i], acts[i])
    ensures Told(run, acts, i + 1, c)
  {
    OnlyItsCall(run[i], acts[i], c);
    hide Apply, Saw, WaitedOut, Answers, Justified, Checked;
    if c in run[i].issued {
      AnswersEarlier(run, acts, i, c, run[i].asked[c], run[i].issued[c]);
    }
    if c in run[i].tasks {
      var t := run[i].tasks[c];
      if t.Looking? || t.Inserting? || t.Asking? || t.Evicting? || t.Deleting? {
        CheckedEarlier(run, acts, i, c, t.checked);
      }
      if t.Asking? {
        SawEarlier(run, acts, i, c, t.req.key, t.raw);
      } else if t.Returning? {
        AnswersEarlier(run, acts, i, c, run[i].asked[c], t.claim);
      } else if t.Raised? && c in run[i].asked {
        JustifiedEarlier(run, acts, i, c, run[i].asked[c].req, t.error);
      }
    }
  }

  lemma OnlyItsCall(s: State, a: Action, c: CallId)
    requires Possible(s, a) && a.call != c
    ensures var s' := Apply(s, a);
            && (c in s'.tasks <==> c in s.tasks) && (c in s.tasks ==> s'.tasks[c] == s.tasks[c])
            && (c in s'.issued <==> c in s.issued) && (c in s.issued ==> s'.issued[c] == s.issued[c])
            && (c in s'.asked <==> c in s.asked) && (c in s.asked ==> s'.asked[c] == s.asked[c])
  {
    hide NextTask, NextStore;
  }

  /** A call that starts, or dies, has been told nothing wrong. */
  lemma StartTells(run: seq<State>, acts: seq<Action>, i: nat, c: CallId)
    requires |run| == |acts| + 1 && i < |acts| && acts[i].call == c && !acts[i].DoAdvance?
    requires Told(run, acts, i, c) && Possible(run[i], acts[i]) && run[i + 1] == Apply(run[i], acts[i])
    requires c !in run[i].tasks ==> c !in run[i].issued && c !in run[i].asked
    ensures Told(run, acts, i + 1, c)
  {
    hide Saw, WaitedOut, Denied;
    if c in run[i].issued {
      AnswersEarlier(run, acts, i, c, run[i].asked[c], run[i].issued[c]);
    }
  }

  lemma {:induction false} OnlyStartedAreAsked(run: seq<State>, acts: seq<Action>, i: nat)
    requires IsRun(run, acts) && i < |run|
    ensures run[i].asked.Keys <= run[i].tasks.Keys && run[i].issued.Keys <= run[i].tasks.Keys
  {
    if i > 0 {
      OnlyStartedAreAsked(run, acts, i - 1);
      AskedAfter(run[i - 1], acts[i - 1]);
      hide Apply;
    }
  }

  lemma AskedAfter(s: State, a: Action)
    requires Possible(s, a) && s.asked.Keys <= s.tasks.Keys && s.issued.Keys <= s.tasks.Keys
    ensures Apply(s, a).asked.Keys <= Apply(s, a).tasks.Keys && Apply(s, a).issued.Keys <= Apply(s, a).tasks.Keys
  {
    hide NextTask, NextStore;
  }

  lemma {:induction false} RunTells(run: seq<State>, acts: seq<Action>, i: nat, c: CallId)
    requires IsRun(run, acts) && i < |run|
    ensures Told(run, acts, i, c)
  {
    if i > 0 {
      RunTells(run, acts, i - 1, c);
      OnlyStartedAreAsked(run, acts, i - 1);
      hide Told, Apply;
      if acts[i - 1].call != c {
        OthersTellNothing(run, acts, i - 1, c);
      } else if acts[i - 1].DoAdvance? {
        AdvanceApplies(run[i - 1], acts[i - 1]);
        StepTells(run, acts, i - 1, c);
      } else {
        StartTells(run, acts, i - 1, c);
      }
    }
  }

  lemma AdvanceApplies(s: State, a: Action)
    requires Possible(s, a) && a.DoAdvance?
    ensures Apply(s, a) == Advance(s, a.call, a.reading)
  {
  }

  /**
   Every claim returned, over every run, is for the key and the transaction asked for. A created
   one holds what was asked; one that is not comes only from a reconciling call, and was read from
   the store or had expired when the call began.
   */
  lemma ClaimsAnswerRequests(run: seq<State>, acts: seq<Action>, i: nat, c: CallId)
    requires IsRun(run, acts) && i < |run| && c in run[i].issued
    ensures c in run[i].asked && Answers(run, acts, i, c, run[i].asked[c], run[i].issued[c])
  {
    RunTells(run, acts, i, c);
  }

  /**
   Every refusal is justified by a record the call read: unreadable; or pending for another
   transaction while the call does not reconcile; or unsettled. In the last two cases it had expired
   or there was no time left to wait, and a call that can ask did ask and was told no.
   */
  lemma RefusalsAreJustified(run: seq<State>, acts: seq<Action>, i: nat, c: CallId)
    requires IsRun(run, acts) && i < |run| && c in run[i].tasks && run[i].tasks[c].Raised? && c in run[i].asked
    ensures Justified(run, acts, i, c, run[i].asked[c].req, run[i].tasks[c].error)
  {
    RunTells(run, acts, i, c);
  }

  /** A receipt hash counts as settled only since a query for a record with it was answered so. */
  lemma {:induction false} SettledWasReported(run: seq<State>, acts: seq<Action>, i: nat, receipt: string)
    requires IsRun(run, acts) && i < |run| && receipt in run[i].settled
    ensures exists j :: && 0 <= j < i && acts[j].DoAdvance? && acts[j].reading.answer && acts[j].call in run[j].tasks
                        && run[j].tasks[acts[j].call].Asking? && AsksFor(run[j].tasks[acts[j].call].raw.doc, receipt)
  {
    if receipt in run[i - 1].settled {
      SettledWasReported(run, acts, i - 1, receipt);
    } else {
      ReportedAt(run[i - 1], acts[i - 1], receipt);
    }
  }

  /** The receipt hash recorded, or for records without one the transaction hash. */
  predicate AsksFor(doc: Doc, receipt: string) {
    doc.Pending? ==> doc.receiptHash == Some(receipt) || (doc.receiptHash.None? && doc.hash == receipt)
  }

  lemma ReportedAt(s: State, a: Action, receipt: string)
    requires Possible(s, a) && receipt !in s.settled && receipt in Apply(s, a).settled
    ensures a.DoAdvance? && a.reading.answer && s.tasks[a.call].Asking? && AsksFor(s.tasks[a.call].raw.doc, receipt)
  {
    hide NextTask, NextStore;
  }

  // ---------- How long a call tries ----------

  /** How often the call has read the record under its key. */
  ghost function Looks(run: seq<State>, acts: seq<Action>, i: nat, c: CallId): nat
    requires |run| == |acts| + 1 && i < |run|
  {
    if i == 0 then 0
    else
      var looked := acts[i - 1].DoAdvance? && acts[i - 1].call == c && c in run[i - 1].tasks && run[i - 1].tasks[c].Looking?;
      Looks(run, acts, i - 1, c) + (if looked then 1 else 0)
  }

  predicate Tried(t: Task, looks: nat) {
    match t
    case Looking(_, tries, _) => looks == tries < 200
    case Inserting(_, tries, _) => looks == tries + 1 <= 200
    case Asking(_, tries, _, _) => looks == tries + 1 <= 200
    case Evicting(_, tries, _, _) => looks == tries + 1 <= 200
    case Deleting(_, tries, _, _) => looks == tries + 1 <= 200
    case Raised(error) => looks <= 200 && (error == Contention ==> looks == 200)
    case _ => looks <= 200
  }

  lemma StepTries(store: map<Key, Text>, t: Task, r: Reading, looks: nat)
    requires Tried(t, looks)
    ensures Tried(NextTask(store, t, r), looks + (if t.Looking? then 1 else 0))
  {
    hide Lookup;
  }

  /** A call reads the record at most two hundred times, and gives up for contention only after all of them. */
  lemma {:induction false} TriesAreBounded(run: seq<State>, acts: seq<Action>, i: nat, c: CallId)
    requires IsRun(run, acts) && i < |run|
    ensures Looks(run, acts, i, c) <= 200
    ensures c !in run[i].tasks ==> Looks(run, acts, i, c) == 0
    ensures c in run[i].tasks ==> Tried(run[i].tasks[c], Looks(run, acts, i, c))
  {
    if i > 0 {
      var s, a := run[i - 1], acts[i - 1];
      TriesAreBounded(run, acts, i - 1, c);
      hide NextTask, NextStore, Tried;
      if a.call != c {
        OnlyItsCall(s, a, c);
      } else if a.DoAdvance? {
        StepTries(s.store, s.tasks[c], a.reading, Looks(run, acts, i - 1, c));
        AdvanceApplies(s, a);
        hide Apply;
        assert run[i].tasks[c] == NextTask(s.store, s.tasks[c], a.reading);
        TriedIsBounded(run[i].tasks[c], Looks(run, acts, i, c));
      } else {
        StartTries(s, a, Looks(run, acts, i - 1, c));
      }
    }
  }

  lemma TriedIsBounded(t: Task, looks: nat)
    requires Tried(t, looks)
    ensures looks <= 200
  {
  }

  lemma StartTries(s: State, a: Action, looks: nat)
    requires Possible(s, a) && !a.DoAdvance? && (a.call in s.tasks ==> Tried(s.tasks[a.call], looks))
    requires a.call !in s.tasks ==> looks == 0
    ensures a.call in Apply(s, a).tasks && Tried(Apply(s, a).tasks[a.call], looks)
  {
  }

  // ---------- What an undisturbed call does ----------

  /** Take a step if it is possible; unlike in a run, callers need not keep what they owe. */
  function Do(s: State, a: Action): State {
    if Possible(s, a) then Apply(s, a) else s
  }

  function Go(s: State, c: CallId, r: Reading): State {
    Do(s, DoAdvance(c, r))
  }

  /** A call that finds its key free: get, put_if_absent, return. */
  function Go3(s: State, c: CallId, r: (Reading, Reading, Reading)): State {
    Go(Go(Go(s, c, r.0), c, r.1), c, r.2)
  }

  lemma LookingClaims(s: State, c: CallId, r: (Reading, Reading, Reading))
    requires c in s.tasks && s.tasks[c].Looking? && s.tasks[c].req.key !in s.store
    ensures var req := s.tasks[c].req;
            Go3(s, c, r)
            == s.(store := s.store[req.key := req.Value()],
                  tasks := s.tasks[c := Finished],
                  issued := s.issued[c := Claim(req.key, req.Value(), true)])
  {
    var req := s.tasks[c].req;
    assert Go(s, c, r.0) == s.(tasks := s.tasks[c := Inserting(req, s.tasks[c].tries, s.tasks[c].checked)]);
  }

  /** A claim of a free key stores what was asked and is returned as created, unless it reconciles what has expired. */
  lemma FreeKeyIsClaimed(s: State, c: CallId, req: Request, now: real, r: (Reading, Reading, Reading))
    requires c !in s.tasks && req.key !in s.store && !(req.reconciling && req.expiresAt <= now)
    ensures var receipt := if req.receiptHash.Some? then req.receiptHash else Some(req.hash);
            var own := Text(0, Pending(req.hash, receipt, Some(req.expiresAt)));
            Go3(Do(s, DoClaim(c, req, now)), c, r)
            == s.(store := s.store[req.key := own],
                  tasks := s.tasks[c := Finished],
                  asked := s.asked[c := Ask(req, now)],
                  issued := s.issued[c := Claim(req.key, own, true)])
  {
    LookingClaims(Do(s, DoClaim(c, req, now)), c, r);
    hide Go3;
  }

  /**
   A reconciling call is given what is already there: its own transaction's record, or, once that has
   expired, the record it would have stored. The store stays as it is.
   */
  lemma ReconciledIsReturned(s: State, c: CallId, req: Request, now: real, raw: Text, a: Reading, b: Reading)
    requires c !in s.tasks && req.reconciling
    requires req.expiresAt > now ==>
               Lookup(s.store, req.key) == Some(raw) && raw.doc.Pending? && raw.doc.hash == req.hash
    requires req.expiresAt <= now ==> raw == req.Value()
    ensures var looked := if req.expiresAt <= now then Do(s, DoClaim(c, req, now)) else Go(Do(s, DoClaim(c, req, now)), c, a);
            var end := Go(looked, c, b);
            end.store == s.store && end.issued == s.issued[c := Claim(req.key, raw, false)]
  {
  }

  /** A record that cannot be read, or tells no expiry to a call it is not returned to, is an error and stays. */
  lemma UnreadableIsRefused(s: State, c: CallId, req: Request, now: real, raw: Text, a: Reading)
    requires c !in s.tasks && !(req.reconciling && req.expiresAt <= now) && Lookup(s.store, req.key) == Some(raw)
    requires raw.doc.Unreadable? || (raw.doc.expiresAt.None? && !(req.reconciling && raw.doc.hash == req.hash))
    ensures var end := Go(Do(s, DoClaim(c, req, now)), c, a);
            end.store == s.store && c in end.tasks && end.tasks[c] == Raised(Malformed)
  {
  }

  /** The record of a settled transaction gives way: it is taken out, and the key claimed. */
  lemma SettledGivesWay(s: State, c: CallId, req: Request, now: real, raw: Text, a: Reading, b: Reading, d: Reading,
                        e: Reading, r: (Reading, Reading, Reading))
    requires Lookup(s.store, req.key) == Some(raw) && raw.doc.Pending? && raw.doc.expiresAt.Some?
    requires c !in s.tasks && !(req.reconciling && (req.expiresAt <= now || raw.doc.hash == req.hash))
    requires req.asks && b.answer
    ensures var end := Go3(Go(Go(Go(Go(Do(s, DoClaim(c, req, now)), c, a), c, b), c, d), c, e), c, r);
            && end.store == s.store[req.key := req.Value()] && end.settled == s.settled + {raw.doc.Receipt()}
            && c in end.issued && end.issued[c] == Claim(req.key, req.Value(), true)
  {
    var s1 := Do(s, DoClaim(c, req, now));
    assert s1 == s.(tasks := s.tasks[c := Looking(req, 0, None)], asked := s.asked[c := Ask(req, now)]);
    hide Go3, Go, Do;
    EvictionRuns(s1, c, req, raw, a, b, d, e);
    var s5 := Go(Go(Go(Go(s1, c, a), c, b), c, d), c, e);
    LookingClaims(s5, c, r);
    assert s5.store[req.key := req.Value()] == s.store[req.key := req.Value()];
  }

  lemma EvictionRuns(s: State, c: CallId, req: Request, raw: Text, a: Reading, b: Reading, d: Reading, e: Reading)
    requires Lookup(s.store, req.key) == Some(raw) && raw.doc.Pending? && raw.doc.expiresAt.Some?
    requires c in s.tasks && s.tasks[c] == Looking(req, 0, None) && req.asks && b.answer
    requires !(req.reconciling && raw.doc.hash == req.hash)
    ensures Go(Go(Go(Go(s, c, a), c, b), c, d), c, e)
            == s.(tasks := s.tasks[c := Looking(req, 1, None)], store := s.store - {req.key},
                  settled := s.settled + {raw.doc.Receipt()})
  {
    var s2 := Go(s, c, a);
    assert s2 == s.(tasks := s.tasks[c := Asking(req, 0, None, raw)]);
    var s3 := Go(s2, c, b);
    assert s3 == s.(tasks := s.tasks[c := Evicting(req, 0, None, raw)], settled := s.settled + {raw.doc.Receipt()});
    var s4 := Go(s3, c, d);
    assert s4 == s3.(tasks := s.tasks[c := Deleting(req, 0, None, raw)]);
  }

  /**
   A record that was not settled when asked about holds its key: with its expiry past, or no time
   left to wait, a claim for another transaction is refused, and the store stays as it is.
   */
  lemma HeldKeyIsRefused(s: State, c: CallId, req: Request, now: real, raw: Text, a: Reading, b: Reading)
    requires Lookup(s.store, req.key) == Some(raw) && raw.doc.Pending? && raw.doc.expiresAt.Some?
    requires c !in s.tasks && !(req.reconciling && (req.expiresAt <= now || raw.doc.hash == req.hash))
    requires var last := if req.asks then b else a;
             !last.answer && (raw.doc.expiresAt.value <= last.later || last.last >= req.waitUntil)
    ensures var looked := Go(Do(s, DoClaim(c, req, now)), c, a);
            var end := if req.asks then Go(looked, c, b) else looked;
            && end.store == s.store && end.issued == s.issued && end.settled == s.settled && c in end.tasks
            && end.tasks[c] == Raised(if req.reconciling || raw.doc.hash == req.hash then NotSettled else OtherPending)
  {
    var s1 := Do(s, DoClaim(c, req, now));
    assert s1.tasks[c] == Looking(req, 0, None);
    if req.asks {
      assert Go(s1, c, a) == s1.(tasks := s1.tasks[c := Asking(req, 0, None, raw)]);
    }
  }

  /**
   A record already known to be pending is not asked about again while there is time to wait; from
   then on, and for any other record, a call that can ask asks.
   */
  lemma AsksExactly(store: map<Key, Text>, t: Task, raw: Text, r: Reading)
    requires t.Looking? && Lookup(store, t.req.key) == Some(raw) && raw.doc.Pending? && raw.doc.expiresAt.Some?
    requires !(t.req.reconciling && raw.doc.hash == t.req.hash) && t.req.asks
    ensures NextTask(store, t, r) == Asking(t.req, t.tries, t.checked, raw)
            <==> !(t.checked == Some(raw) && r.now < t.req.waitUntil)
    ensures NextTask(store, t, r).Asking? <==> !(t.checked == Some(raw) && r.now < t.req.waitUntil)
  {
    hide NextTry;
  }

  /** A call that reconciles what has already expired claims nothing: it never touches the store. */
  ghost predicate OnlyReconciles(s: State, c: CallId) {
    c in s.asked && s.asked[c].req.reconciling && s.asked[c].req.expiresAt <= s.asked[c].now
  }

  ghost predicate ClaimsNothing(s: State, c: CallId) {
    && c in s.tasks && (c in s.issued ==> !s.issued[c].created)
    && var t := s.tasks[c];
       t.Finished? || t.Raised? || (t.Returning? && !t.claim.created)
  }

  lemma {:induction false} ExpiredIsNotClaimed(run: seq<State>, acts: seq<Action>, i: nat, c: CallId)
    requires IsRun(run, acts) && i < |run| && OnlyReconciles(run[i], c)
    ensures ClaimsNothing(run[i], c)
    ensures i < |acts| && acts[i].DoAdvance? && acts[i].call == c ==> run[i + 1].store == run[i].store
  {
    if i > 0 {
      var s, a := run[i - 1], acts[i - 1];
      OnlyStartedAreAsked(run, acts, i - 1);
      hide Apply;
      if a.call != c {
        OnlyItsCall(s, a, c);
        ExpiredIsNotClaimed(run, acts, i - 1, c);
        OthersClaimNothing(s, run[i], c);
      } else {
        OwnStepClaimsNothing(s, a);
        if c in s.tasks {
          ExpiredIsNotClaimed(run, acts, i - 1, c);
        }
      }
    }
    if i < |acts| && acts[i].DoAdvance? && acts[i].call == c {
      AdvanceApplies(run[i], acts[i]);
    }
  }

  lemma OthersClaimNothing(s: State, s': State, c: CallId)
    requires ClaimsNothing(s, c) && c in s'.tasks && s'.tasks[c] == s.tasks[c]
    requires c in s'.issued ==> c in s.issued && s'.issued[c] == s.issued[c]
    ensures ClaimsNothing(s', c)
  {
  }

  lemma OwnStepClaimsNothing(s: State, a: Action)
    requires Possible(s, a) && OnlyReconciles(Apply(s, a), a.call)
    requires a.call !in s.tasks ==> a.call !in s.issued && a.call !in s.asked
    ensures if a.call in s.tasks
            then OnlyReconciles(s, a.call) && (ClaimsNothing(s, a.call) ==> ClaimsNothing(Apply(s, a), a.call))
            else ClaimsNothing(Apply(s, a), a.call)
  {
    hide AfterLook, NextStore;
  }

  // ---------- When a release breaks the backing ----------

  /** A call that returned its claim does nothing more, whatever callers do. */
  ghost predicate ReturnedIsOver(s: State) {
    forall c :: c in s.issued ==> c in s.tasks && (s.tasks[c].Finished? || s.tasks[c].Checking? || s.tasks[c].Dropping?
                                                   || s.tasks[c].Raised?)
  }

  lemma StepKeepsReturnedOver(s: State, a: Action)
    requires ReturnedIsOver(s) && Possible(s, a)
    ensures ReturnedIsOver(Apply(s, a))
  {
    hide AfterLook, Await, NextTry, NextStore, Lookup;
  }

  /** Without the callers' rule it still holds over any run. */
  lemma {:induction false} RunKeepsReturnedOver(run: seq<State>, acts: seq<Action>, i: nat)
    requires |run| == |acts| + 1 && Init(run[0]) && i < |run|
    requires forall n :: 0 <= n < |acts| ==> Possible(run[n], acts[n]) && run[n + 1] == Apply(run[n], acts[n])
    ensures ReturnedIsOver(run[i])
  {
    if i > 0 {
      RunKeepsReturnedOver(run, acts, i - 1);
      StepKeepsReturnedOver(run[i - 1], acts[i - 1]);
    }
  }

  /** The claim equals the one released, and is not it. */
  ghost predicate Rival(s: State, owner: CallId, claim: Claim, released: Claim, issue: CallId) {
    Live(s, owner, claim) && owner != issue && claim.key == released.key && claim.value == released.value
  }

  /**
   Exactly when a release takes the record from a claim that needs it, by whatever rule callers
   release: a release that deletes leaves some live claim neither stored nor settled if and only if
   its transaction is not settled and another live claim has the same key and value.
   */
  lemma ReleaseBreaksExactly(s: State, c: CallId, r: Reading)
    requires c in s.tasks && s.tasks[c].Dropping? && AllBacked(s) && ReturnedIsOver(s)
    requires s.tasks[c].issue in s.issued && s.issued[s.tasks[c].issue] == s.tasks[c].claim
    requires Lookup(s.store, s.tasks[c].claim.key) == Some(s.tasks[c].claim.value)
    ensures var claim, issue, s' := s.tasks[c].claim, s.tasks[c].issue, Advance(s, c, r);
            (exists a, x :: Live(s', a, x) && !Backed(s', x))
            <==> claim.value.doc.Receipt() !in s.settled && (exists a, x :: Rival(s, a, x, claim, issue))
  {
    var claim, issue, s' := s.tasks[c].claim, s.tasks[c].issue, Advance(s, c, r);
    assert s'.store == s.store - {claim.key} && s'.settled == s.settled && s'.closed == s.closed + {issue};
    assert s'.tasks == s.tasks[c := Finished] && s'.issued == s.issued;
    hide Advance;
    if a, x :| Live(s', a, x) && !Backed(s', x) {
      assert Live(s, a, x) && Backed(s, x);
      assert Rival(s, a, x, claim, issue);
    }
    if a, x :| Rival(s, a, x, claim, issue) {
      assert Live(s', a, x);
    }
  }

  // ---------- Releasing a claim twice ----------

  const NOW := Reading(0.0, 0.0, 0.0, false)

  function ClaimThrough(s: State, c: CallId, req: Request): State {
    Go3(Do(s, DoClaim(c, req, 0.0)), c, (NOW, NOW, NOW))
  }

  /** Call `c` releases the claim of `issue`: get, compare_and_set. */
  function ReleaseThrough(s: State, c: CallId, issue: CallId): State {
    Go(Go(Do(s, DoRelease(c, issue)), c, NOW), c, NOW)
  }

  lemma ClaimRuns(s: State, c: CallId, req: Request)
    requires c !in s.tasks && req.key !in s.store && !req.reconciling
    ensures ClaimThrough(s, c, req)
            == s.(store := s.store[req.key := req.Value()],
                  tasks := s.tasks[c := Finished],
                  asked := s.asked[c := Ask(req, 0.0)],
                  issued := s.issued[c := Claim(req.key, req.Value(), true)])
  {
    FreeKeyIsClaimed(s, c, req, 0.0, (NOW, NOW, NOW));
    hide Go3, Do;
  }

  lemma ReleaseRuns(s: State, c: CallId, issue: CallId)
    requires c !in s.tasks && issue in s.issued
    requires Lookup(s.store, s.issued[issue].key) == Some(s.issued[issue].value)
    ensures ReleaseThrough(s, c, issue)
            == s.(store := s.store - {s.issued[issue].key},
                  tasks := s.tasks[c := Finished],
                  given := s.given[issue := c],
                  closed := s.closed + {issue})
  {
  }

  /**
   The one-release rule is needed: releasing one claim a second time deletes the record that a
   later claim of the same transaction created, although nothing was settled.
   */
  lemma SecondReleaseBreaksBacking(req: Request)
    requires !req.reconciling
    ensures
      var s := State(map[], map[], map[], map[], map[], {}, {});
      var end := ReleaseThrough(ClaimThrough(ReleaseThrough(ClaimThrough(s, 0, req), 1, 0), 2, req), 3, 0);
      && Init(s)
      && 2 in end.issued && end.issued[2].created && 2 !in end.given
      && !Backed(end, end.issued[2])
  {
    hide ClaimThrough, ReleaseThrough;
    var s := State(map[], map[], map[], map[], map[], {}, {});
    ClaimRuns(s, 0, req);
    var s1 := ClaimThrough(s, 0, req);
    ReleaseRuns(s1, 1, 0);
    var s2 := ReleaseThrough(s1, 1, 0);
    ClaimRuns(s2, 2, req);
    ReleaseRuns(ClaimThrough(s2, 2, req), 3, 0);
  }
}
