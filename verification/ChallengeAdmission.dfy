/**
 Challenge admission for sponsored charges: any number of server processes bind one
 challenge to one transaction through get / put_if_absent / compare_and_set retry loops on
 a shared store.

 A process is a task with a program counter. Every store call is one atomic step, and steps
 of different tasks interleave arbitrarily. The uuid4 attempt id of a claiming call is the
 identity of that call, so attempt ids are fresh by construction.
 */
module ChallengeAdmission {
  import opened Wrappers

  /** Identifies one call; for a claiming call it is also its attempt id. */
  type CallId = nat

  const MAX_TRIES: nat := 100

  datatype Binding = Binding(hash: string, payer: string, currency: string, amount: string)

  /** What the store key hashes, injectively. */
  datatype Key = Key(realm: Option<string>, chainId: int, challengeId: string, payer: string)

  /** What a stored text decodes to. Missing ownership fields are those of legacy bindings. */
  datatype Doc =
    | NotJson
    | NotObject
    | ForeignBinding
    | BadOwnership(binding: Binding)
    | Owned(binding: Binding, attempts: Option<seq<CallId>>, retained: Option<bool>)
  {
    predicate BoundTo(b: Binding) {
      (Owned? || BadOwnership?) && binding == b
    }

    function Attempts(): seq<CallId>
      requires Owned?
    {
      attempts.GetOr([])
    }

    // A record from before ownership was kept may hide attempts that reached the chain.
    predicate Retained()
      requires Owned?
    {
      retained.GetOr(true)
    }
  }

  /** A stored text: compare_and_set compares texts, not what they decode to. */
  datatype Text = Text(spelling: nat, doc: Doc)

  function Written(b: Binding, attempts: seq<CallId>, retained: bool): Text {
    Text(0, Owned(b, Some(attempts), Some(retained)))
  }

  datatype Claim = Claim(key: Key, binding: Binding, attempt: CallId, created: bool)

  datatype Error =
    | NoChallengeId
    | Replayed
    | Malformed
    | Contention(key: Key, since: nat)
    | Abandoned

  datatype Task =
    // claim_challenge: before put_if_absent, before get, before compare_and_set, returning
    | Inserting(key: Key, binding: Binding, since: nat, tries: nat)
    | Reading(key: Key, binding: Binding, since: nat, tries: nat)
    | Adopting(key: Key, binding: Binding, since: nat, tries: nat, raw: Text)
    | Won(claim: Claim)
    // release: before get, before compare_and_set
    | Checking(claim: Claim, retain: bool, reset: bool, since: nat, tries: nat)
    | Dropping(claim: Claim, retain: bool, reset: bool, since: nat, tries: nat, raw: Text)
    | Finished
    | Raised(error: Error)
  {
    predicate Claiming() {
      Inserting? || Reading? || Adopting? || Won?
    }

    predicate Releasing() {
      Checking? || Dropping?
    }
  }

  datatype Kind = Put | Release | Reset | Expiry

  /** One successful change of a key; `writer` is absent when the key expired. */
  datatype Change = Change(writer: Option<CallId>, key: Key, kind: Kind)

  /**
   The shared store and the tasks, with the history the properties speak of: claims returned
   to callers, claims won by calls that died before returning them, attempts removed by their
   release, attempts whose record expired or was reset under them, keys whose record a retaining
   release has marked, and every change so far.
   */
  datatype State = State(
    store: map<Key, Text>,
    tasks: map<CallId, Task>,
    issued: map<CallId, Claim>,
    lost: map<CallId, Claim>,
    removed: set<CallId>,
    orphaned: set<(Key, CallId)>,
    marked: set<Key>,
    log: seq<Change>)

  // ---------- Steps ----------

  function RetryClaim(t: Task): (next: Task)
    requires t.Reading? || t.Adopting?
    ensures !next.Won? && !next.Releasing()
  {
    if t.tries + 1 < MAX_TRIES then Inserting(t.key, t.binding, t.since, t.tries + 1)
    else Raised(Contention(t.key, t.since))
  }

  function RetryRelease(t: Task): (next: Task)
    requires t.Dropping?
    ensures !next.Claiming()
  {
    if t.tries + 1 < MAX_TRIES then Checking(t.claim, t.retain, t.reset, t.since, t.tries + 1)
    else Raised(Contention(t.claim.key, t.since))
  }

  function AfterRead(t: Task, found: Option<Text>): (next: Task)
    requires t.Reading?
    ensures !next.Won? && !next.Releasing()
  {
    if found.None? then RetryClaim(t)
    else
      var doc := found.value.doc;
      if doc.NotJson? || doc.NotObject? then Raised(Malformed)
      else if !doc.BoundTo(t.binding) then Raised(Replayed)
      else if doc.BadOwnership? then Raised(Malformed)
      else Adopting(t.key, t.binding, t.since, t.tries, found.value)
  }

  function AfterCheck(t: Task, found: Option<Text>): (next: Task)
    requires t.Checking?
    ensures !next.Claiming()
  {
    if found.None? then Finished
    else
      var doc := found.value.doc;
      if doc.NotJson? then Raised(Malformed)
      else if !doc.BoundTo(t.claim.binding) then Finished
      else if doc.BadOwnership? then Raised(Malformed)
      else if t.claim.attempt !in doc.Attempts() then Finished
      else Dropping(t.claim, t.retain, t.reset, t.since, t.tries, found.value)
  }

  function Without(attempts: seq<CallId>, a: CallId): (r: seq<CallId>)
    ensures forall x :: x in r <==> x in attempts && x != a
  {
    if attempts == [] then []
    else (if attempts[0] == a then [] else [attempts[0]]) + Without(attempts[1..], a)
  }

  /** The value a release writes over `raw`; None deletes the record. */
  function Remaining(t: Task): Option<Text>
    requires t.Dropping? && t.raw.doc.Owned?
  {
    var attempts := Without(t.raw.doc.Attempts(), t.claim.attempt);
    var retained := t.retain || (t.raw.doc.Retained() && !t.reset);
    if !t.reset && (attempts != [] || retained)
    then Some(Written(t.raw.doc.binding, attempts, retained))
    else None
  }

  function Stored(store: map<Key, Text>, k: Key, value: Option<Text>): map<Key, Text> {
    if value.Some? then store[k := value.value] else store - {k}
  }

  /** A write by `c` that leaves its task at `t`. */
  function Write(s: State, c: CallId, k: Key, value: Option<Text>, kind: Kind, t: Task): State {
    s.(store := Stored(s.store, k, value),
       log := s.log + [Change(Some(c), k, kind)],
       orphaned := if kind.Put? then s.orphaned - {(k, c)} else s.orphaned,
       tasks := s.tasks[c := t])
  }

  function Orphans(k: Key, attempts: seq<CallId>): set<(Key, CallId)> {
    set a | a in attempts :: (k, a)
  }

  function Drop(s: State, c: CallId): State
    requires c in s.tasks && s.tasks[c].Dropping? && s.tasks[c].raw.doc.Owned?
  {
    var t := s.tasks[c];
    var others := Without(t.raw.doc.Attempts(), t.claim.attempt);
    var w := Write(s, c, t.claim.key, Remaining(t), if t.reset then Reset else Release, Finished);
    w.(removed := s.removed + {t.claim.attempt},
       orphaned := if t.reset then s.orphaned + Orphans(t.claim.key, others) else s.orphaned,
       marked := if t.reset then s.marked - {t.claim.key}
                 else if t.retain then s.marked + {t.claim.key}
                 else s.marked)
  }

  /** One atomic step of a running task. */
  function Advance(s: State, c: CallId): State
    requires c in s.tasks
  {
    var t := s.tasks[c];
    match t
    case Inserting(k, b, since, tries) =>
      if k !in s.store
      then Write(s, c, k, Some(Written(b, [c], false)), Put, Won(Claim(k, b, c, true)))
      else s.(tasks := s.tasks[c := Reading(k, b, since, tries)])
    case Reading(k, _, _, _) =>
      s.(tasks := s.tasks[c := AfterRead(t, Lookup(s.store, k))])
    case Adopting(k, b, _, _, raw) =>
      if Lookup(s.store, k) == Some(raw) && raw.doc.Owned?
      then Write(s, c, k, Some(Written(b, raw.doc.Attempts() + [c], raw.doc.Retained())), Put,
                 Won(Claim(k, b, c, false)))
      else s.(tasks := s.tasks[c := RetryClaim(t)])
    case Won(claim) =>
      s.(tasks := s.tasks[c := Finished], issued := s.issued[c := claim])
    case Checking(claim, _, _, _, _) =>
      s.(tasks := s.tasks[c := AfterCheck(t, Lookup(s.store, claim.key))])
    case Dropping(claim, _, _, _, _, raw) =>
      if Lookup(s.store, claim.key) == Some(raw) && raw.doc.Owned?
      then Drop(s, c)
      else s.(tasks := s.tasks[c := RetryRelease(t)])
    case Finished => s
    case Raised(_) => s
  }

  function StartClaim(s: State, c: CallId, realm: Option<string>, chainId: int, challengeId: string,
                      b: Binding): State
  {
    var key := Key(realm, chainId, challengeId, b.payer);
    s.(tasks := s.tasks[c := if challengeId == "" then Raised(NoChallengeId)
                             else Inserting(key, b, |s.log|, 0)])
  }

  function StartRelease(s: State, c: CallId, claim: Claim, retain: bool, reset: bool): State {
    s.(tasks := s.tasks[c := Checking(claim, retain, reset, |s.log|, 0)])
  }

  /** Cancellation, or an exception from a store call, at any await. */
  function Abandon(s: State, c: CallId): State
    requires c in s.tasks
  {
    s.(tasks := s.tasks[c := Raised(Abandoned)],
       lost := if s.tasks[c].Won? then s.lost[c := s.tasks[c].claim] else s.lost)
  }

  function Expire(s: State, k: Key): State {
    var listed := if k in s.store && s.store[k].doc.Owned? then s.store[k].doc.Attempts() else [];
    s.(store := s.store - {k}, log := s.log + [Change(None, k, Expiry)],
       orphaned := s.orphaned + Orphans(k, listed), marked := s.marked - {k})
  }

  datatype Action =
    | DoStartClaim(call: CallId, realm: Option<string>, chainId: int, challengeId: string, binding: Binding)
    | DoStartRelease(call: CallId, claim: Claim, retain: bool, reset: bool)
    | DoAdvance(call: CallId)
    | DoAbandon(call: CallId)
    | DoExpire(key: Key)

  /** Call ids are fresh, and only claims that were returned are ever released. */
  predicate Enabled(s: State, a: Action) {
    match a
    case DoStartClaim(c, _, _, _, _) => c !in s.tasks
    case DoStartRelease(c, claim, _, _) =>
      c !in s.tasks && claim.attempt in s.issued && s.issued[claim.attempt] == claim
    case DoAdvance(c) => c in s.tasks
    case DoAbandon(c) => c in s.tasks && !s.tasks[c].Finished? && !s.tasks[c].Raised?
    case DoExpire(k) => k in s.store
  }

  function Apply(s: State, a: Action): State
    requires Enabled(s, a)
  {
    match a
    case DoStartClaim(c, realm, chainId, challengeId, b) =>
      StartClaim(s, c, realm, chainId, challengeId, b)
    case DoStartRelease(c, claim, retain, reset) => StartRelease(s, c, claim, retain, reset)
    case DoAdvance(c) => Advance(s, c)
    case DoAbandon(c) => Abandon(s, c)
    case DoExpire(k) => Expire(s, k)
  }

  /** No call has started; the store may already hold anything, such as legacy bindings. */
  ghost predicate Init(s: State) {
    s.tasks == map[] && s.issued == map[] && s.lost == map[] && s.removed == {}
    && s.orphaned == {} && s.marked == {} && s.log == []
  }

  ghost predicate IsPath(run: seq<State>, acts: seq<Action>) {
    |run| == |acts| + 1
    && forall i :: 0 <= i < |acts| ==> Enabled(run[i], acts[i]) && run[i + 1] == Apply(run[i], acts[i])
  }

  ghost predicate IsRun(run: seq<State>, acts: seq<Action>) {
    IsPath(run, acts) && Init(run[0])
  }

  // ---------- The ownership invariant ----------

  /** The stored record carries this claim's binding and lists its attempt. */
  ghost predicate Held(s: State, claim: Claim) {
    claim.key in s.store
    && var doc := s.store[claim.key].doc;
       doc.Owned? && doc.binding == claim.binding && doc.attempts.Some?
       && claim.attempt in doc.attempts.value
  }

  /** A claim that exists, returned or about to be, and that no release has removed. */
  ghost predicate Outstanding(s: State, a: CallId, claim: Claim) {
    || (a in s.issued && s.issued[a] == claim && a !in s.removed)
    || (a in s.lost && s.lost[a] == claim)
    || (a in s.tasks && s.tasks[a] == Won(claim))
  }

  ghost predicate TaskOk(issued: map<CallId, Claim>, lost: map<CallId, Claim>, c: CallId, t: Task) {
    && (t.Claiming() ==> c !in issued && c !in lost)
    && (t.Won? ==> t.claim.attempt == c)
    && (t.Releasing() ==> t.claim.attempt in issued && issued[t.claim.attempt] == t.claim)
    && (t.Adopting? ==> t.raw.doc.Owned? && t.raw.doc.binding == t.binding)
    && (t.Dropping? ==> t.raw.doc.Owned? && t.raw.doc.binding == t.claim.binding)
  }

  ghost predicate WellFormed(s: State) {
    && s.removed <= s.issued.Keys <= s.tasks.Keys
    && s.lost.Keys <= s.tasks.Keys
    && s.issued.Keys !! s.lost.Keys
    && (forall a :: a in s.issued ==> s.issued[a].attempt == a)
    && (forall a :: a in s.lost ==> s.lost[a].attempt == a)
    && (forall c :: c in s.tasks ==> TaskOk(s.issued, s.lost, c, s.tasks[c]))
  }

  ghost predicate AllHeld(s: State) {
    forall a: CallId, claim :: Outstanding(s, a, claim) && (claim.key, a) !in s.orphaned ==> Held(s, claim)
  }

  /** What a step of a call leaves of the histories. */
  ghost predicate StepHistories(s: State, s': State, c: CallId)
    requires c in s.tasks
  {
    var t := s.tasks[c];
    && c in s'.tasks && s'.tasks == s.tasks[c := s'.tasks[c]]
    && s'.issued == (if t.Won? then s.issued[c := t.claim] else s.issued)
    && s'.lost == s.lost && s.removed <= s'.removed
    && s'.removed <= s.removed + (if t.Dropping? then {t.claim.attempt} else {})
    && (s'.store == s.store || t.Inserting? || t.Adopting? || t.Dropping?)
    && (!t.Inserting? && !t.Adopting? ==> !s'.tasks[c].Won?)
    && (!t.Releasing() ==> !s'.tasks[c].Releasing() && s'.removed == s.removed)
  }

  lemma WriterHistories(s: State, c: CallId)
    requires c in s.tasks && (s.tasks[c].Inserting? || s.tasks[c].Adopting?)
    ensures StepHistories(s, Advance(s, c), c)
  {
    hide RetryClaim, Stored;
  }

  lemma DropperHistories(s: State, c: CallId)
    requires c in s.tasks && s.tasks[c].Dropping?
    ensures StepHistories(s, Advance(s, c), c)
  {
    hide RetryRelease, Stored, Remaining, Without, Orphans;
  }

  lemma ReaderHistories(s: State, c: CallId)
    requires c in s.tasks && !s.tasks[c].Inserting? && !s.tasks[c].Adopting? && !s.tasks[c].Dropping?
    ensures StepHistories(s, Advance(s, c), c)
  {
    hide AfterRead, AfterCheck;
    var t, s' := s.tasks[c], Advance(s, c);
    assert t.Finished? || t.Raised? ==> s' == s;
    assert s'.tasks == s.tasks[c := s'.tasks[c]];
  }

  lemma AdvanceHistories(s: State, c: CallId)
    requires c in s.tasks
    ensures StepHistories(s, Advance(s, c), c)
  {
    hide Advance, StepHistories;
    if s.tasks[c].Inserting? || s.tasks[c].Adopting? {
      WriterHistories(s, c);
    } else if s.tasks[c].Dropping? {
      DropperHistories(s, c);
    } else {
      ReaderHistories(s, c);
    }
  }

  /** Only a claim's return, and its loss, change the claim histories. */
  lemma HistoriesAfter(s: State, a: Action)
    requires Enabled(s, a)
    ensures
      var s' := Apply(s, a);
      && s'.issued == (if a.DoAdvance? && s.tasks[a.call].Won?
                       then s.issued[a.call := s.tasks[a.call].claim] else s.issued)
      && s'.lost == (if a.DoAbandon? && s.tasks[a.call].Won?
                     then s.lost[a.call := s.tasks[a.call].claim] else s.lost)
      && s.removed <= s'.removed
      && s'.tasks == if a.DoExpire? then s.tasks else s.tasks[a.call := s'.tasks[a.call]]
  {
    hide Advance;
    if a.DoAdvance? {
      AdvanceHistories(s, a.call);
    }
  }

  lemma AdvanceKeepsTaskOk(s: State, c: CallId)
    requires WellFormed(s) && c in s.tasks
    ensures TaskOk(Advance(s, c).issued, Advance(s, c).lost, c, Advance(s, c).tasks[c])
  {
    var s', t := Advance(s, c), s.tasks[c];
    assert TaskOk(s.issued, s.lost, c, t);
    AdvanceHistories(s, c);
    if t.Adopting? {
    } else if t.Dropping? {
    } else if t.Reading? {
    } else if t.Checking? {
    } else {
    }
  }

  lemma AdvanceKeepsWellFormed(s: State, c: CallId)
    requires WellFormed(s) && c in s.tasks
    ensures WellFormed(Advance(s, c))
  {
    hide Advance;
    var s', t := Advance(s, c), s.tasks[c];
    assert TaskOk(s.issued, s.lost, c, t);
    AdvanceHistories(s, c);
    forall d | d in s'.tasks
      ensures TaskOk(s'.issued, s'.lost, d, s'.tasks[d])
    {
      if d == c {
        AdvanceKeepsTaskOk(s, c);
      } else {
        assert TaskOk(s.issued, s.lost, d, s.tasks[d]);
      }
    }
  }

  lemma StepKeepsWellFormed(s: State, a: Action)
    requires WellFormed(s) && Enabled(s, a)
    ensures WellFormed(Apply(s, a))
  {
    if a.DoAdvance? {
      AdvanceKeepsWellFormed(s, a.call);
    } else {
      var s' := Apply(s, a);
      forall d | d in s'.tasks
        ensures TaskOk(s'.issued, s'.lost, d, s'.tasks[d])
      {
        assert d in s.tasks ==> TaskOk(s.issued, s.lost, d, s.tasks[d]);
      }
    }
  }

  lemma AdvanceWins(s: State, c: CallId)
    requires c in s.tasks && !s.tasks[c].Won? && TaskOk(s.issued, s.lost, c, s.tasks[c])
    ensures var s' := Advance(s, c);
            c in s'.tasks && (s'.tasks[c].Won? ==> s'.tasks[c].claim.attempt == c && Held(s', s'.tasks[c].claim))
  {
    hide AfterRead, AfterCheck, RetryClaim, RetryRelease, Remaining, Without;
    var t := s.tasks[c];
    if !t.Inserting? && !t.Adopting? {
      AdvanceHistories(s, c);
    }
  }

  /** The outstanding claims after a step: those before it, but the one removed, and the one won. */
  lemma OutstandingAfter(s: State, a: Action, x: CallId, claim: Claim)
    requires WellFormed(s) && Enabled(s, a) && Outstanding(Apply(s, a), x, claim)
    ensures claim.attempt == x
    ensures Outstanding(s, x, claim) || (a == DoAdvance(x) && Held(Apply(s, a), claim))
  {
    hide Advance;
    HistoriesAfter(s, a);
    assert x in s.tasks ==> TaskOk(s.issued, s.lost, x, s.tasks[x]);
    if a == DoAdvance(x) && Apply(s, a).tasks[x] == Won(claim) {
      AdvanceHistories(s, x);
      AdvanceWins(s, x);
    }
  }

  lemma StepKeepsHeld(s: State, a: Action)
    requires WellFormed(s) && AllHeld(s) && Enabled(s, a)
    ensures AllHeld(Apply(s, a))
  {
    var s' := Apply(s, a);
    forall x: CallId, claim | Outstanding(s', x, claim) && (claim.key, x) !in s'.orphaned
      ensures Held(s', claim)
    {
      OutstandingAfter(s, a, x, claim);
      if Outstanding(s, x, claim) && !(a == DoAdvance(x) && Held(s', claim)) {
        assert x in s.tasks ==> TaskOk(s.issued, s.lost, x, s.tasks[x]);
        if (claim.key, x) in s.orphaned {
          OrphansGrow(s, a, x, claim.key);
          assert false;
        }
        hide Apply, Outstanding, Held;
        StaysHeld(s, a, x, claim);
      }
    }
  }

  /** An attempt is no longer an orphan only if its own call has just won a claim. */
  lemma OrphansGrow(s: State, a: Action, x: CallId, k: Key)
    requires Enabled(s, a) && (k, x) in s.orphaned && (k, x) !in Apply(s, a).orphaned
    ensures a == DoAdvance(x) && (s.tasks[x].Inserting? || s.tasks[x].Adopting?)
  {
    hide AfterRead, AfterCheck, RetryClaim, RetryRelease, Without, Remaining, Stored;
  }

  /** A claim that is held stays held, unless the step orphans or removes it. */
  lemma StaysHeld(s: State, a: Action, x: CallId, claim: Claim)
    requires WellFormed(s) && Held(s, claim) && Enabled(s, a) && (claim.key, x) !in Apply(s, a).orphaned
    requires Outstanding(s, x, claim) && Outstanding(Apply(s, a), x, claim) && claim.attempt == x
    ensures Held(Apply(s, a), claim)
  {
    hide Advance;
    if a.DoAdvance? {
      AdvanceHistories(s, a.call);
      var t := s.tasks[a.call];
      assert TaskOk(s.issued, s.lost, a.call, t);
      if t.Dropping? {
        DropStaysHeld(s, a.call, x, claim);
      } else if t.Inserting? || t.Adopting? {
        ClaimStaysHeld(s, a.call, claim);
      }
    }
  }

  lemma ClaimStaysHeld(s: State, c: CallId, claim: Claim)
    requires c in s.tasks && TaskOk(s.issued, s.lost, c, s.tasks[c]) && Held(s, claim)
    requires s.tasks[c].Inserting? || s.tasks[c].Adopting?
    ensures Held(Advance(s, c), claim)
  {
  }

  lemma DropStaysHeld(s: State, c: CallId, x: CallId, claim: Claim)
    requires WellFormed(s) && c in s.tasks && s.tasks[c].Dropping? && Held(s, claim) && claim.attempt == x
    requires Outstanding(s, x, claim) && Outstanding(Advance(s, c), x, claim) && (claim.key, x) !in Advance(s, c).orphaned
    ensures Held(Advance(s, c), claim)
  {
  }

  lemma {:induction false} RunKeepsHeld(run: seq<State>, acts: seq<Action>, i: nat)
    requires IsRun(run, acts) && i < |run|
    ensures WellFormed(run[i]) && AllHeld(run[i])
  {
    if i > 0 {
      RunKeepsHeld(run, acts, i - 1);
      StepKeepsWellFormed(run[i - 1], acts[i - 1]);
      StepKeepsHeld(run[i - 1], acts[i - 1]);
    }
  }

  /**
   Challenge admission: in every reachable state, every returned claim that its release has not
   removed is listed under its own binding, so all holders of one challenge key hold the same
   transaction hash, payer, currency and amount. The only exception are attempts that the record
   listed when it expired or was reset; claims won afterwards are held again.
   */
  lemma HoldersAgree(run: seq<State>, acts: seq<Action>, i: nat, a: CallId, b: CallId)
    requires IsRun(run, acts) && i < |run|
    requires a in run[i].issued && a !in run[i].removed
    requires b in run[i].issued && b !in run[i].removed
    requires run[i].issued[a].key == run[i].issued[b].key
    requires (run[i].issued[a].key, a) !in run[i].orphaned && (run[i].issued[b].key, b) !in run[i].orphaned
    ensures Held(run[i], run[i].issued[a]) && Held(run[i], run[i].issued[b])
    ensures run[i].issued[a].binding == run[i].issued[b].binding
  {
    RunKeepsHeld(run, acts, i);
    assert Outstanding(run[i], a, run[i].issued[a]);
    assert Outstanding(run[i], b, run[i].issued[b]);
  }

  /**
   Exactly when a reset breaks another holder: a reset that writes takes the record away from a
   claim that held it if and only if the record lists an attempt besides its own, under its
   binding, whose claim is outstanding.
   */
  lemma ResetBreaksExactly(s: State, c: CallId)
    requires WellFormed(s) && c in s.tasks && s.tasks[c].Dropping? && s.tasks[c].reset
    requires Lookup(s.store, s.tasks[c].claim.key) == Some(s.tasks[c].raw)
    ensures
      var k, own, s' := s.tasks[c].claim.key, s.tasks[c].claim.attempt, Advance(s, c);
      (exists a, claim :: Outstanding(s', a, claim) && claim.key == k && Held(s, claim) && !Held(s', claim))
      <==> (exists a, claim :: Outstanding(s, a, claim) && claim.key == k && a != own && Held(s, claim))
  {
    var t, s' := s.tasks[c], Advance(s, c);
    var k, own := t.claim.key, t.claim.attempt;
    assert TaskOk(s.issued, s.lost, c, t);
    assert s' == Drop(s, c) && k !in s'.store && own in s'.removed;
    AdvanceHistories(s, c);
    hide Advance, Drop;
    if a, claim :| Outstanding(s', a, claim) && claim.key == k && Held(s, claim) && !Held(s', claim) {
      OutstandingAfter(s, DoAdvance(c), a, claim);
      assert a in s.tasks ==> TaskOk(s.issued, s.lost, a, s.tasks[a]);
      assert a != own;
    }
    if a, claim :| Outstanding(s, a, claim) && claim.key == k && a != own && Held(s, claim) {
      assert a in s.tasks ==> TaskOk(s.issued, s.lost, a, s.tasks[a]);
      assert Outstanding(s', a, claim);
    }
  }

  // ---------- The record lists no one else ----------

  ghost predicate OutstandingOn(s: State, a: CallId, k: Key) {
    exists claim :: Outstanding(s, a, claim) && claim.key == k
  }

  /** The attempt's claim on the key is outstanding, and its record was not taken from it. */
  ghost predicate CurrentOn(s: State, a: CallId, k: Key) {
    OutstandingOn(s, a, k) && (k, a) !in s.orphaned
  }

  ghost predicate ListsOnlyOutstanding(s: State, k: Key) {
    k in s.store ==>
      var doc := s.store[k].doc;
      && doc.Owned? && doc.attempts.Some? && doc.retained.Some?
      && (doc.attempts.value != [] || doc.retained.value)
      && (doc.retained.value ==> k in s.marked)
      && forall a :: a in doc.attempts.value ==> CurrentOn(s, a, k)
  }

  lemma StaysOutstanding(s: State, a: Action, x: CallId, k: Key)
    requires WellFormed(s) && Enabled(s, a) && OutstandingOn(s, x, k) && x !in Apply(s, a).removed
    ensures OutstandingOn(Apply(s, a), x, k)
  {
    var claim :| Outstanding(s, x, claim) && claim.key == k;
    HistoriesAfter(s, a);
    var s' := Apply(s, a);
    assert x in s.tasks ==> TaskOk(s.issued, s.lost, x, s.tasks[x]);
    if x in s.tasks && s.tasks[x] == Won(claim) {
      if a == DoAdvance(x) {
        assert s'.issued[x] == claim;
      } else if a == DoAbandon(x) {
        assert s'.lost[x] == claim;
      } else {
        assert s'.tasks[x] == s.tasks[x];
      }
    }
    assert Outstanding(s', x, claim);
  }

  /** Attempts of a key are orphaned, and its mark forgotten, only together with its record. */
  lemma OrphanedWithRecord(s: State, a: Action, x: CallId, k: Key)
    requires Enabled(s, a) && k in Apply(s, a).store
    ensures (k, x) in Apply(s, a).orphaned ==> (k, x) in s.orphaned
    ensures k in s.marked ==> k in Apply(s, a).marked
  {
    if a.DoAdvance? {
      OrphanedByStep(s, a.call, x, k);
      hide Advance;
    } else {
      hide Advance;
    }
  }

  lemma OrphanedByStep(s: State, c: CallId, x: CallId, k: Key)
    requires c in s.tasks && k in Advance(s, c).store
    ensures (k, x) in Advance(s, c).orphaned ==> (k, x) in s.orphaned
    ensures k in s.marked ==> k in Advance(s, c).marked
  {
    if s.tasks[c].Dropping? {
      OrphanedByDrop(s, c, x, k);
      hide Advance;
    } else {
      hide AfterRead, AfterCheck, RetryClaim, RetryRelease, Drop, Written, Stored;
    }
  }

  lemma OrphanedByDrop(s: State, c: CallId, x: CallId, k: Key)
    requires c in s.tasks && s.tasks[c].Dropping? && k in Advance(s, c).store
    ensures (k, x) in Advance(s, c).orphaned ==> (k, x) in s.orphaned
    ensures k in s.marked ==> k in Advance(s, c).marked
  {
    hide AfterRead, AfterCheck, RetryClaim, RetryRelease, Without;
  }

  /** How the record under `k` may change: it goes, it stays, or a claim or a release rewrote it. */
  lemma RecordAfter(s: State, a: Action, k: Key)
    requires WellFormed(s) && Enabled(s, a) && k in Apply(s, a).store
    requires k !in s.store || Apply(s, a).store[k] != s.store[k]
    ensures a.DoAdvance?
    ensures
      var t, t' := s.tasks[a.call], Apply(s, a).tasks[a.call];
      if t.Dropping? then t.claim.key == k && Lookup(s.store, k) == Some(t.raw) && t.raw.doc.Owned?
      else (t.Inserting? || t.Adopting?) && t'.Won? && t'.claim.key == k
  {
    if a.DoAdvance? {
      AdvanceHistories(s, a.call);
      assert TaskOk(s.issued, s.lost, a.call, s.tasks[a.call]);
    }
  }

  /** A removal by release of `x`'s own claim is what makes `x` removed. */
  lemma RemovedAfter(s: State, a: Action, x: CallId)
    requires WellFormed(s) && Enabled(s, a) && x in Apply(s, a).removed && x !in s.removed
    ensures a.DoAdvance? && s.tasks[a.call].Dropping? && s.tasks[a.call].claim.attempt == x
    ensures var t := s.tasks[a.call]; Lookup(s.store, t.claim.key) == Some(t.raw)
    ensures s.tasks[a.call].claim == s.issued[x]
  {
    assert a.DoAdvance? ==> TaskOk(s.issued, s.lost, a.call, s.tasks[a.call]);
  }

  lemma RemovedMeansUnlisted(s: State, a: Action, x: CallId, k: Key)
    requires WellFormed(s) && Enabled(s, a) && OutstandingOn(s, x, k) && x in Apply(s, a).removed
    ensures k in Apply(s, a).store ==>
      var doc := Apply(s, a).store[k].doc; doc.Owned? && x !in doc.Attempts()
  {
    var claim :| Outstanding(s, x, claim) && claim.key == k;
    assert x in s.tasks ==> TaskOk(s.issued, s.lost, x, s.tasks[x]);
    assert x !in s.removed;
    RemovedAfter(s, a, x);
    assert TaskOk(s.issued, s.lost, a.call, s.tasks[a.call]);
    assert Apply(s, a) == Drop(s, a.call);
  }

  lemma UntouchedKeepsListing(s: State, a: Action, k: Key)
    requires WellFormed(s) && Enabled(s, a) && ListsOnlyOutstanding(s, k)
    requires k in s.store && k in Apply(s, a).store && Apply(s, a).store[k] == s.store[k]
    ensures ListsOnlyOutstanding(Apply(s, a), k)
  {
    hide Apply;
    var s' := Apply(s, a);
    forall x | x in s'.store[k].doc.attempts.value
      ensures CurrentOn(s', x, k)
    {
      assert CurrentOn(s, x, k);
      StaysCurrent(s, a, x, k);
    }
    OrphanedWithRecord(s, a, 0, k);
  }

  /** A listed attempt stays current as long as the record lists it. */
  lemma StaysCurrent(s: State, a: Action, x: CallId, k: Key)
    requires WellFormed(s) && Enabled(s, a) && CurrentOn(s, x, k) && k in Apply(s, a).store
    requires var doc := Apply(s, a).store[k].doc; doc.Owned? && x in doc.Attempts()
    ensures CurrentOn(Apply(s, a), x, k)
  {
    if x in Apply(s, a).removed {
      RemovedMeansUnlisted(s, a, x, k);
    }
    StaysOutstanding(s, a, x, k);
    OrphanedWithRecord(s, a, x, k);
  }

  lemma DropKeepsListing(s: State, c: CallId, k: Key)
    requires WellFormed(s) && c in s.tasks && ListsOnlyOutstanding(s, k)
    requires s.tasks[c].Dropping? && s.tasks[c].claim.key == k && s.tasks[c].raw.doc.Owned?
    requires Lookup(s.store, k) == Some(s.tasks[c].raw)
    ensures ListsOnlyOutstanding(Advance(s, c), k)
  {
    var s', t := Advance(s, c), s.tasks[c];
    assert s' == Drop(s, c);
    if k in s'.store {
      forall x | x in s'.store[k].doc.attempts.value
        ensures CurrentOn(s', x, k)
      {
        assert x in t.raw.doc.attempts.value && CurrentOn(s, x, k);
        StaysCurrent(s, DoAdvance(c), x, k);
      }
      OrphanedWithRecord(s, DoAdvance(c), 0, k);
    }
  }

  lemma ClaimKeepsListing(s: State, c: CallId, k: Key)
    requires WellFormed(s) && c in s.tasks && ListsOnlyOutstanding(s, k)
    requires s.tasks[c].Inserting? || s.tasks[c].Adopting?
    requires Advance(s, c).tasks[c].Won? && Advance(s, c).tasks[c].claim.key == k
    ensures ListsOnlyOutstanding(Advance(s, c), k)
  {
    var s', t := Advance(s, c), s.tasks[c];
    assert Outstanding(s', c, s'.tasks[c].claim);
    assert k in s'.store && (k, c) !in s'.orphaned;
    OrphanedWithRecord(s, DoAdvance(c), 0, k);
    forall x | x in s'.store[k].doc.attempts.value
      ensures CurrentOn(s', x, k)
    {
      if x != c {
        assert t.Adopting? && x in s.store[k].doc.attempts.value;
        StaysCurrent(s, DoAdvance(c), x, k);
      }
    }
  }

  lemma StepKeepsListing(s: State, a: Action, k: Key)
    requires WellFormed(s) && Enabled(s, a) && ListsOnlyOutstanding(s, k)
    ensures ListsOnlyOutstanding(Apply(s, a), k)
  {
    var s' := Apply(s, a);
    if k in s'.store {
      if k in s.store && s'.store[k] == s.store[k] {
        UntouchedKeepsListing(s, a, k);
      } else {
        RecordAfter(s, a, k);
        if s.tasks[a.call].Dropping? {
          DropKeepsListing(s, a.call, k);
        } else {
          ClaimKeepsListing(s, a.call, k);
        }
      }
    }
  }

  lemma {:induction false} RunKeepsListing(run: seq<State>, acts: seq<Action>, i: nat, k: Key)
    requires IsRun(run, acts) && i < |run| && k !in run[0].store
    ensures ListsOnlyOutstanding(run[i], k)
  {
    if i > 0 {
      RunKeepsListing(run, acts, i - 1, k);
      RunKeepsHeld(run, acts, i - 1);
      StepKeepsListing(run[i - 1], acts[i - 1], k);
    }
  }

  /**
   A key that this run first wrote lists only outstanding attempts, so a released attempt never
   lingers; and while no retaining release has marked its record, it is bound exactly as long as
   some claim that won it since it last expired or was reset is outstanding.
   */
  lemma BoundExactlyWhileOutstanding(run: seq<State>, acts: seq<Action>, i: nat, k: Key)
    requires IsRun(run, acts) && i < |run| && k !in run[0].store
    ensures ListsOnlyOutstanding(run[i], k)
    ensures k !in run[i].marked ==> (k in run[i].store <==> exists a :: CurrentOn(run[i], a, k))
  {
    RunKeepsListing(run, acts, i, k);
    RunKeepsHeld(run, acts, i);
    if k !in run[i].marked && k in run[i].store {
      assert CurrentOn(run[i], run[i].store[k].doc.attempts.value[0], k);
    }
  }

  // ---------- Retention ----------

  ghost predicate BoundForGood(s: State, k: Key, b: Binding) {
    k in s.store && s.store[k].doc.Owned? && s.store[k].doc.binding == b && s.store[k].doc.Retained()
  }

  /** The only changes that may unbind a retained record. */
  ghost predicate Clears(ch: Change, k: Key) {
    ch.key == k && (ch.kind.Reset? || ch.kind.Expiry?)
  }

  lemma LogAfter(s: State, a: Action)
    requires Enabled(s, a)
    ensures s.log <= Apply(s, a).log
    ensures |Apply(s, a).log| <= |s.log| + 1
  {
  }

  lemma {:induction false} LogGrows(run: seq<State>, acts: seq<Action>, i: nat, j: nat)
    requires IsPath(run, acts) && i <= j < |run|
    ensures run[i].log <= run[j].log
  {
    hide Apply;
    if i < j {
      LogGrows(run, acts, i, j - 1);
      LogAfter(run[j - 1], acts[j - 1]);
    }
  }

  /** A retaining release that removes its attempt leaves the record bound for good. */
  lemma RetainingReleaseBinds(s: State, c: CallId)
    requires WellFormed(s) && c in s.tasks && s.tasks[c].Dropping?
    requires s.tasks[c].retain && !s.tasks[c].reset
    requires s.tasks[c].claim.attempt !in s.removed
    requires s.tasks[c].claim.attempt in Advance(s, c).removed
    ensures BoundForGood(Advance(s, c), s.tasks[c].claim.key, s.tasks[c].claim.binding)
  {
  }

  ghost predicate OnlyWonBefore(s: State, s': State, k: Key, b: Binding) {
    forall c :: c in s'.tasks && s'.tasks[c].Won? && s'.tasks[c].claim.key == k && s'.tasks[c].claim.binding != b
                ==> c in s.tasks && s.tasks[c] == s'.tasks[c]
  }

  ghost predicate OthersRefused(s: State, k: Key, b: Binding) {
    forall c :: c in s.tasks && s.tasks[c].Reading? && s.tasks[c].key == k && s.tasks[c].binding != b
                ==> Advance(s, c).tasks[c] == Raised(Replayed)
  }

  ghost predicate KeptBound(s: State, s': State, k: Key, b: Binding) {
    (|s'.log| > |s.log| ==> !Clears(s'.log[|s.log|], k)) ==> BoundForGood(s', k, b)
  }

  lemma AdvanceKeepsBound(s: State, c: CallId, k: Key, b: Binding)
    requires WellFormed(s) && c in s.tasks && BoundForGood(s, k, b)
    ensures KeptBound(s, Advance(s, c), k, b)
    ensures var t' := Advance(s, c).tasks[c];
            t'.Won? && t'.claim.key == k && t'.claim.binding != b ==> s.tasks[c] == t'
  {
  }

  lemma StepKeepsBound(s: State, a: Action, k: Key, b: Binding)
    requires WellFormed(s) && Enabled(s, a) && BoundForGood(s, k, b)
    ensures KeptBound(s, Apply(s, a), k, b)
    ensures OnlyWonBefore(s, Apply(s, a), k, b)
  {
    HistoriesAfter(s, a);
    if a.DoAdvance? {
      AdvanceKeepsBound(s, a.call, k, b);
    }
  }

  lemma BoundRefusesOthers(s: State, k: Key, b: Binding)
    requires BoundForGood(s, k, b)
    ensures OthersRefused(s, k, b)
  {
  }

  lemma OnlyWonBeforeChains(s: State, m: State, s': State, k: Key, b: Binding)
    requires OnlyWonBefore(s, m, k, b) && OnlyWonBefore(m, s', k, b)
    ensures OnlyWonBefore(s, s', k, b)
  {
  }

  /** No change of `k` logged between two states of a run expires or resets it. */
  ghost predicate NotClearedBetween(s: State, s': State, k: Key) {
    forall n :: |s.log| <= n < |s'.log| ==> !Clears(s'.log[n], k)
  }

  lemma NotClearedEarlier(s: State, m: State, s': State, k: Key)
    requires s.log <= m.log <= s'.log && NotClearedBetween(s, s', k)
    ensures NotClearedBetween(s, m, k)
    ensures |s'.log| > |m.log| ==> !Clears(s'.log[|m.log|], k)
  {
  }

  lemma {:induction false} StaysBound(
    run: seq<State>, acts: seq<Action>, i: nat, j: nat, k: Key, b: Binding)
    requires IsRun(run, acts) && i <= j < |run| && BoundForGood(run[i], k, b)
    requires NotClearedBetween(run[i], run[j], k)
    ensures BoundForGood(run[j], k, b)
    decreases j
  {
    hide Apply, Enabled;
    if i < j {
      LogGrows(run, acts, i, j - 1);
      LogGrows(run, acts, j - 1, j);
      NotClearedEarlier(run[i], run[j - 1], run[j], k);
      StaysBound(run, acts, i, j - 1, k, b);
      RunKeepsHeld(run, acts, j - 1);
      StepKeepsBound(run[j - 1], acts[j - 1], k, b);
    }
  }

  lemma {:induction false} NoOtherWins(
    run: seq<State>, acts: seq<Action>, i: nat, j: nat, k: Key, b: Binding)
    requires IsRun(run, acts) && i <= j < |run| && BoundForGood(run[i], k, b)
    requires NotClearedBetween(run[i], run[j], k)
    ensures OnlyWonBefore(run[i], run[j], k, b)
    decreases j
  {
    hide Apply, Enabled;
    if i < j {
      LogGrows(run, acts, i, j - 1);
      LogGrows(run, acts, j - 1, j);
      NotClearedEarlier(run[i], run[j - 1], run[j], k);
      NoOtherWins(run, acts, i, j - 1, k, b);
      StaysBound(run, acts, i, j - 1, k, b);
      RunKeepsHeld(run, acts, j - 1);
      StepKeepsBound(run[j - 1], acts[j - 1], k, b);
      OnlyWonBeforeChains(run[i], run[j - 1], run[j], k, b);
    }
  }

  /**
   Retention is permanent: from a state bound for good, without expiry or reset of that key,
   the record stays bound to the same transaction; no call with another binding wins it; and
   any such call that reads it is refused.
   */
  lemma RetainedForever(run: seq<State>, acts: seq<Action>, i: nat, j: nat, k: Key, b: Binding)
    requires IsRun(run, acts) && i <= j < |run| && BoundForGood(run[i], k, b)
    requires NotClearedBetween(run[i], run[j], k)
    ensures BoundForGood(run[j], k, b)
    ensures OnlyWonBefore(run[i], run[j], k, b)
    ensures OthersRefused(run[j], k, b)
  {
    StaysBound(run, acts, i, j, k, b);
    NoOtherWins(run, acts, i, j, k, b);
    BoundRefusesOthers(run[j], k, b);
  }

  // ---------- Contention ----------

  /** How many changes of `k` since log position `since` were not made by call `c`. */
  function OthersSince(log: seq<Change>, since: nat, k: Key, c: CallId): nat {
    if |log| <= since then 0
    else
      var last := log[|log| - 1];
      OthersSince(log[..|log| - 1], since, k, c)
      + (if last.key == k && last.writer != Some(c) then 1 else 0)
  }

  lemma OthersSinceAppend(log: seq<Change>, ch: Change, since: nat, k: Key, c: CallId)
    requires since <= |log|
    ensures OthersSince(log + [ch], since, k, c)
            == OthersSince(log, since, k, c) + (if ch.key == k && ch.writer != Some(c) then 1 else 0)
  {
  }

  /** Each failed try of a running call is paid for by a change that someone else made. */
  ghost predicate Paid(s: State, c: CallId, t: Task) {
    match t
    case Inserting(k, _, since, tries) =>
      since <= |s.log| && tries < MAX_TRIES && tries <= OthersSince(s.log, since, k, c)
    case Reading(k, _, since, tries) =>
      since <= |s.log| && tries < MAX_TRIES
      && tries + (if k in s.store then 0 else 1) <= OthersSince(s.log, since, k, c)
    case Adopting(k, _, since, tries, raw) =>
      since <= |s.log| && tries < MAX_TRIES && raw.doc.Owned?
      && tries + (if Lookup(s.store, k) == Some(raw) then 0 else 1) <= OthersSince(s.log, since, k, c)
    case Checking(claim, _, _, since, tries) =>
      since <= |s.log| && tries < MAX_TRIES && tries <= OthersSince(s.log, since, claim.key, c)
    case Dropping(claim, _, _, since, tries, raw) =>
      since <= |s.log| && tries < MAX_TRIES && raw.doc.Owned?
      && tries + (if Lookup(s.store, claim.key) == Some(raw) then 0 else 1)
         <= OthersSince(s.log, since, claim.key, c)
    case Raised(Contention(k, since)) =>
      since <= |s.log| && OthersSince(s.log, since, k, c) >= MAX_TRIES
    case _ => true
  }

  function SubjectOf(t: Task): Option<(Key, nat)> {
    match t
    case Inserting(k, _, since, _) => Some((k, since))
    case Reading(k, _, since, _) => Some((k, since))
    case Adopting(k, _, since, _, _) => Some((k, since))
    case Checking(claim, _, _, since, _) => Some((claim.key, since))
    case Dropping(claim, _, _, since, _, _) => Some((claim.key, since))
    case Raised(Contention(k, since)) => Some((k, since))
    case _ => None
  }

  /** What a step of another call, or an expiry, does to the log and the store of one key. */
  lemma ChangeIsLogged(s: State, a: Action, k: Key)
    requires Enabled(s, a)
    ensures Lookup(s.store, k) != Lookup(Apply(s, a).store, k) ==>
      && |Apply(s, a).log| == |s.log| + 1
      && Apply(s, a).log[|s.log|].key == k
      && Apply(s, a).log[|s.log|].writer == if a.DoExpire? then None else Some(a.call)
  {
    if a.DoAdvance? {
      AdvanceHistories(s, a.call);
      hide Advance;
      var t := s.tasks[a.call];
      if t.Inserting? || t.Adopting? {
        ClaimIsLogged(s, a.call, k);
      } else if t.Dropping? {
        DropIsLogged(s, a.call, k);
      }
    }
  }

  ghost predicate Logged(s: State, s': State, c: CallId, k: Key) {
    Lookup(s.store, k) != Lookup(s'.store, k) ==>
      |s'.log| == |s.log| + 1 && s'.log[|s.log|].key == k && s'.log[|s.log|].writer == Some(c)
  }

  lemma ClaimIsLogged(s: State, c: CallId, k: Key)
    requires c in s.tasks && (s.tasks[c].Inserting? || s.tasks[c].Adopting?)
    ensures Logged(s, Advance(s, c), c, k)
  {
  }

  lemma DropIsLogged(s: State, c: CallId, k: Key)
    requires c in s.tasks && s.tasks[c].Dropping?
    ensures Logged(s, Advance(s, c), c, k)
  {
  }

  lemma OthersKeepPaid(s: State, a: Action, c: CallId)
    requires Enabled(s, a) && c in s.tasks && Paid(s, c, s.tasks[c])
    requires a.DoExpire? || a.call != c
    ensures Paid(Apply(s, a), c, s.tasks[c])
  {
    hide Advance;
    var s' := Apply(s, a);
    LogAfter(s, a);
    var subject := SubjectOf(s.tasks[c]);
    if subject.Some? {
      var (k, since) := subject.value;
      ChangeIsLogged(s, a, k);
      if |s'.log| > |s.log| {
        assert s'.log == s.log + [s'.log[|s.log|]];
        OthersSinceAppend(s.log, s'.log[|s.log|], since, k, c);
      } else {
        assert s'.log == s.log;
      }
    }
  }

  lemma ClaimStepKeepsPaid(s: State, c: CallId)
    requires c in s.tasks && s.tasks[c].Claiming() && Paid(s, c, s.tasks[c])
    ensures Paid(Advance(s, c), c, Advance(s, c).tasks[c])
  {
    hide AfterCheck, RetryRelease, Remaining, OthersSince;
    var s', t := Advance(s, c), s.tasks[c];
    assert t.Reading? ==> s'.log == s.log;
  }

  lemma ReleaseStepKeepsPaid(s: State, c: CallId)
    requires c in s.tasks && s.tasks[c].Releasing() && Paid(s, c, s.tasks[c])
    ensures Paid(Advance(s, c), c, Advance(s, c).tasks[c])
  {
    hide AfterRead, RetryClaim, Remaining, OthersSince;
    var s', t := Advance(s, c), s.tasks[c];
    assert t.Checking? ==> s'.log == s.log;
  }

  lemma OwnStepKeepsPaid(s: State, c: CallId)
    requires c in s.tasks && Paid(s, c, s.tasks[c])
    ensures Paid(Advance(s, c), c, Advance(s, c).tasks[c])
  {
    if s.tasks[c].Claiming() {
      ClaimStepKeepsPaid(s, c);
    } else if s.tasks[c].Releasing() {
      ReleaseStepKeepsPaid(s, c);
    }
  }

  lemma {:induction false} RunKeepsPaid(run: seq<State>, acts: seq<Action>, i: nat)
    requires IsRun(run, acts) && i < |run|
    ensures forall c :: c in run[i].tasks ==> Paid(run[i], c, run[i].tasks[c])
  {
    if i > 0 {
      RunKeepsPaid(run, acts, i - 1);
      var s, a, s' := run[i - 1], acts[i - 1], run[i];
      HistoriesAfter(s, a);
      forall c | c in s'.tasks
        ensures Paid(s', c, s'.tasks[c])
      {
        if a == DoAdvance(c) {
          OwnStepKeepsPaid(s, c);
        } else if a.DoExpire? || a.call != c {
          OthersKeepPaid(s, a, c);
        }
      }
    }
  }

  /**
   Contention is real: a claiming or releasing call gives up only after at least a hundred
   changes of its key by others during that call.
   */
  lemma ContentionIsReal(run: seq<State>, acts: seq<Action>, i: nat, c: CallId)
    requires IsRun(run, acts) && i < |run|
    requires c in run[i].tasks && run[i].tasks[c].Raised? && run[i].tasks[c].error.Contention?
    ensures var e := run[i].tasks[c].error; OthersSince(run[i].log, e.since, e.key, c) >= 100
  {
    RunKeepsPaid(run, acts, i);
    assert Paid(run[i], c, run[i].tasks[c]);
  }

  /** How often the call has begun a try: an insertion of a claim, or a read of a release. */
  ghost function Tries(run: seq<State>, acts: seq<Action>, i: nat, c: CallId): nat
    requires |run| == |acts| + 1 && i < |run|
  {
    if i == 0 then 0
    else
      var begun := acts[i - 1] == DoAdvance(c) && c in run[i - 1].tasks
                   && (run[i - 1].tasks[c].Inserting? || run[i - 1].tasks[c].Checking?);
      Tries(run, acts, i - 1, c) + (if begun then 1 else 0)
  }

  predicate Tried(t: Task, n: nat) {
    match t
    case Inserting(_, _, _, tries) => n == tries < 100
    case Reading(_, _, _, tries) => n == tries + 1 <= 100
    case Adopting(_, _, _, tries, _) => n == tries + 1 <= 100
    case Checking(_, _, _, _, tries) => n == tries < 100
    case Dropping(_, _, _, _, tries, _) => n == tries + 1 <= 100
    case Raised(error) => n <= 100 && (error.Contention? ==> n == 100)
    case _ => n <= 100
  }

  lemma StepTries(s: State, c: CallId, n: nat)
    requires c in s.tasks && Tried(s.tasks[c], n)
    ensures var t, s' := s.tasks[c], Advance(s, c);
            c in s'.tasks && Tried(s'.tasks[c], n + (if t.Inserting? || t.Checking? then 1 else 0))
  {
    if s.tasks[c].Claiming() {
      ClaimStepTries(s, c, n);
    } else if s.tasks[c].Releasing() {
      ReleaseStepTries(s, c, n);
    }
  }

  lemma ClaimStepTries(s: State, c: CallId, n: nat)
    requires c in s.tasks && s.tasks[c].Claiming() && Tried(s.tasks[c], n)
    ensures c in Advance(s, c).tasks && Tried(Advance(s, c).tasks[c], n + (if s.tasks[c].Inserting? then 1 else 0))
  {
    hide AfterCheck, RetryRelease, Drop, Stored, Lookup;
  }

  lemma ReleaseStepTries(s: State, c: CallId, n: nat)
    requires c in s.tasks && s.tasks[c].Releasing() && Tried(s.tasks[c], n)
    ensures c in Advance(s, c).tasks && Tried(Advance(s, c).tasks[c], n + (if s.tasks[c].Checking? then 1 else 0))
  {
    hide AfterRead, RetryClaim, Remaining, Without, Stored, Lookup;
  }

  lemma StartTries(s: State, a: Action, n: nat)
    requires Enabled(s, a) && !a.DoAdvance? && !a.DoExpire? && (a.call in s.tasks ==> Tried(s.tasks[a.call], n))
    requires a.call !in s.tasks ==> n == 0
    ensures a.call in Apply(s, a).tasks && Tried(Apply(s, a).tasks[a.call], n)
  {
  }

  /** A call tries at most a hundred times, and gives up for contention only after all of them. */
  lemma {:induction false} TriesAreBounded(run: seq<State>, acts: seq<Action>, i: nat, c: CallId)
    requires IsRun(run, acts) && i < |run|
    ensures Tries(run, acts, i, c) <= 100
    ensures c !in run[i].tasks ==> Tries(run, acts, i, c) == 0
    ensures c in run[i].tasks ==> Tried(run[i].tasks[c], Tries(run, acts, i, c))
  {
    if i > 0 {
      var s, a, n := run[i - 1], acts[i - 1], Tries(run, acts, i - 1, c);
      hide Tried, Advance, StartClaim, StartRelease, Expire, Abandon;
      TriesAreBounded(run, acts, i - 1, c);
      HistoriesAfter(s, a);
      if a.DoExpire? || a.call != c {
        hide Apply;
        assert c in run[i].tasks ==> c in s.tasks && run[i].tasks[c] == s.tasks[c];
      } else if a.DoAdvance? {
        StepTries(s, c, n);
        hide Tries;
        TriedIsBounded(run[i].tasks[c], Tries(run, acts, i, c));
      } else {
        StartTries(s, a, n);
      }
    }
  }

  lemma TriedIsBounded(t: Task, n: nat)
    requires Tried(t, n)
    ensures n <= 100
  {
  }

  /** A claim names its challenge, and its key its payer. */
  predicate Named(key: Key, b: Binding) {
    key.challengeId != "" && key.payer == b.payer
  }

  predicate TaskNamed(t: Task) {
    match t
    case Inserting(key, b, _, _) => Named(key, b)
    case Reading(key, b, _, _) => Named(key, b)
    case Adopting(key, b, _, _, _) => Named(key, b)
    case Won(claim) => Named(claim.key, claim.binding)
    case _ => true
  }

  lemma StepKeepsNamed(s: State, a: Action)
    requires Enabled(s, a) && !a.DoExpire?
    requires a.call in s.tasks ==> TaskNamed(s.tasks[a.call])
    ensures a.call in Apply(s, a).tasks && TaskNamed(Apply(s, a).tasks[a.call])
  {
    if a.DoAdvance? {
      if s.tasks[a.call].Claiming() {
        ClaimStepKeepsNamed(s, a.call);
      } else {
        ReleaseStepKeepsNamed(s, a.call);
      }
    }
    hide Advance;
  }

  lemma ClaimStepKeepsNamed(s: State, c: CallId)
    requires c in s.tasks && s.tasks[c].Claiming() && TaskNamed(s.tasks[c])
    ensures c in Advance(s, c).tasks && TaskNamed(Advance(s, c).tasks[c])
  {
    hide AfterCheck, RetryRelease, Drop, Stored, Lookup, Named;
  }

  lemma ReleaseStepKeepsNamed(s: State, c: CallId)
    requires c in s.tasks && !s.tasks[c].Claiming()
    ensures c in Advance(s, c).tasks && TaskNamed(Advance(s, c).tasks[c])
  {
    hide AfterRead, RetryClaim, Remaining, Without, Stored, Lookup, Named;
  }

  /** No claim is ever returned without a challenge id. */
  lemma {:induction false} ClaimsAreNamed(run: seq<State>, acts: seq<Action>, i: nat, c: CallId)
    requires IsRun(run, acts) && i < |run|
    ensures c in run[i].tasks ==> TaskNamed(run[i].tasks[c])
    ensures c in run[i].issued ==> Named(run[i].issued[c].key, run[i].issued[c].binding)
  {
    if i > 0 {
      ClaimsAreNamed(run, acts, i - 1, c);
      HistoriesAfter(run[i - 1], acts[i - 1]);
      if !acts[i - 1].DoExpire? && acts[i - 1].call == c {
        StepKeepsNamed(run[i - 1], acts[i - 1]);
      }
      hide Apply;
    }
  }

  // ---------- What an undisturbed call does ----------

  function Step(s: State, c: CallId): (s': State)
    requires c in s.tasks
    ensures c in s'.tasks && s' == Advance(s, c)
  {
    AdvanceHistories(s, c);
    Advance(s, c)
  }

  /** Step a call `n` times in a row. */
  function Ticks(s: State, c: CallId, n: nat): (s': State)
    requires c in s.tasks
    ensures c in s'.tasks
    decreases n
  {
    if n == 0 then s else Ticks(Step(s, c), c, n - 1)
  }

  lemma {:induction false} TicksAdd(s: State, c: CallId, m: nat, n: nat)
    requires c in s.tasks
    ensures Ticks(s, c, m + n) == Ticks(Ticks(s, c, m), c, n)
    decreases m
  {
    hide Step, Advance;
    if m > 0 {
      TicksAdd(Step(s, c), c, m - 1, n);
    }
  }

  lemma OneTick(s: State, c: CallId)
    requires c in s.tasks
    ensures Ticks(s, c, 1) == Advance(s, c)
  {
    hide Advance;
    assert Ticks(Step(s, c), c, 0) == Step(s, c);
  }

  /** Two steps, one after the other. */
  lemma TwoTicks(s: State, c: CallId)
    requires c in s.tasks
    ensures c in Advance(s, c).tasks && Ticks(s, c, 2) == Advance(Advance(s, c), c)
  {
    hide Advance;
    AdvanceHistories(s, c);
    TicksAdd(s, c, 1, 1);
    OneTick(s, c);
    OneTick(Advance(s, c), c);
  }

  lemma {:induction false} WithoutIs(before: seq<CallId>, c: CallId, after: seq<CallId>)
    requires c !in before && c !in after
    ensures Without(before + [c] + after, c) == before + after
    ensures Without(after, c) == after
    decreases |before|, |after|
  {
    var attempts := before + [c] + after;
    if before == [] {
      assert attempts[1..] == after;
      if after != [] {
        WithoutIs([], c, after[1..]);
      }
    } else {
      assert attempts[1..] == before[1..] + [c] + after;
      WithoutIs(before[1..], c, after);
    }
  }

  lemma InsertStep(s: State, c: CallId)
    requires c in s.tasks && s.tasks[c].Inserting?
    ensures var k, b, s' := s.tasks[c].key, s.tasks[c].binding, Advance(s, c);
            if k in s.store
            then s' == s.(tasks := s.tasks[c := Reading(k, b, s.tasks[c].since, s.tasks[c].tries)])
            else c in s'.tasks && s'.tasks[c] == Won(Claim(k, b, c, true)) && s'.issued == s.issued
                 && s'.store == s.store[k := Written(b, [c], false)]
  {
  }

  lemma ReadStep(s: State, c: CallId)
    requires c in s.tasks && s.tasks[c].Reading? && s.tasks[c].key in s.store && s.store[s.tasks[c].key].doc.Owned?
    ensures var Reading(k, b, since, tries), s' := s.tasks[c], Advance(s, c);
            s' == s.(tasks := s.tasks[c := if s.store[k].doc.binding == b then Adopting(k, b, since, tries, s.store[k])
                                           else Raised(Replayed)])
  {
  }

  lemma AdoptStep(s: State, c: CallId)
    requires c in s.tasks && s.tasks[c].Adopting? && Lookup(s.store, s.tasks[c].key) == Some(s.tasks[c].raw)
    requires s.tasks[c].raw.doc.Owned?
    ensures var Adopting(k, b, _, _, raw), s' := s.tasks[c], Advance(s, c);
            && c in s'.tasks && s'.tasks[c] == Won(Claim(k, b, c, false)) && s'.issued == s.issued
            && s'.store == s.store[k := Written(b, raw.doc.Attempts() + [c], raw.doc.Retained())]
  {
  }

  lemma ReturnStep(s: State, c: CallId)
    requires c in s.tasks && s.tasks[c].Won?
    ensures Advance(s, c) == s.(tasks := s.tasks[c := Finished], issued := s.issued[c := s.tasks[c].claim])
  {
  }

  /** A claim of a free key creates its record, and returns the claim that says so. */
  lemma FreeKeyIsClaimed(s: State, c: CallId)
    requires c in s.tasks && s.tasks[c].Inserting? && s.tasks[c].key !in s.store
    ensures var k, b, s' := s.tasks[c].key, s.tasks[c].binding, Ticks(s, c, 2);
            && s'.issued == s.issued[c := Claim(k, b, c, true)]
            && s'.tasks[c] == Finished && s'.store == s.store[k := Written(b, [c], false)]
  {
    InsertStep(s, c);
    ReturnStep(Advance(s, c), c);
    TwoTicks(s, c);
    hide Advance;
  }

  /** A claim of a key bound to the same transaction joins its record; one bound to another is refused. */
  lemma BoundKeyIsShared(s: State, c: CallId)
    requires c in s.tasks && s.tasks[c].Inserting?
    requires s.tasks[c].key in s.store && s.store[s.tasks[c].key].doc.Owned?
    ensures var k, b := s.tasks[c].key, s.tasks[c].binding;
            var doc, s' := s.store[k].doc, Ticks(s, c, 4);
            if doc.binding != b then s'.tasks[c] == Raised(Replayed) && s'.store == s.store
            else && s'.issued == s.issued[c := Claim(k, b, c, false)]
                 && s'.store == s.store[k := Written(b, doc.Attempts() + [c], doc.retained != Some(false))]
  {
    InsertStep(s, c);
    TwoTicks(s, c);
    TicksAdd(s, c, 2, 2);
    var s2 := Ticks(s, c, 2);
    ReadStep(Advance(s, c), c);
    TwoTicks(s2, c);
    if s2.tasks[c].Adopting? {
      AdoptStep(s2, c);
      ReturnStep(Advance(s2, c), c);
    } else {
      RaisedStays(s2, c);
      RaisedStays(Advance(s2, c), c);
    }
    hide Advance;
  }

  /**
   What is not this call's to join is refused, and left as it is: as malformed what is no JSON object,
   or has its own binding and unreadable ownership; as a replay every other object with another binding.
   */
  lemma RecordsAreJudged(s: State, c: CallId)
    requires c in s.tasks && s.tasks[c].Inserting? && s.tasks[c].key in s.store
    ensures var doc, b, s' := s.store[s.tasks[c].key].doc, s.tasks[c].binding, Ticks(s, c, 2);
            && s'.store == s.store && s'.issued == s.issued && s'.log == s.log
            && (s'.tasks[c] == Raised(Malformed)
                <==> doc == NotJson || doc == NotObject || doc == BadOwnership(b))
            && (s'.tasks[c] == Raised(Replayed)
                <==> doc == ForeignBinding || ((doc.BadOwnership? || doc.Owned?) && doc.binding != b))
            && (!s'.tasks[c].Raised? ==> doc.Owned? && doc.binding == b)
  {
    InsertStep(s, c);
    TwoTicks(s, c);
    assert Advance(s, c).store == s.store;
  }

  /**
   A release leaves alone what is not its own: no record, another binding, or a list without its
   attempt; and what it cannot read is an error.
   */
  lemma ForeignRecordsAreKept(s: State, r: CallId)
    requires r in s.tasks && s.tasks[r].Checking?
    ensures var claim, s' := s.tasks[r].claim, Advance(s, r);
            var found := Lookup(s.store, claim.key);
            && r in s'.tasks && s'.store == s.store && s'.issued == s.issued && s'.removed == s.removed
            && (s'.tasks[r] == Raised(Malformed)
                <==> found.Some? && (found.value.doc == NotJson || found.value.doc == BadOwnership(claim.binding)))
            && (s'.tasks[r].Dropping?
                <==> && found.Some? && found.value.doc.Owned? && found.value.doc.binding == claim.binding
                     && found.value.doc.attempts.Some? && claim.attempt in found.value.doc.attempts.value)
            && (s'.tasks[r] == Finished || s'.tasks[r].Dropping? || s'.tasks[r] == Raised(Malformed))
  {
  }

  lemma RaisedStays(s: State, c: CallId)
    requires c in s.tasks && (s.tasks[c].Raised? || s.tasks[c].Finished?)
    ensures Advance(s, c) == s
  {
  }

  /**
   Releasing a claim listed anywhere takes out just its attempt: the others stay, in their order,
   with the retained mark; without others and without the mark, or on a reset, the record goes.
   */
  lemma ReleaseLeavesOthers(s: State, r: CallId, before: seq<CallId>, after: seq<CallId>)
    requires r in s.tasks && s.tasks[r].Checking?
    requires var claim := s.tasks[r].claim;
             && claim.key in s.store && claim.attempt !in before && claim.attempt !in after
             && var doc := s.store[claim.key].doc;
                doc.Owned? && doc.binding == claim.binding && doc.Attempts() == before + [claim.attempt] + after
    ensures var Checking(claim, retain, reset, _, _), s' := s.tasks[r], Ticks(s, r, 2);
            var retained := retain || s.store[claim.key].doc.retained != Some(false);
            && s'.tasks[r] == Finished && s'.issued == s.issued && s'.removed == s.removed + {claim.attempt}
            && s'.store == if !reset && (before + after != [] || retained)
                           then s.store[claim.key := Written(claim.binding, before + after, retained)]
                           else s.store - {claim.key}
  {
    WithoutIs(before, s.tasks[r].claim.attempt, after);
    CheckStep(s, r);
    DropStep(Advance(s, r), r);
    TwoTicks(s, r);
    hide Advance, Without;
  }

  lemma CheckStep(s: State, r: CallId)
    requires r in s.tasks && s.tasks[r].Checking?
    requires var claim := s.tasks[r].claim;
             && claim.key in s.store && s.store[claim.key].doc.Owned? && s.store[claim.key].doc.binding == claim.binding
             && claim.attempt in s.store[claim.key].doc.Attempts()
    ensures var Checking(claim, retain, reset, since, tries) := s.tasks[r];
            Advance(s, r) == s.(tasks := s.tasks[r := Dropping(claim, retain, reset, since, tries, s.store[claim.key])])
  {
  }

  lemma DropStep(s: State, r: CallId)
    requires r in s.tasks && s.tasks[r].Dropping? && s.tasks[r].raw.doc.Owned?
    requires Lookup(s.store, s.tasks[r].claim.key) == Some(s.tasks[r].raw)
    ensures var t, s' := s.tasks[r], Advance(s, r);
            && r in s'.tasks && s'.tasks[r] == Finished && s'.issued == s.issued && s'.removed == s.removed + {t.claim.attempt}
            && s'.store == Stored(s.store, t.claim.key, Remaining(t))
  {
    hide Without;
  }

  /** The state once a call has claimed, undisturbed. */
  function Claimed(s: State, c: CallId, key: Key, b: Binding): (s': State)
    requires key.challengeId != "" && key.payer == b.payer
    ensures c in s'.tasks
  {
    Ticks(StartClaim(s, c, key.realm, key.chainId, key.challengeId, b), c, if key in s.store then 4 else 2)
  }

  function Released(s: State, r: CallId, claim: Claim, retain: bool, reset: bool): (s': State)
    ensures r in s'.tasks
  {
    Ticks(StartRelease(s, r, claim, retain, reset), r, 2)
  }

  /** A claim of a free key, or of one bound to the same transaction, is returned and listed last. */
  lemma ClaimIsReturned(s: State, c: CallId, key: Key, b: Binding)
    requires key.challengeId != "" && key.payer == b.payer
    requires key in s.store ==> s.store[key].doc.Owned? && s.store[key].doc.binding == b
    ensures var s' := Claimed(s, c, key, b);
            var attempts := if key in s.store then s.store[key].doc.Attempts() else [];
            var retained := key in s.store && s.store[key].doc.retained != Some(false);
            && s'.issued == s.issued[c := Claim(key, b, c, key !in s.store)]
            && s'.store == s.store[key := Written(b, attempts + [c], retained)]
            && s'.tasks.Keys == s.tasks.Keys + {c} && s'.removed == s.removed
  {
    var s0 := StartClaim(s, c, key.realm, key.chainId, key.challengeId, b);
    assert s0.tasks[c].key == key;
    if key in s.store {
      BoundKeyIsShared(s0, c);
      ClaimTicks(s0, c, 4);
    } else {
      FreeKeyIsClaimed(s0, c);
      ClaimTicks(s0, c, 2);
      assert [] + [c] == [c];
    }
    hide Ticks;
  }

  /** The steps of a claiming call add no call and remove no attempt. */
  lemma {:induction false} ClaimTicks(s: State, c: CallId, n: nat)
    requires c in s.tasks && !s.tasks[c].Releasing()
    ensures Ticks(s, c, n).tasks.Keys == s.tasks.Keys && Ticks(s, c, n).removed == s.removed
    decreases n
  {
    hide Advance;
    if n > 0 {
      AdvanceHistories(s, c);
      ClaimTicks(Step(s, c), c, n - 1);
    }
  }

  /** Claiming and releasing undo each other: the store is as it was before the claim. */
  lemma ReleaseUndoesClaim(s: State, c: CallId, r: CallId, key: Key, b: Binding, attempts: seq<CallId>, retained: bool)
    requires key.challengeId != "" && key.payer == b.payer && c != r && c !in attempts
    requires if attempts == [] && !retained then key !in s.store
             else key in s.store && s.store[key] == Written(b, attempts, retained)
    ensures var claimed := Claimed(s, c, key, b);
            c in claimed.issued && Released(claimed, r, claimed.issued[c], false, false).store == s.store
  {
    ClaimIsReturned(s, c, key, b);
    hide Claimed, Ticks;
    var claimed := Claimed(s, c, key, b);
    ReleaseLeavesOthers(StartRelease(claimed, r, claimed.issued[c], false, false), r, attempts, []);
    assert attempts + [c] + [] == attempts + [c] && attempts + [] == attempts;
  }

  // ---------- A reset that breaks another holder ----------

  ghost predicate Reachable(s: State) {
    exists run: seq<State>, acts: seq<Action> :: IsRun(run, acts) && run[|run| - 1] == s
  }

  lemma ReachNext(s: State, a: Action)
    requires Reachable(s) && Enabled(s, a)
    ensures Reachable(Apply(s, a))
  {
    var run, acts :| IsRun(run, acts) && run[|run| - 1] == s;
    hide Apply, Enabled;
    assert IsRun(run + [Apply(s, a)], acts + [a]);
  }

  lemma {:induction false} ReachTicks(s: State, c: CallId, n: nat)
    requires Reachable(s) && c in s.tasks
    ensures Reachable(Ticks(s, c, n))
    decreases n
  {
    if n > 0 {
      ReachNext(s, DoAdvance(c));
      ReachTicks(Step(s, c), c, n - 1);
    }
  }

  const EMPTY_STORE := State(map[], map[], map[], map[], {}, {}, {}, [])

  /** Two calls share a record; a third releases the first one's claim. */
  function AfterReset(key: Key, b: Binding): State
    requires key.challengeId != "" && key.payer == b.payer
  {
    Released(Claimed(Claimed(EMPTY_STORE, 0, key, b), 1, key, b), 2, Claim(key, b, 0, true), false, true)
  }

  /**
   For every key and binding, three calls reach a state in which a claim is outstanding and its
   record gone: it was shared, and the other holder released with a reset.
   */
  lemma ResetReachesBreak(key: Key, b: Binding)
    requires key.challengeId != "" && key.payer == b.payer
    ensures var s := AfterReset(key, b);
            && Reachable(s) && 1 in s.issued && 1 !in s.removed
            && s.issued[1] == Claim(key, b, 1, false) && !Held(s, s.issued[1])
  {
    hide Reachable, Claimed, Released;
    EmptyIsReachable();
    var first := Claimed(EMPTY_STORE, 0, key, b);
    ClaimIsReached(EMPTY_STORE, 0, key, b);
    ClaimIsReturned(EMPTY_STORE, 0, key, b);
    assert [] + [0] == [0];
    var both := Claimed(first, 1, key, b);
    ClaimIsReached(first, 1, key, b);
    ClaimIsReturned(first, 1, key, b);
    assert [0] + [1] == [] + [0] + [1];
    ResetTakesRecord(both, 2, Claim(key, b, 0, true));
  }

  lemma EmptyIsReachable()
    ensures Reachable(EMPTY_STORE)
  {
    assert IsRun([EMPTY_STORE], []);
  }

  /** A reset of the claim listed first removes the record, and no other attempt. */
  lemma ResetTakesRecord(s: State, r: CallId, claim: Claim)
    requires Reachable(s) && r !in s.tasks && claim.attempt in s.issued && s.issued[claim.attempt] == claim
    requires claim.key in s.store && s.store[claim.key].doc.Owned? && s.store[claim.key].doc.binding == claim.binding
    requires claim.attempt != 1 && s.store[claim.key].doc.Attempts() == [] + [claim.attempt] + [1]
    ensures var s' := Released(s, r, claim, false, true);
            && Reachable(s') && s'.issued == s.issued && s'.removed == s.removed + {claim.attempt}
            && claim.key !in s'.store
  {
    var s1 := StartRelease(s, r, claim, false, true);
    ReachNext(s, DoStartRelease(r, claim, false, true));
    ReachTicks(s1, r, 2);
    hide Reachable, Ticks;
    ReleaseLeavesOthers(s1, r, [], [1]);
  }

  lemma ClaimIsReached(s: State, c: CallId, key: Key, b: Binding)
    requires Reachable(s) && c !in s.tasks && key.challengeId != "" && key.payer == b.payer
    ensures Reachable(Claimed(s, c, key, b))
  {
    ReachNext(s, DoStartClaim(c, key.realm, key.chainId, key.challengeId, b));
    ReachTicks(StartClaim(s, c, key.realm, key.chainId, key.challengeId, b), c, if key in s.store then 4 else 2);
  }
}
