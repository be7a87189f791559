/**
 The client's 402 retry loop. Servers, payment methods, event handlers and settle callbacks are a
 record of arbitrary answers: a request may be answered with any status or raise, a method may
 create any credential or fail, a callback may answer either way, and an exception or a
 cancellation may strike at any await but the callbacks' own. The log records what the call did,
 and a monitor that knows nothing of the loop says which logs, and which exits, are acceptable.
 */
module PaymentTransport {
  import opened Wrappers

  type AttemptId = nat

  datatype Challenge = Challenge(tag: nat, x402: bool, evmCharge: bool)

  /**
   A payable challenge with the method that pays it. `foreign`: a Tempo charge of nothing, whose
   realm is that of another host.
   */
  datatype Candidate = Candidate(challenge: Challenge, handler: nat, foreign: bool)

  /** `pushed`: it carries the hash of a transaction the client sent to the chain itself. */
  datatype Credential = Credential(tag: nat, pushed: bool)

  datatype Status = Pending | Accepted | Rejected

  datatype Event =
    | Replied(code: int)
    | Opened(attempt: AttemptId)
    | Created(attempt: AttemptId, credential: Credential, candidate: Candidate, tracked: bool)
    | NotCreated(attempt: AttemptId, tracked: bool)
    | Told(attempt: AttemptId, status: Status, settled: bool)
    | Paid(credential: Credential)

  datatype Exit = Responded(code: int) | Threw

  predicate IsSuccess(code: int) { 200 <= code < 300 }

  predicate IsRedirect(code: int) { 300 <= code < 400 }

  predicate IsServerError(code: int) { 500 <= code < 600 }

  /** The server could still redeem the credential later, so its 402 ends the call. */
  predicate Spendable(c: Challenge) { c.x402 || c.evmCharge }

  // ---------- The world ----------

  /** How a piece of work ends: `Declined` by an invalid or expired challenge, `Failed` by any other exception. */
  datatype Work = Done | Declined | Failed

  /** What a method makes of a challenge, and whether it keeps a settle callback. */
  datatype Creation = Creation(work: Work, tracked: bool, credential: Credential)

  /**
   What retry n meets, in order: the candidates of the 402 (None if reading or ordering the
   challenges raised), whether its body could be released, a credential, its encoding, the reply
   (None if the request raised), whether an error body could be buffered, and whether the event
   about the reply was handled.
   */
  datatype Retry = Retry(
    offers: Option<seq<Candidate>>,
    released: bool,
    creation: Creation,
    encoding: Work,
    reply: Option<int>,
    buffered: bool,
    handled: bool)

  /** The reply to the request as it is, every retry, and what a callback called as the log's event i answers. */
  datatype World = World(first: Option<int>, retry: nat -> Retry, answer: nat -> bool)

  /** What the client and the request fix: `allowed` is the origin, `replayable` the body. */
  datatype Terms = Terms(max: nat, crossOrigin: bool, allowed: bool, replayable: bool)

  // ---------- The monitor ----------

  /** The latest credential: whose attempt it is, what it pays, and how often it was sent. */
  datatype Current = Current(attempt: AttemptId, credential: Credential, candidate: Candidate, sends: nat)

  /**
   What the monitor remembers: the reply the call is looking at, attempts begun, the attempt whose
   credential is being created, the attempt whose callback may still be called, whether it is owed
   a final outcome, whether it was called about this reply, the latest credential, whether no other
   credential may follow it, and a credential that must be sent next.
   */
  datatype Monitor = Monitor(
    reply: Option<int>,
    begun: set<AttemptId>,
    creating: Option<AttemptId>,
    open: Option<AttemptId>,
    owed: bool,
    told: bool,
    current: Option<Current>,
    final: bool,
    due: Option<Credential>,
    sends: nat)

  const START := Monitor(None, {}, None, None, false, false, None, false, None, 0)

  /** What a 402 leads to before a credential is touched. */
  datatype Decision = Stop | Raise | Go(next: Candidate)

  function FirstLocal(offers: seq<Candidate>): Option<Candidate> {
    if offers == [] then None
    else if offers[0].foreign then FirstLocal(offers[1..])
    else Some(offers[0])
  }

  /** Candidates for other hosts are passed over, in order. */
  lemma {:induction false} FirstLocalIs(offers: seq<Candidate>)
    ensures FirstLocal(offers).None? <==> forall i :: 0 <= i < |offers| ==> offers[i].foreign
    ensures FirstLocal(offers).Some? ==>
              exists i :: && 0 <= i < |offers| && offers[i] == FirstLocal(offers).value && !offers[i].foreign
                          && forall j :: 0 <= j < i ==> offers[j].foreign
  {
    if offers != [] {
      FirstLocalIs(offers[1..]);
      if offers[0].foreign && FirstLocal(offers).Some? {
        var i :| && 0 <= i < |offers[1..]| && offers[1..][i] == FirstLocal(offers).value && !offers[1..][i].foreign
                 && forall j :: 0 <= j < i ==> offers[1..][j].foreign;
        assert offers[i + 1] == FirstLocal(offers).value;
        assert forall j :: 0 <= j < i + 1 ==> j == 0 || offers[j] == offers[1..][j - 1];
      }
    }
  }

  /** The credential a 402 answers can still be redeemed. */
  predicate SpendableSent(m: Monitor) {
    m.current.Some? && m.current.value.sends > 0 && Spendable(m.current.value.candidate.challenge)
  }

  function Decide(w: World, t: Terms, m: Monitor): Decision {
    var offers := w.retry(m.sends).offers;
    if SpendableSent(m) then Stop
    else if t.crossOrigin || offers.None? then Raise
    else if offers.value == [] then (if m.sends > 0 then Stop else Raise)
    else if !t.allowed || FirstLocal(offers.value).None? || !t.replayable || !w.retry(m.sends).released then Raise
    else Go(FirstLocal(offers.value).value)
  }

  /** The credential sent pays, by the same method, the challenge that the 402 offers next. */
  predicate Fits(w: World, t: Terms, m: Monitor) {
    && m.sends < t.max && m.current.Some? && m.current.value.sends > 0
    && var d := Decide(w, t, m);
       d.Go? && d.next.challenge == m.current.value.candidate.challenge && d.next.handler == m.current.value.candidate.handler
  }

  /**
   What a callback must be told: what the reply says, first; a rejection if it is asked again about
   that reply; and a rejection without a reply.
   */
  function MustTell(w: World, t: Terms, m: Monitor): Status {
    if m.told || m.reply.None? then Rejected
    else if m.reply == Some(402) then (if Fits(w, t, m) then Pending else Rejected)
    else if IsSuccess(m.reply.value) then Accepted
    else if IsRedirect(m.reply.value) then Pending
    else Rejected
  }

  /** A callback that settled is never called again; a rejection is final even if it did not. */
  function AfterTold(w: World, t: Terms, m: Monitor, status: Status, settled: bool): Monitor {
    var kept := m.reply == Some(402) && status == Pending && !settled && m.current.Some?;
    m.(open := if settled then None else m.open, owed := m.owed && !settled && status != Rejected, told := true,
       due := if kept && w.retry(m.sends).encoding.Done? then Some(m.current.value.credential) else m.due)
  }

  /** What the last request was answered. */
  function Reply(w: World, m: Monitor): Option<int> {
    if m.sends == 0 then w.first else w.retry(m.sends - 1).reply
  }

  /** The monitor after the log's event i; None if the event is not acceptable. */
  function Observe(w: World, t: Terms, i: nat, m: Monitor, e: Event): Option<Monitor> {
    if m.due.Some? && !e.Paid? then None
    else
      match e
      case Replied(code) =>
        if m.reply.None? && m.creating.None? && !m.told && Reply(w, m) == Some(code)
        then Some(m.(reply := Some(code))) else None
      case Opened(a) =>
        if m.reply == Some(402) && m.sends < t.max && Decide(w, t, m).Go? && a !in m.begun
           && m.creating.None? && !m.owed && !m.final
        then Some(m.(begun := m.begun + {a}, creating := Some(a), open := None, current := None, told := false)) else None
      case Created(a, credential, candidate, tracked) =>
        var made := w.retry(m.sends).creation;
        if m.reply == Some(402) && m.creating == Some(a) && made == Creation(Done, tracked, credential) && Decide(w, t, m) == Go(candidate)
        then Some(m.(creating := None, open := if tracked then Some(a) else None, owed := tracked,
                     current := Some(Current(a, credential, candidate, 0)),
                     due := if w.retry(m.sends).encoding.Done? then Some(credential) else None,
                     final := credential.pushed || Spendable(candidate.challenge)))
        else None
      case NotCreated(a, tracked) =>
        // No credential, and the call is about to leave.
        var made := w.retry(m.sends).creation;
        if m.reply == Some(402) && m.creating == Some(a) && !made.work.Done? && made.tracked == tracked
        then Some(m.(creating := None, open := if tracked then Some(a) else None, owed := tracked, final := true))
        else None
      case Told(a, status, settled) =>
        if m.open == Some(a) && m.creating.None? && status == MustTell(w, t, m) && settled == w.answer(i)
        then Some(AfterTold(w, t, m, status, settled)) else None
      case Paid(credential) =>
        if m.reply == Some(402) && m.creating.None? && m.due == Some(credential) && m.current.Some?
           && m.current.value.credential == credential
           && (m.current.value.sends > 0 ==>
                 m.owed && m.open == Some(m.current.value.attempt) && !Spendable(m.current.value.candidate.challenge))
        then Some(m.(reply := None, told := false, sends := m.sends + 1, due := None,
                     current := Some(m.current.value.(sends := m.current.value.sends + 1))))
        else None
  }

  function Watch(w: World, t: Terms, log: seq<Event>): Option<Monitor> {
    if log == [] then Some(START)
    else
      var m := Watch(w, t, log[..|log| - 1]);
      if m.None? then None else Observe(w, t, |log| - 1, m.value, log[|log| - 1])
  }

  lemma WatchMore(w: World, t: Terms, log: seq<Event>, e: Event)
    ensures Watch(w, t, log + [e])
            == if Watch(w, t, log).None? then None else Observe(w, t, |log|, Watch(w, t, log).value, e)
  {
    assert (log + [e])[..|log|] == log;
  }

  // ---------- Why a call leaves ----------

  /** A credential created in this retry is still unsent, or the one sent before was kept to be sent again. */
  predicate InHand(w: World, t: Terms, m: Monitor) {
    m.current.Some? && (m.current.value.sends == 0 || (Fits(w, t, m) && m.open.Some?))
  }

  /** A 402 is only handed to the caller for one of these reasons. */
  predicate IsFinal402(w: World, t: Terms, m: Monitor) {
    || m.sends == t.max
    || Decide(w, t, m).Stop?
    || (Decide(w, t, m).Go?
        && (|| (m.current.Some? && m.current.value.sends > 0 && m.current.value.credential.pushed && !InHand(w, t, m))
            || (m.current.None? && w.retry(m.sends).creation.work.Declined?)
            || (InHand(w, t, m) && w.retry(m.sends).encoding.Declined?)))
  }

  /** After this reply buffering its body, or the event about it, raised. */
  predicate Mishandled(retry: Retry, code: int) {
    || (IsServerError(code) && !(retry.buffered && retry.handled))
    || (IsSuccess(code) && !retry.handled)
  }

  /** The call only raises for one of these reasons. */
  predicate IsRaised(w: World, t: Terms, m: Monitor) {
    match m.reply
    case None => Reply(w, m).None?
    case Some(code) =>
      if code != 402 then m.sends > 0 && Mishandled(w.retry(m.sends - 1), code)
      else
        && m.sends < t.max
        && (|| Decide(w, t, m).Raise?
            || (Decide(w, t, m).Go?
                && (|| (m.current.None? && w.retry(m.sends).creation.work.Failed?)
                    || (InHand(w, t, m) && w.retry(m.sends).encoding.Failed?))))
  }

  predicate Explains(w: World, t: Terms, m: Monitor, exit: Exit) {
    match exit
    case Threw => IsRaised(w, t, m)
    case Responded(code) =>
      && m.reply == Some(code)
      && (if code == 402 then IsFinal402(w, t, m)
          else m.sends > 0 ==> !Mishandled(w.retry(m.sends - 1), code))
  }

  // ---------- The transport ----------

  class PaymentAttempt {
    const id: AttemptId
    // Whether the method's settle callback is set.
    var settle: bool

    constructor (id: AttemptId)
      ensures this.id == id && !settle
    {
      this.id := id;
      settle := false;
    }
  }

  datatype Sent = Sent(candidate: Candidate, credential: Credential, attempt: PaymentAttempt)

  /** The monitor and the transport agree on what has been sent and what is still owed. */
  ghost predicate Agree(w: World, t: Terms, log: seq<Event>, sent: Option<Sent>, code: Option<int>)
    reads if sent.Some? then {sent.value.attempt} else {}
  {
    && Watch(w, t, log).Some?
    && var m := Watch(w, t, log).value;
       && m.creating.None? && m.reply == code
       && (sent.None? ==> !m.owed)
       && (sent.Some? ==>
             && m.current.Some? && m.current.value.attempt == sent.value.attempt.id
             && m.current.value.credential == sent.value.credential
             && m.current.value.candidate == sent.value.candidate
             && m.open == (if sent.value.attempt.settle then Some(sent.value.attempt.id) else None)
             && m.owed == sent.value.attempt.settle
             && m.final == (sent.value.credential.pushed || Spendable(sent.value.candidate.challenge)))
  }

  /** Tell a callback, if there is one, what it must be told; without one the attempt settles unless it must wait. */
  method SettleAttempt(w: World, t: Terms, attempt: PaymentAttempt, status: Status, log: seq<Event>)
    returns (settled: bool, log': seq<Event>)
    requires Watch(w, t, log).Some?
    requires var m := Watch(w, t, log).value;
             && m.creating.None? && m.due.None? && m.open == (if attempt.settle then Some(attempt.id) else None)
             && (attempt.settle ==> status == MustTell(w, t, m))
    modifies attempt
    ensures old(attempt.settle) ==>
              log' == log + [Told(attempt.id, status, settled)] && settled == w.answer(|log|) && attempt.settle == !settled
    ensures !old(attempt.settle) ==> log' == log && settled == (status != Pending) && !attempt.settle
    ensures Watch(w, t, log') == Some(if old(attempt.settle) then AfterTold(w, t, Watch(w, t, log).value, status, settled)
                                      else Watch(w, t, log).value)
    ensures Watch(w, t, log').value.open == if attempt.settle then Some(attempt.id) else None
  {
    log' := log;
    if !attempt.settle {
      return status != Pending, log';
    }
    attempt.settle := false;
    settled := w.answer(|log|);
    WatchMore(w, t, log, Told(attempt.id, status, settled));
    log' := log + [Told(attempt.id, status, settled)];
    if !settled {
      attempt.settle := true;
    }
  }

  /** Tell the outcome of a paid reply that is not another 402, insisting on rejection at last. */
  method FinishAttempt(w: World, t: Terms, attempt: PaymentAttempt, code: int, log: seq<Event>)
    returns (log': seq<Event>)
    requires Watch(w, t, log).Some? && code != 402
    requires var m := Watch(w, t, log).value;
             && m.creating.None? && m.due.None? && m.reply == Some(code) && !m.told
             && m.open == (if attempt.settle then Some(attempt.id) else None) && m.owed == attempt.settle
    modifies attempt
    ensures Watch(w, t, log').Some?
    ensures var m, m' := Watch(w, t, log).value, Watch(w, t, log').value;
            m' == m.(open := m'.open, owed := false, told := m'.told)
    ensures !old(attempt.settle) ==> log' == log
    ensures old(attempt.settle) ==>
              log' == log + [Told(attempt.id, MustTell(w, t, Watch(w, t, log).value), w.answer(|log|))]
                      + (if w.answer(|log|) then [] else [Told(attempt.id, Rejected, w.answer(|log| + 1))])
  {
    var status := if IsRedirect(code) then Pending else if IsSuccess(code) then Accepted else Rejected;
    var settled;
    settled, log' := SettleAttempt(w, t, attempt, status, log);
    if !settled {
      settled, log' := SettleAttempt(w, t, attempt, Rejected, log');
    }
  }

  /** Create a credential for the candidate chosen; the method may keep a callback, decline or fail. */
  method CreateCredential(w: World, t: Terms, candidate: Candidate, id: AttemptId, log: seq<Event>)
    returns (created: Option<Sent>, log': seq<Event>)
    requires Watch(w, t, log).Some?
    requires var m := Watch(w, t, log).value;
             && m.reply == Some(402) && m.sends < t.max && Decide(w, t, m) == Go(candidate)
             && id !in m.begun && m.creating.None? && !m.owed && !m.final && m.due.None?
    ensures Watch(w, t, log').Some? && Watch(w, t, log').value.begun == Watch(w, t, log).value.begun + {id}
    ensures Agree(w, t, log', created, Some(402)) && Watch(w, t, log').value.sends == Watch(w, t, log).value.sends
    ensures var retry, m' := w.retry(Watch(w, t, log).value.sends), Watch(w, t, log').value;
            && (created.Some? <==> retry.creation.work.Done?)
            && (created.Some? ==>
                  && fresh(created.value.attempt) && created.value.candidate == candidate
                  && m'.current.value.sends == 0
                  && m'.due == (if retry.encoding.Done? then Some(created.value.credential) else None))
            && (created.None? ==> m'.current.None? && m'.due.None?)
  {
    var made := w.retry(Sends(log)).creation;
    SendsAreCounted(w, t, log);
    var attempt := new PaymentAttempt(id);
    WatchMore(w, t, log, Opened(id));
    log' := log + [Opened(id)];
    attempt.settle := made.tracked;
    if !made.work.Done? {
      WatchMore(w, t, log', NotCreated(id, made.tracked));
      log' := log' + [NotCreated(id, made.tracked)];
      // Nothing will be sent, so the method may let go.
      var _, told := SettleAttempt(w, t, attempt, Rejected, log');
      return None, told;
    }
    WatchMore(w, t, log', Created(id, made.credential, candidate, made.tracked));
    log' := log' + [Created(id, made.credential, candidate, made.tracked)];
    created := Some(Sent(candidate, made.credential, attempt));
  }

  /** Settle the previous attempt against a further 402: what remains in hand, or that 402 is final. */
  method Reconsider(w: World, t: Terms, previous: Sent, next: Candidate, log: seq<Event>)
    returns (sent: Option<Sent>, final: bool, log': seq<Event>)
    requires Agree(w, t, log, Some(previous), Some(402)) && !Spendable(previous.candidate.challenge)
    requires var m := Watch(w, t, log).value;
             && m.sends < t.max && !m.told && m.due.None? && m.current.value.sends > 0 && Decide(w, t, m) == Go(next)
    modifies previous.attempt
    ensures Agree(w, t, log', sent, Some(402)) && Watch(w, t, log').value.sends == Watch(w, t, log).value.sends
    ensures Watch(w, t, log').value.begun == Watch(w, t, log).value.begun
    ensures Watch(w, t, log').value.current == Watch(w, t, log).value.current
    ensures sent.Some? ==>
              && sent.value == previous && previous.attempt.settle && InHand(w, t, Watch(w, t, log').value)
              && Watch(w, t, log').value.told
              && Watch(w, t, log').value.due
                 == (if w.retry(Watch(w, t, log).value.sends).encoding.Done? then Some(previous.credential) else None)
    ensures sent.None? ==>
              && Watch(w, t, log').value.due.None? && !InHand(w, t, Watch(w, t, log').value)
              && final == previous.credential.pushed && (!final ==> !Watch(w, t, log').value.final)
    ensures final ==> sent.None?
  {
    // Without a callback there is no state behind the credential to fall back on.
    var same := previous.attempt.settle && previous.candidate.handler == next.handler
                && previous.candidate.challenge == next.challenge;
    var settled;
    settled, log' := SettleAttempt(w, t, previous.attempt, if same then Pending else Rejected, log);
    if same && !settled {
      return Some(previous), false, log';
    }
    // Money has moved if it was pushed, and then nothing else may be tried.
    return None, previous.credential.pushed, log';
  }

  /** Send the credential that is due and take the reply; None if the request raised or was cancelled. */
  method SendPaid(w: World, t: Terms, sent: Sent, log: seq<Event>) returns (code: Option<int>, log': seq<Event>)
    requires Agree(w, t, log, Some(sent), Some(402))
    requires Watch(w, t, log).value.due == Some(sent.credential)
    ensures Agree(w, t, log', Some(sent), code)
    ensures code == w.retry(Watch(w, t, log).value.sends).reply
    ensures var m, m' := Watch(w, t, log).value, Watch(w, t, log').value;
            && m'.sends == m.sends + 1 && m'.begun == m.begun && m'.current.value.sends > 0 && m'.due.None?
            && (code.Some? ==> !m'.told)
  {
    SendsAreCounted(w, t, log);
    code := w.retry(Sends(log)).reply;
    WatchMore(w, t, log, Paid(sent.credential));
    log' := log + [Paid(sent.credential)];
    if code.Some? {
      WatchMore(w, t, log', Replied(code.value));
      log' := log' + [Replied(code.value)];
    }
  }

  /**
   One paid retry: send the credential, and tell its outcome unless the reply is another 402. None
   if the request, buffering an error body, or an event handler raised.
   */
  method Pay(w: World, t: Terms, current: Sent, log: seq<Event>)
    returns (response: Option<int>, sent: Option<Sent>, log': seq<Event>)
    requires Agree(w, t, log, Some(current), Some(402))
    requires Watch(w, t, log).value.due == Some(current.credential)
    modifies current.attempt
    ensures Watch(w, t, log').Some? && Agree(w, t, log', sent, Watch(w, t, log').value.reply)
    ensures var n, m, m' := Watch(w, t, log).value.sends, Watch(w, t, log).value, Watch(w, t, log').value;
            && m'.sends == n + 1 && m'.begun == m.begun && m'.due.None?
            && m'.reply == w.retry(n).reply
            && (response.Some? <==> m'.reply.Some? && !Mishandled(w.retry(n), m'.reply.value))
            && (response.Some? ==> response == m'.reply && (sent.Some? <==> response == Some(402)))
            && (m'.reply == Some(402) ==> sent.Some? && m'.current.value.sends > 0 && !m'.told)
            && (sent.Some? && response.None? && m'.reply.Some? ==> IsServerError(m'.reply.value))
    ensures sent.Some? ==> sent.value == current
  {
    SendsAreCounted(w, t, log);
    var retry := w.retry(Sends(log));
    hide Watch, Observe;
    sent := Some(current);
    response, log' := SendPaid(w, t, current, log);
    if response.None? {
      return;
    }
    var code := response.value;
    if IsServerError(code) && !retry.buffered {
      return None, sent, log';
    }
    if code != 402 {
      log' := FinishAttempt(w, t, current.attempt, code, log');
      sent := None;
    }
    if (IsSuccess(code) || IsServerError(code)) && !retry.handled {
      return None, sent, log';
    }
  }

  /** How often a credential was sent. */
  function Sends(log: seq<Event>): nat {
    if log == [] then 0 else Sends(log[..|log| - 1]) + (if log[|log| - 1].Paid? then 1 else 0)
  }

  lemma {:induction false} SendsAreCounted(w: World, t: Terms, log: seq<Event>)
    requires Watch(w, t, log).Some?
    ensures Watch(w, t, log).value.sends == Sends(log)
  {
    if log != [] {
      SendsAreCounted(w, t, log[..|log| - 1]);
    }
  }

  /** What holds whenever the loop is left, by return, exception or cancellation. */
  ghost predicate Leaving(w: World, t: Terms, log: seq<Event>, sent: Option<Sent>, exit: Exit)
    reads if sent.Some? then {sent.value.attempt} else {}
  {
    && Watch(w, t, log).Some? && Agree(w, t, log, sent, Watch(w, t, log).value.reply)
    && var m := Watch(w, t, log).value;
       && m.sends <= t.max && m.due.None? && Explains(w, t, m, exit)
       // Whatever is still open is to be rejected.
       && (sent.Some? && sent.value.attempt.settle ==> MustTell(w, t, m) == Rejected)
  }

  /** What holds before each retry. */
  ghost predicate Looping(w: World, t: Terms, log: seq<Event>, sent: Option<Sent>, response: int, retry: nat)
    reads if sent.Some? then {sent.value.attempt} else {}
  {
    && Agree(w, t, log, sent, Some(response))
    && var m := Watch(w, t, log).value;
       && m.sends == retry && m.due.None? && (forall a :: a in m.begun ==> a < retry)
       && (if response == 402 && retry > 0 then sent.Some? && m.current.value.sends > 0 && !m.told else sent.None?)
       && (retry == 0 ==> m.current.None? && !m.final && !m.told)
       && (response != 402 && retry > 0 ==> !Mishandled(w.retry(retry - 1), response))
  }

  /** Candidates for other hosts are dropped one by one; an error if none remains. */
  method FirstKept(candidates: seq<Candidate>) returns (next: Option<Candidate>)
    ensures next == FirstLocal(candidates)
  {
    var rest := candidates;
    while rest != [] && rest[0].foreign
      invariant FirstLocal(rest) == FirstLocal(candidates)
      decreases |rest|
    {
      rest := rest[1..];
    }
    return if rest == [] then None else Some(rest[0]);
  }

  /** What is open when the call leaves without going on is to be rejected. */
  lemma LeavingTells(w: World, t: Terms, log: seq<Event>)
    requires Watch(w, t, log).Some?
    ensures var m := Watch(w, t, log).value;
            m.reply == Some(402) && (m.sends >= t.max || !Decide(w, t, m).Go?) ==> MustTell(w, t, m) == Rejected
  {
  }

  lemma InHandTells(w: World, t: Terms, log: seq<Event>)
    requires Watch(w, t, log).Some?
    ensures var m := Watch(w, t, log).value;
            m.reply == Some(402) && m.current.Some? && (m.current.value.sends == 0 || m.told) ==> MustTell(w, t, m) == Rejected
  {
  }

  /**
   The part of a retry that touches credentials: keep the one sent or create another, encode it, and
   send it. None if the call goes on with the reply, else how it is left.
   */
  method Try(w: World, t: Terms, next: Candidate, previous: Option<Sent>, retry: nat, log0: seq<Event>)
    returns (exit: Option<Exit>, response: int, sent: Option<Sent>, log: seq<Event>)
    requires Looping(w, t, log0, previous, 402, retry) && retry < t.max
    requires Decide(w, t, Watch(w, t, log0).value) == Go(next)
    requires previous.Some? ==> !Spendable(previous.value.candidate.challenge)
    modifies if previous.Some? then {previous.value.attempt} else {}
    ensures exit.Some? ==> Leaving(w, t, log, sent, exit.value)
    ensures exit.None? ==> Looping(w, t, log, sent, response, retry + 1)
    ensures sent.Some? ==> sent == previous || fresh(sent.value.attempt)
  {
    var met := w.retry(retry);
    hide Watch, Observe, FirstLocal;
    sent, log, response := previous, log0, 402;
    if sent.Some? {
      var final;
      sent, final, log := Reconsider(w, t, sent.value, next, log);
      if final {
        return Some(Responded(402)), response, sent, log;
      }
    }
    if sent.None? {
      sent, log := CreateCredential(w, t, next, retry, log);
      if sent.None? {
        return Some(if met.creation.work.Declined? then Responded(402) else Threw), response, sent, log;
      }
    }
    if !met.encoding.Done? {
      InHandTells(w, t, log);
      return Some(if met.encoding.Declined? then Responded(402) else Threw), response, sent, log;
    }
    var code;
    code, sent, log := Pay(w, t, sent.value, log);
    if code.None? {
      return Some(Threw), response, sent, log;
    }
    return None, code.value, sent, log;
  }

  /** The retry loop over the first reply. */
  method RetryLoop(w: World, t: Terms, first: int) returns (exit: Exit, sent: Option<Sent>, log: seq<Event>)
    requires w.first == Some(first)
    ensures Leaving(w, t, log, sent, exit)
    ensures sent.Some? ==> fresh(sent.value.attempt)
    ensures first != 402 ==> log == [Replied(first)] && sent.None? && exit == Responded(first)
  {
    WatchMore(w, t, [], Replied(first));
    log := [] + [Replied(first)];
    var response := first;
    sent, exit := None, Threw;
    assert Looping(w, t, log, sent, response, 0);
    hide Watch, Observe, MustTell, FirstLocal;
    for retry := 0 to t.max
      invariant Looping(w, t, log, sent, response, retry)
      invariant sent.Some? ==> fresh(sent.value.attempt)
      invariant first != 402 ==> log == [Replied(first)] && sent.None? && response == first
    {
      var met := w.retry(retry);
      if response != 402 {
        return Responded(response), sent, log;
      }
      LeavingTells(w, t, log);
      if sent.Some? && Spendable(sent.value.candidate.challenge) {
        return Responded(response), sent, log;
      }
      if t.crossOrigin || met.offers.None? {
        return;
      }
      var candidates := met.offers.value;
      if candidates == [] {
        if retry > 0 {
          return Responded(response), sent, log;
        }
        return;
      }
      if !t.allowed {
        return;
      }
      var next := FirstKept(candidates);
      if next.None? || !t.replayable || !met.released {
        return;
      }
      var left;
      left, response, sent, log := Try(w, t, next.value, sent, retry, log);
      if left.Some? {
        return left.value, sent, log;
      }
    }
    LeavingTells(w, t, log);
    return Responded(response), sent, log;
  }

  /**
   Pay a request through the loop, from its first reply to its exit. Whatever the world does, the
   log satisfies the monitor, no callback is left without a final outcome and no credential due is
   left unsent, credentialed sends stay within the bound, and the exit is explained by what the
   world did before it; after that the callback still open, if any, is told of a rejection.
   */
  method HandleRequest(w: World, t: Terms) returns (exit: Exit, log: seq<Event>, ghost left: seq<Event>)
    ensures Watch(w, t, log).Some? && !Watch(w, t, log).value.owed && Watch(w, t, log).value.due.None?
    ensures Watch(w, t, log).value.sends <= t.max
    ensures Watch(w, t, left).Some? && Explains(w, t, Watch(w, t, left).value, exit)
    ensures log == left || exists a, settled :: log == left + [Told(a, Rejected, settled)]
    // A request that needs no payment is answered as it is.
    ensures w.first.Some? && w.first.value != 402 ==> log == [Replied(w.first.value)] && exit == Responded(w.first.value)
  {
    if w.first.None? {
      return Threw, [], [];
    }
    var sent;
    exit, sent, log := RetryLoop(w, t, w.first.value);
    left := log;
    hide Watch, Observe, MustTell, Explains;
    if sent.Some? {
      var settled, told := SettleAttempt(w, t, sent.value.attempt, Rejected, log);
      assert sent.value.attempt.settle || told == log || told == left + [Told(sent.value.attempt.id, Rejected, settled)];
      log := told;
    }
  }

  // ---------- Why a call leaves as it does ----------

  /** A payable challenge is there to be paid: something stands in the way, or a credential is created for it. */
  predicate Offered(w: World, t: Terms, n: nat) {
    && !t.crossOrigin && t.allowed && t.replayable && w.retry(n).released
    && w.retry(n).offers.Some? && exists i :: 0 <= i < |w.retry(n).offers.value| && !w.retry(n).offers.value[i].foreign
  }

  /** The credential last sent rules out any other. */
  predicate Spent(m: Monitor) {
    && m.current.Some? && m.current.value.sends > 0
    && var c := m.current.value;
       c.candidate.challenge.x402 || c.candidate.challenge.evmCharge || c.credential.pushed
  }

  /**
   A 402 is handed to the caller only after as many paid requests as are allowed, after a credential
   that rules out any other, if a paid request brought no payable challenge, or because the challenge
   turned out invalid or expired.
   */
  lemma WhyUnpaid(w: World, t: Terms, m: Monitor)
    requires Explains(w, t, m, Responded(402))
    ensures || m.sends == t.max
            || Spent(m)
            || (m.sends > 0 && w.retry(m.sends).offers == Some([]))
            || w.retry(m.sends).creation.work.Declined?
            || w.retry(m.sends).encoding.Declined?
  {
  }

  /** So nothing but its own refusal keeps the client from paying a first challenge. */
  lemma WhyRaised(w: World, t: Terms, m: Monitor)
    requires Explains(w, t, m, Threw) && m.reply.Some?
    ensures m.reply == Some(402) ==>
              || !Offered(w, t, m.sends)
              || w.retry(m.sends).creation.work.Failed?
              || w.retry(m.sends).encoding.Failed?
    ensures m.reply != Some(402) ==>
              && m.sends > 0
              && var retry, code := w.retry(m.sends - 1), m.reply.value;
                 || (500 <= code <= 599 && !(retry.buffered && retry.handled))
                 || (200 <= code <= 299 && !retry.handled)
  {
    if m.reply == Some(402) && w.retry(m.sends).offers.Some? {
      FirstLocalIs(w.retry(m.sends).offers.value);
    }
  }

  // ---------- What acceptable logs look like ----------

  lemma {:induction false} WatchPrefix(w: World, t: Terms, log: seq<Event>, n: nat)
    requires Watch(w, t, log).Some? && n <= |log|
    ensures Watch(w, t, log[..n]).Some?
    ensures n < |log| ==> Watch(w, t, log[..n + 1]) == Observe(w, t, n, Watch(w, t, log[..n]).value, log[n])
    decreases |log|
  {
    hide Observe;
    if n == |log| {
      assert log[..n] == log;
    } else {
      var shorter := log[..|log| - 1];
      assert Watch(w, t, log) == Observe(w, t, |log| - 1, Watch(w, t, shorter).value, log[|log| - 1]);
      if n == |log| - 1 {
        assert log[..n + 1] == log;
      } else {
        WatchPrefix(w, t, shorter, n);
        assert shorter[..n] == log[..n] && shorter[..n + 1] == log[..n + 1] && shorter[n] == log[n];
      }
    }
  }

  /** The monitor when `k` events have happened. */
  ghost function At(w: World, t: Terms, log: seq<Event>, k: nat): Monitor
    requires Watch(w, t, log).Some? && k <= |log|
  {
    WatchPrefix(w, t, log, k);
    Watch(w, t, log[..k]).value
  }

  lemma StepAt(w: World, t: Terms, log: seq<Event>, k: nat)
    requires Watch(w, t, log).Some? && k < |log|
    ensures Observe(w, t, k, At(w, t, log, k), log[k]) == Some(At(w, t, log, k + 1))
  {
    hide Observe;
    WatchPrefix(w, t, log, k);
    WatchPrefix(w, t, log, k + 1);
  }

  lemma AtEnds(w: World, t: Terms, log: seq<Event>)
    requires Watch(w, t, log).Some?
    ensures At(w, t, log, 0) == START && At(w, t, log, |log|) == Watch(w, t, log).value
  {
    assert log[..|log|] == log;
  }

  predicate Tracks(e: Event, a: AttemptId) {
    (e.Created? || e.NotCreated?) && e.attempt == a && e.tracked
  }

  /** A callback is done once it returned true or was told of a rejection. */
  predicate Concludes(e: Event, a: AttemptId) {
    e.Told? && e.attempt == a && (e.settled || e.status == Rejected)
  }

  lemma {:induction false} OwedUntilConcluded(w: World, t: Terms, log: seq<Event>, i: nat, a: AttemptId, k: nat)
    requires Watch(w, t, log).Some? && i < k <= |log| && Tracks(log[i], a)
    ensures (exists n :: i < n < k && Concludes(log[n], a))
            || (At(w, t, log, k).owed && At(w, t, log, k).open == Some(a))
  {
    hide Watch, At;
    StepAt(w, t, log, k - 1);
    OpenHasBegun(w, t, log, k - 1);
    if k > i + 1 {
      OwedUntilConcluded(w, t, log, i, a, k - 1);
      if n :| i < n < k - 1 && Concludes(log[n], a) {
        assert i < n < k && Concludes(log[n], a);
      } else {
        assert Concludes(log[k - 1], a) || At(w, t, log, k).owed;
      }
    }
  }

  /**
   At most one attempt is open: before another begins, each attempt that kept a callback was
   settled by it or told of a rejection; and so is the last one before the call leaves.
   */
  lemma OneAttemptAtATime(w: World, t: Terms, log: seq<Event>, i: nat, a: AttemptId, j: nat)
    requires Watch(w, t, log).Some? && !Watch(w, t, log).value.owed
    requires i < j <= |log| && Tracks(log[i], a)
    requires j < |log| ==> log[j].Opened?
    ensures exists n :: i < n < j && Concludes(log[n], a)
  {
    OwedUntilConcluded(w, t, log, i, a, j);
    if j < |log| {
      StepAt(w, t, log, j);
    } else {
      AtEnds(w, t, log);
    }
  }

  lemma {:induction false} SettledStaysShut(w: World, t: Terms, log: seq<Event>, i: nat, k: nat)
    requires Watch(w, t, log).Some? && i < k <= |log| && log[i].Told? && log[i].settled
    ensures var m, a := At(w, t, log, k), log[i].attempt;
            a in m.begun && m.open != Some(a) && m.creating != Some(a)
  {
    hide Watch, At;
    StepAt(w, t, log, k - 1);
    if k > i + 1 {
      SettledStaysShut(w, t, log, i, k - 1);
    } else {
      OpenHasBegun(w, t, log, i);
    }
  }

  lemma {:induction false} OpenHasBegun(w: World, t: Terms, log: seq<Event>, k: nat)
    requires Watch(w, t, log).Some? && k <= |log|
    ensures var m := At(w, t, log, k);
            (m.open.Some? ==> m.open.value in m.begun) && (m.creating.Some? ==> m.creating.value in m.begun)
            && (m.creating.Some? ==> !m.owed)
  {
    hide Watch, At;
    AtEnds(w, t, log);
    if k > 0 {
      StepAt(w, t, log, k - 1);
      OpenHasBegun(w, t, log, k - 1);
    }
  }

  /** A settle callback that returned true is never called again. */
  lemma SettledOnce(w: World, t: Terms, log: seq<Event>, i: nat, j: nat)
    requires Watch(w, t, log).Some? && i < j < |log|
    requires log[i].Told? && log[i].settled && log[j].Told?
    ensures log[i].attempt != log[j].attempt
  {
    SettledStaysShut(w, t, log, i, j);
    StepAt(w, t, log, j);
  }

  predicate Irrevocable(e: Event) {
    e.Created? && (e.credential.pushed || e.candidate.challenge.x402 || e.candidate.challenge.evmCharge)
  }

  lemma {:induction false} StaysFinal(w: World, t: Terms, log: seq<Event>, i: nat, k: nat)
    requires Watch(w, t, log).Some? && i < k <= |log| && Irrevocable(log[i])
    ensures var m := At(w, t, log, k);
            && m.final && m.creating.None? && m.current.Some?
            && m.current.value.credential == log[i].credential && m.current.value.candidate == log[i].candidate
            && ((exists n :: i < n < k && log[n].Paid?) ==> m.current.value.sends > 0)
  {
    hide Watch, At;
    StepAt(w, t, log, k - 1);
    if k > i + 1 {
      StaysFinal(w, t, log, i, k - 1);
      if n :| i < n < k && log[n].Paid? {
        assert n < k - 1 ==> At(w, t, log, k - 1).current.value.sends > 0;
      }
    }
  }

  /**
   No second payment: after a credential that reports a broadcast payment, an x402 credential or
   an evm/charge credential, no other credential is begun; only that very credential can be sent,
   and an x402 or evm/charge credential at most once.
   */
  lemma NoSecondPayment(w: World, t: Terms, log: seq<Event>, i: nat, j: nat)
    requires Watch(w, t, log).Some? && i < j < |log| && Irrevocable(log[i])
    ensures !log[j].Opened? && !log[j].Created?
    ensures log[j].Paid? ==> log[j].credential == log[i].credential
    ensures log[j].Paid? && (log[i].candidate.challenge.x402 || log[i].candidate.challenge.evmCharge) ==>
              forall n :: i < n < j ==> !log[n].Paid?
  {
    StaysFinal(w, t, log, i, j);
    StepAt(w, t, log, j);
  }

  lemma {:induction false} ReplyStays(w: World, t: Terms, log: seq<Event>, i: nat, k: nat)
    requires Watch(w, t, log).Some? && i < k <= |log| && log[i].Replied? && log[i].code != 402
    ensures At(w, t, log, k).reply == Some(log[i].code)
  {
    hide Watch, At;
    StepAt(w, t, log, k - 1);
    if k > i + 1 {
      ReplyStays(w, t, log, i, k - 1);
    }
  }

  /** Nothing is paid after a reply other than 402, and no further reply is taken. */
  lemma NothingAfterAnswer(w: World, t: Terms, log: seq<Event>, i: nat, j: nat)
    requires Watch(w, t, log).Some? && i < j < |log| && log[i].Replied? && log[i].code != 402
    ensures !log[j].Paid? && !log[j].Replied? && !log[j].Opened?
  {
    ReplyStays(w, t, log, i, j);
    StepAt(w, t, log, j);
  }

  // ---------- What must follow ----------

  /**
   A credential is created only for an allowed origin and a body that can be sent again, and it pays
   the first challenge offered that is not for another host.
   */
  lemma CreatedIsAllowed(w: World, t: Terms, log: seq<Event>, i: nat)
    requires Watch(w, t, log).Some? && i < |log| && log[i].Created?
    ensures !t.crossOrigin && t.allowed && t.replayable && w.retry(Sends(log[..i])).released
    ensures var offers := w.retry(Sends(log[..i])).offers;
            && offers.Some?
            && exists k :: && 0 <= k < |offers.value| && offers.value[k] == log[i].candidate && !offers.value[k].foreign
                           && forall j :: 0 <= j < k ==> offers.value[j].foreign
  {
    SendsAt(w, t, log, i);
    StepAt(w, t, log, i);
    FirstLocalIs(w.retry(Sends(log[..i])).offers.value);
  }

  lemma DueIsSent(w: World, t: Terms, log: seq<Event>, k: nat)
    requires Watch(w, t, log).Some? && Watch(w, t, log).value.due.None? && k <= |log|
    ensures var due := At(w, t, log, k).due;
            due.Some? ==> k < |log| && log[k] == Paid(due.value)
  {
    AtEnds(w, t, log);
    hide Watch, At, Decide, MustTell;
    if k < |log| {
      StepAt(w, t, log, k);
    }
  }

  /** Every credential is sent as soon as it is created, unless it cannot be encoded. */
  lemma EveryCredentialIsSent(w: World, t: Terms, log: seq<Event>, i: nat)
    requires Watch(w, t, log).Some? && Watch(w, t, log).value.due.None?
    requires i < |log| && log[i].Created? && w.retry(Sends(log[..i])).encoding.Done?
    ensures i + 1 < |log| && log[i + 1] == Paid(log[i].credential)
  {
    hide Watch, At, Decide, MustTell, Sends;
    SendsAt(w, t, log, i);
    StepAt(w, t, log, i);
    DueIsSent(w, t, log, i + 1);
  }

  lemma SendsAt(w: World, t: Terms, log: seq<Event>, k: nat)
    requires Watch(w, t, log).Some? && k <= |log|
    ensures At(w, t, log, k).sends == Sends(log[..k])
  {
    WatchPrefix(w, t, log, k);
    SendsAreCounted(w, t, log[..k]);
  }

  /** What makes a credential due, and who is then owed its outcome. */
  lemma BecomesDue(w: World, t: Terms, i: nat, m: Monitor, e: Event, m': Monitor)
    requires Observe(w, t, i, m, e) == Some(m') && m'.due.Some?
    ensures e.Created? || e.Told?
    ensures e.Created? ==> m'.due == Some(e.credential) && m'.owed == e.tracked && (e.tracked ==> m'.open == Some(e.attempt))
    ensures e.Told? ==> e.status == Pending && !e.settled && m'.open == Some(e.attempt) && m'.current.Some?
                        && m'.current.value.sends > 0
  {
    hide Decide;
  }

  /** A credential is sent right after it was created, or after its method kept it for a further 402. */
  lemma PaidIsDue(w: World, t: Terms, log: seq<Event>, i: nat)
    requires Watch(w, t, log).Some? && i < |log| && log[i].Paid?
    ensures i > 0 && At(w, t, log, i).due == Some(log[i].credential)
    ensures || (log[i - 1].Created? && log[i - 1].credential == log[i].credential)
            || (log[i - 1].Told? && log[i - 1].status == Pending && !log[i - 1].settled)
  {
    AtEnds(w, t, log);
    StepAt(w, t, log, i);
    assert At(w, t, log, i).due == Some(log[i].credential) by {
      hide Watch, At, Decide, MustTell;
    }
    hide Watch, At, Observe;
    StepAt(w, t, log, i - 1);
    BecomesDue(w, t, i - 1, At(w, t, log, i - 1), log[i - 1], At(w, t, log, i));
  }

  /** Before a reply the call sent its request, plain or paid. */
  lemma SentBeforeReply(w: World, t: Terms, i: nat, m: Monitor, e: Event, m': Monitor)
    requires Observe(w, t, i, m, e) == Some(m') && m'.reply.None? && !m'.told
    ensures e.Paid? && m'.current.Some? && m'.current.value.credential == e.credential
  {
    hide Decide, MustTell;
  }

  /** A reply is taken right after its request, and changes nothing else. */
  lemma ReplyIsTaken(w: World, t: Terms, i: nat, m: Monitor, code: int, m': Monitor)
    requires Observe(w, t, i, m, Replied(code)) == Some(m')
    ensures m.reply.None? && !m.told && m' == m.(reply := Some(code))
  {
    hide Decide, MustTell;
  }

  lemma KeptIsDue(w: World, t: Terms, i: nat, m: Monitor, e: Event, m': Monitor)
    requires Observe(w, t, i, m, e) == Some(m') && m.reply == Some(402)
    requires e.Told? && e.status == Pending && !e.settled && w.retry(m.sends).encoding.Done?
    ensures m.current.Some? && m.current.value.sends > 0 && m'.due == Some(m.current.value.credential)
  {
    hide Decide;
  }

  /** A credential the method keeps after a further 402 is the one that 402 refused, and is sent again. */
  lemma KeptIsSentAgain(w: World, t: Terms, log: seq<Event>, i: nat)
    requires Watch(w, t, log).Some? && Watch(w, t, log).value.due.None?
    requires 0 < i < |log| && log[i - 1] == Replied(402)
    requires log[i].Told? && log[i].status == Pending && !log[i].settled
    requires w.retry(Sends(log[..i])).encoding.Done?
    ensures i >= 2 && log[i - 2].Paid? && i + 1 < |log| && log[i + 1] == log[i - 2]
  {
    AtEnds(w, t, log);
    hide Watch, At, Observe, Sends;
    SendsAt(w, t, log, i);
    StepAt(w, t, log, i);
    StepAt(w, t, log, i - 1);
    var m := At(w, t, log, i);
    ReplyIsTaken(w, t, i - 1, At(w, t, log, i - 1), 402, m);
    KeptIsDue(w, t, i, m, log[i], At(w, t, log, i + 1));
    if i >= 2 {
      StepAt(w, t, log, i - 2);
      SentBeforeReply(w, t, i - 2, At(w, t, log, i - 2), log[i - 2], At(w, t, log, i - 1));
    }
    DueIsSent(w, t, log, i + 1);
  }

  lemma PaidThenReplied(w: World, t: Terms, i: nat, m: Monitor, paid: Event, m': Monitor, code: int, m'': Monitor)
    requires paid.Paid? && Observe(w, t, i, m, paid) == Some(m') && Observe(w, t, i + 1, m', Replied(code)) == Some(m'')
    ensures m''.reply == Some(code) && m''.owed == m.owed && m''.open == m.open && !m''.told && m''.creating.None?
    ensures m.current.Some? && (m.current.value.sends > 0 ==> m.owed)
  {
    hide Decide, MustTell;
  }

  lemma ToldNext(w: World, t: Terms, i: nat, m: Monitor, a: AttemptId, code: int, e: Event)
    requires Observe(w, t, i, m, e).Some?
    requires m.reply == Some(code) && code != 402 && m.owed && m.open == Some(a) && !m.told && m.creating.None?
    ensures e.Told? && e.attempt == a
    ensures e.status == (if 200 <= code <= 299 then Accepted else if 300 <= code <= 399 then Pending else Rejected)
  {
    hide Decide, Fits;
  }

  /**
   Once a paid reply other than 402 is there, the next event tells the method, if it keeps a
   callback, what that reply says of its credential.
   */
  lemma OutcomeIsTold(w: World, t: Terms, log: seq<Event>, i: nat)
    requires Watch(w, t, log).Some? && !Watch(w, t, log).value.owed
    requires i + 1 < |log| && log[i].Paid? && log[i + 1].Replied? && log[i + 1].code != 402
    ensures i > 0 && (log[i - 1].Created? || log[i - 1].Told?)
    ensures var code := log[i + 1].code;
            log[i - 1].Told? || log[i - 1].tracked ==>
              && i + 2 < |log| && log[i + 2].Told? && log[i + 2].attempt == log[i - 1].attempt
              && log[i + 2].status
                 == (if 200 <= code <= 299 then Accepted else if 300 <= code <= 399 then Pending else Rejected)
  {
    PaidIsDue(w, t, log, i);
    AtEnds(w, t, log);
    hide Watch, At, Observe;
    StepAt(w, t, log, i - 1);
    StepAt(w, t, log, i);
    StepAt(w, t, log, i + 1);
    var m, code := At(w, t, log, i), log[i + 1].code;
    BecomesDue(w, t, i - 1, At(w, t, log, i - 1), log[i - 1], m);
    PaidThenReplied(w, t, i, m, log[i], At(w, t, log, i + 1), code, At(w, t, log, i + 2));
    if i + 2 < |log| && m.owed {
      StepAt(w, t, log, i + 2);
      ToldNext(w, t, i + 2, At(w, t, log, i + 2), m.open.value, code, log[i + 2]);
    }
  }

  // ---------- What the caller gets ----------

  lemma {:induction false} CurrentSendsAreSends(w: World, t: Terms, log: seq<Event>, k: nat)
    requires Watch(w, t, log).Some? && k <= |log|
    ensures var m := At(w, t, log, k);
            m.current.Some? ==> m.current.value.sends <= m.sends
  {
    hide Watch, At;
    AtEnds(w, t, log);
    if k > 0 {
      StepAt(w, t, log, k - 1);
      CurrentSendsAreSends(w, t, log, k - 1);
    }
  }

  /** The reply looked at is the last one received, and every earlier one was a 402. */
  lemma {:induction false} RepliesSoFar(w: World, t: Terms, log: seq<Event>, k: nat)
    requires Watch(w, t, log).Some? && k <= |log|
    ensures var m := At(w, t, log, k);
            && (m.reply.Some? ==> m.reply == Reply(w, m))
            && (m.sends > 0 ==> w.first == Some(402))
            && forall n :: 0 <= n < m.sends - 1 ==> w.retry(n).reply == Some(402)
  {
    hide Watch, At;
    AtEnds(w, t, log);
    if k > 0 {
      StepAt(w, t, log, k - 1);
      RepliesSoFar(w, t, log, k - 1);
    }
  }

  /**
   The caller gets the answer to the last request sent: the plain one, or the last of the paid ones,
   all of whose predecessors were answered 402, and which was buffered and handled as it should.
   */
  lemma LastReplyIsReturned(w: World, t: Terms, log: seq<Event>, code: int)
    requires Watch(w, t, log).Some? && Explains(w, t, Watch(w, t, log).value, Responded(code))
    ensures var n := Sends(log);
            && Some(code) == (if n == 0 then w.first else w.retry(n - 1).reply)
            && (n > 0 ==> w.first == Some(402)) && forall k :: 0 <= k < n - 1 ==> w.retry(k).reply == Some(402)
    ensures Sends(log) > 0 ==>
              && var retry := w.retry(Sends(log) - 1);
                 && (500 <= code <= 599 ==> retry.buffered && retry.handled)
                 && (200 <= code <= 299 ==> retry.handled)
  {
    AtEnds(w, t, log);
    SendsAreCounted(w, t, log);
    RepliesSoFar(w, t, log, |log|);
  }

  /**
   A challenge that can be paid is paid, and with nothing going wrong the caller gets the answer
   to that first paid request.
   */
  lemma WillingWorldIsPaid(w: World, t: Terms, log: seq<Event>, exit: Exit)
    requires Watch(w, t, log).Some? && Explains(w, t, Watch(w, t, log).value, exit)
    requires w.first == Some(402) && t.max > 0 && Offered(w, t, 0)
    requires w.retry(0).creation.work.Done? && w.retry(0).encoding.Done?
    ensures Sends(log) > 0
    ensures var reply := w.retry(0).reply;
            reply.Some? && reply.value != 402 && w.retry(0).buffered && w.retry(0).handled ==>
              Sends(log) == 1 && exit == Responded(reply.value)
  {
    var m := Watch(w, t, log).value;
    AtEnds(w, t, log);
    SendsAreCounted(w, t, log);
    RepliesSoFar(w, t, log, |log|);
    if m.sends == 0 {
      CurrentSendsAreSends(w, t, log, |log|);
      assert m.reply.Some? ==> m.reply == Some(402);
      if exit.Threw? {
        if m.reply.Some? {
          WhyRaised(w, t, m);
        }
      } else {
        assert exit == Responded(402);
        WhyUnpaid(w, t, m);
      }
    } else if m.sends > 1 {
      assert w.retry(0).reply == Some(402);
    }
  }
}
