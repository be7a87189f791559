/**
 Shared signing of Tempo charges: concurrent calls for one account and challenge await one task.
 The event loop interleaves callers, their cancellation, the task's own steps and its completion
 callback in any order; what happens between two awaits is one step. Tasks are numbered as made.
 */
module SharedSigning {
  import opened Wrappers

  // The payer's address and the challenge id.
  type Key = nat

  type TaskId = nat

  type CallerId = nat

  datatype Outcome = Signed | Raised | Cancelled

  /** `popped`: the completion callback has run. */
  datatype Task = Task(key: Key, push: bool, submitted: bool, outcome: Option<Outcome>, popped: bool)

  /** How a call ends; OutcomeUnknown carries the hash of what was submitted. */
  datatype Exit = Returned | Failed | Abandoned | OutcomeUnknown

  datatype Wait = Wait(key: Key, task: TaskId)

  datatype State = State(
    signing: map<Key, TaskId>,
    waiters: map<Key, nat>,
    tasks: seq<Task>,
    waiting: map<CallerId, Wait>,
    left: map<CallerId, Exit>)

  const INITIAL := State(map[], map[], [], map[], map[])

  function Waiters(waiters: map<Key, nat>, key: Key): nat {
    if key in waiters then waiters[key] else 0
  }

  datatype Event =
    | Join(caller: CallerId, key: Key, push: bool)
    | Submit(task: TaskId)
    | Finish(task: TaskId, outcome: Outcome)
    | Pop(task: TaskId)
    | Leave(caller: CallerId, cancelled: bool)

  /**
   The event loop resumes what it has queued in order. The calls of a finished signing are queued
   by callbacks that run together with the one that unregisters it, so before any later signing of
   the key is made: they have left when that one takes a step.
   */
  predicate Resumed(s: State, key: Key) {
    forall c :: c in s.waiting && s.waiting[c].key == key && s.waiting[c].task < |s.tasks| ==>
                  !s.tasks[s.waiting[c].task].popped
  }

  /** Which steps can happen. A push task submits once; callers wake when the task is done or they are cancelled. */
  predicate Enabled(s: State, e: Event) {
    match e
    case Join(c, _, _) => c !in s.waiting && c !in s.left
    case Submit(t) =>
      t < |s.tasks| && s.tasks[t].outcome.None? && s.tasks[t].push && !s.tasks[t].submitted && Resumed(s, s.tasks[t].key)
    case Finish(t, _) => t < |s.tasks| && s.tasks[t].outcome.None?
    case Pop(t) => t < |s.tasks| && s.tasks[t].outcome.Some? && !s.tasks[t].popped
    case Leave(c, cancelled) =>
      c in s.waiting && s.waiting[c].task < |s.tasks| && s.waiting[c].key in s.waiters
      && (cancelled || s.tasks[s.waiting[c].task].outcome.Some?)
  }

  function AfterJoin(s: State, c: CallerId, key: Key, push: bool): State {
    var starts := key !in s.signing;
    var task := if starts then |s.tasks| else s.signing[key];
    s.(tasks := if starts then s.tasks + [Task(key, push, false, None, false)] else s.tasks,
       signing := s.signing[key := task],
       waiters := s.waiters[key := Waiters(s.waiters, key) + 1],
       waiting := s.waiting[c := Wait(key, task)])
  }

  /** With no caller left the task is cancelled instead of broadcasting. */
  function AfterSubmit(s: State, t: TaskId): State
    requires t < |s.tasks|
  {
    var task := s.tasks[t];
    s.(tasks := s.tasks[t := if Waiters(s.waiters, task.key) > 0 then task.(submitted := true)
                             else task.(outcome := Some(Cancelled))])
  }

  function AfterFinish(s: State, t: TaskId, outcome: Outcome): State
    requires t < |s.tasks|
  {
    s.(tasks := s.tasks[t := s.tasks[t].(outcome := Some(outcome))])
  }

  function AfterPop(s: State, t: TaskId): State
    requires t < |s.tasks|
  {
    s.(tasks := s.tasks[t := s.tasks[t].(popped := true)], signing := s.signing - {s.tasks[t].key})
  }

  function ExitOf(task: Task, cancelled: bool): Exit {
    if cancelled || task.outcome == Some(Cancelled) then (if task.submitted then OutcomeUnknown else Abandoned)
    else if task.outcome == Some(Signed) then Returned
    else Failed
  }

  function AfterLeave(s: State, c: CallerId, cancelled: bool): State
    requires c in s.waiting && s.waiting[c].task < |s.tasks| && s.waiting[c].key in s.waiters
  {
    var Wait(key, task) := s.waiting[c];
    s.(waiters := if s.waiters[key] <= 1 then s.waiters - {key} else s.waiters[key := s.waiters[key] - 1],
       waiting := s.waiting - {c},
       left := s.left[c := ExitOf(s.tasks[task], cancelled)])
  }

  function Next(s: State, e: Event): State
    requires Enabled(s, e)
  {
    match e
    case Join(c, key, push) => AfterJoin(s, c, key, push)
    case Submit(t) => AfterSubmit(s, t)
    case Finish(t, outcome) => AfterFinish(s, t, outcome)
    case Pop(t) => AfterPop(s, t)
    case Leave(c, cancelled) => AfterLeave(s, c, cancelled)
  }

  // ---------- The dictionaries, updated in place ----------

  class TempoMethod {
    var signing: map<Key, TaskId>
    var signingWaiters: map<Key, nat>
    // The event loop's tasks and the suspended calls.
    var tasks: seq<Task>
    var waiting: map<CallerId, Wait>
    ghost var left: map<CallerId, Exit>

    ghost function View(): State
      reads this
    {
      State(signing, signingWaiters, tasks, waiting, left)
    }

    constructor ()
      ensures View() == INITIAL
    {
      signing, signingWaiters, tasks, waiting, left := map[], map[], [], map[], map[];
    }

    /** Share the signing under way for the key, or start one; then wait. */
    method Enter(c: CallerId, key: Key, push: bool)
      requires Enabled(View(), Join(c, key, push))
      modifies this
      ensures View() == Next(old(View()), Join(c, key, push))
    {
      var task;
      if key in signing {
        task := signing[key];
      } else {
        task := |tasks|;
        tasks := tasks + [Task(key, push, false, None, false)];
      }
      signing := signing[key := task];
      signingWaiters := signingWaiters[key := Waiters(signingWaiters, key) + 1];
      waiting := waiting[c := Wait(key, task)];
    }

    /** Broadcast only for a caller that still waits. */
    method BeginSubmission(t: TaskId) returns (submitted: bool)
      requires Enabled(View(), Submit(t))
      modifies this
      ensures View() == Next(old(View()), Submit(t))
      ensures submitted <==> tasks[t].submitted
    {
      submitted := Waiters(signingWaiters, tasks[t].key) > 0;
      if submitted {
        tasks := tasks[t := tasks[t].(submitted := true)];
      } else {
        tasks := tasks[t := tasks[t].(outcome := Some(Cancelled))];
      }
    }

    /** The completion callback unregisters the signing. */
    method Finished(t: TaskId)
      requires Enabled(View(), Pop(t))
      modifies this
      ensures View() == Next(old(View()), Pop(t))
    {
      signing := signing - {tasks[t].key};
      tasks := tasks[t := tasks[t].(popped := true)];
    }

    /** Leave with the task's result, or cancelled: with the hash if the payment was submitted. */
    method Exit(c: CallerId, cancelled: bool) returns (exit: Exit)
      requires Enabled(View(), Leave(c, cancelled)) && signingWaiters[waiting[c].key] > 0
      modifies this
      ensures View() == Next(old(View()), Leave(c, cancelled)) && exit == left[c]
    {
      var Wait(key, t) := waiting[c];
      exit := ExitOf(tasks[t], cancelled);
      var remaining := signingWaiters[key] - 1;
      if remaining != 0 {
        signingWaiters := signingWaiters[key := remaining];
      } else {
        signingWaiters := signingWaiters - {key};
      }
      waiting := waiting - {c};
      left := left[c := exit];
    }
  }

  // ---------- Invariant ----------

  /** The calls that joined for a key and have not left. */
  function WaitingFor(waiting: map<CallerId, Wait>, key: Key): set<CallerId> {
    set c | c in waiting && waiting[c].key == key
  }

  /** The registered task of a key is its one task whose callback has not run. */
  ghost predicate Registered(s: State) {
    && (forall t :: 0 <= t < |s.tasks| && !s.tasks[t].popped ==> s.tasks[t].key in s.signing && s.signing[s.tasks[t].key] == t)
    && (forall t :: 0 <= t < |s.tasks| && s.tasks[t].popped ==> s.tasks[t].outcome.Some?)
    && (forall k :: k in s.signing ==> s.signing[k] < |s.tasks| && s.tasks[s.signing[k]].key == k)
  }

  /** The counters are the numbers of waiting calls, with no zero entries. */
  ghost predicate Counted(s: State) {
    && (forall k :: k in s.waiters ==> s.waiters[k] > 0)
    && (forall k :: Waiters(s.waiters, k) == |WaitingFor(s.waiting, k)|)
  }

  ghost predicate Attached(s: State) {
    && (forall c :: c in s.waiting ==> s.waiting[c].task < |s.tasks| && s.tasks[s.waiting[c].task].key == s.waiting[c].key)
    && (forall c :: c in s.waiting ==> c !in s.left)
  }

  ghost predicate Invariant(s: State) {
    Registered(s) && Counted(s) && Attached(s)
  }

  lemma OneMoreWaits(waiting: map<CallerId, Wait>, c: CallerId, w: Wait, k: Key)
    requires c !in waiting
    ensures |WaitingFor(waiting[c := w], k)| == |WaitingFor(waiting, k)| + (if k == w.key then 1 else 0)
  {
    assert WaitingFor(waiting[c := w], k) == WaitingFor(waiting, k) + (if k == w.key then {c} else {});
  }

  lemma OneFewerWaits(waiting: map<CallerId, Wait>, c: CallerId, k: Key)
    requires c in waiting
    ensures |WaitingFor(waiting, k)| == |WaitingFor(waiting - {c}, k)| + (if k == waiting[c].key then 1 else 0)
  {
    assert WaitingFor(waiting, k) == WaitingFor(waiting - {c}, k) + (if k == waiting[c].key then {c} else {});
  }

  lemma StepKeepsCounts(s: State, e: Event)
    requires Invariant(s) && Enabled(s, e)
    ensures Counted(Next(s, e))
  {
    var s' := Next(s, e);
    forall k
      ensures Waiters(s'.waiters, k) == |WaitingFor(s'.waiting, k)|
    {
      match e
      case Join(c, key, _) => OneMoreWaits(s.waiting, c, s'.waiting[c], k);
      case Leave(c, _) => OneFewerWaits(s.waiting, c, k);
      case _ =>
    }
  }

  lemma StepKeepsRegistered(s: State, e: Event)
    requires Registered(s) && Enabled(s, e)
    ensures Registered(Next(s, e))
  {
    hide Waiters, ExitOf;
  }

  lemma StepKeepsAttached(s: State, e: Event)
    requires Attached(s) && Registered(s) && Enabled(s, e)
    ensures Attached(Next(s, e))
  {
  }

  lemma StepKeepsInvariant(s: State, e: Event)
    requires Invariant(s) && Enabled(s, e)
    ensures Invariant(Next(s, e))
  {
    StepKeepsCounts(s, e);
    StepKeepsRegistered(s, e);
    StepKeepsAttached(s, e);
  }

  // ---------- Runs ----------

  ghost predicate IsRun(run: seq<State>, events: seq<Event>) {
    && |run| == |events| + 1 && run[0] == INITIAL
    && forall i :: 0 <= i < |events| ==> Enabled(run[i], events[i]) && run[i + 1] == Next(run[i], events[i])
  }

  lemma {:induction false} InvariantHolds(run: seq<State>, events: seq<Event>, i: nat)
    requires IsRun(run, events) && i < |run|
    ensures Invariant(run[i])
  {
    if i == 0 {
      assert forall k :: WaitingFor(INITIAL.waiting, k) == {};
    } else {
      InvariantHolds(run, events, i - 1);
      StepKeepsInvariant(run[i - 1], events[i - 1]);
    }
  }

  /** At most one signing of a key is unfinished, and it is the one a further call would share. */
  lemma OneSigningPerKey(run: seq<State>, events: seq<Event>, i: nat, t: TaskId, u: TaskId)
    requires IsRun(run, events) && i < |run|
    requires t < |run[i].tasks| && u < |run[i].tasks| && run[i].tasks[t].key == run[i].tasks[u].key
    requires run[i].tasks[t].outcome.None?
    ensures run[i].tasks[t].key in run[i].signing && run[i].signing[run[i].tasks[t].key] == t
    ensures run[i].tasks[u].outcome.None? ==> t == u
  {
    InvariantHolds(run, events, i);
  }

  /** The counter of a key is the number of its calls that joined and have not left. */
  lemma WaitersAreCounted(run: seq<State>, events: seq<Event>, i: nat, key: Key)
    requires IsRun(run, events) && i < |run|
    ensures Waiters(run[i].waiters, key) == |WaitingFor(run[i].waiting, key)|
    ensures key in run[i].waiters <==> exists c :: c in run[i].waiting && run[i].waiting[c].key == key
  {
    InvariantHolds(run, events, i);
    if c :| c in run[i].waiting && run[i].waiting[c].key == key {
      assert c in WaitingFor(run[i].waiting, key);
    } else {
      assert WaitingFor(run[i].waiting, key) == {};
    }
  }

  /**
   A push submission begins exactly if some call waits for this very task, although the counter is
   kept per key; with none left the task is cancelled instead.
   */
  lemma SubmittedOnlyWhileWanted(run: seq<State>, events: seq<Event>, i: nat)
    requires IsRun(run, events) && i < |events| && events[i].Submit?
    ensures var s, t := run[i], events[i].task;
            && (run[i + 1].tasks[t].submitted <==> exists c :: c in s.waiting && s.waiting[c].task == t)
            && (run[i + 1].tasks[t].submitted <==> run[i + 1].tasks[t].outcome != Some(Cancelled))
            && (forall c :: c in s.waiting && s.waiting[c].key == s.tasks[t].key ==> s.waiting[c].task == t)
  {
    var s, t := run[i], events[i].task;
    InvariantHolds(run, events, i);
    WaitersAreCounted(run, events, i, s.tasks[t].key);
    forall c | c in s.waiting && s.waiting[c].key == s.tasks[t].key
      ensures s.waiting[c].task == t
    {
      assert !s.tasks[s.waiting[c].task].popped;
    }
  }

  lemma {:induction false} SubmissionLasts(run: seq<State>, events: seq<Event>, i: nat, j: nat, t: TaskId)
    requires IsRun(run, events) && i <= j < |run| && t < |run[i].tasks|
    ensures t < |run[j].tasks| && (run[i].tasks[t].submitted ==> run[j].tasks[t].submitted)
    ensures run[i].tasks[t].outcome.Some? ==> run[j].tasks[t].outcome == run[i].tasks[t].outcome
  {
    if i < j {
      SubmissionLasts(run, events, i, j - 1, t);
    }
  }

  lemma {:induction false} WaitLasts(run: seq<State>, events: seq<Event>, i: nat, j: nat, c: CallerId)
    requires IsRun(run, events) && i <= j < |run| && c in run[i].waiting && c in run[j].waiting
    ensures run[j].waiting[c] == run[i].waiting[c]
  {
    if i < j {
      if c in run[j - 1].waiting {
        WaitLasts(run, events, i, j - 1, c);
      } else {
        LeftForGood(run, events, i, j - 1, c);
      }
    }
  }

  lemma {:induction false} LeftForGood(run: seq<State>, events: seq<Event>, i: nat, j: nat, c: CallerId)
    requires IsRun(run, events) && i <= j < |run| && c in run[i].waiting
    ensures c in run[j].waiting || c in run[j].left
  {
    if i < j {
      LeftForGood(run, events, i, j - 1, c);
    }
  }

  /**
   No payment goes unreported: a call that waits for a task once it has submitted, or joins it
   later, leaves with its result, its error, or the hash of what was submitted; never by a bare
   cancellation. A call that waits the task out gets its result or its error exactly as it ended; one
   that is cancelled, or whose task is, gets the hash exactly if there was a submission.
   */
  lemma SubmissionIsReported(run: seq<State>, events: seq<Event>, i: nat, j: nat, c: CallerId)
    requires IsRun(run, events) && i < |run| && c in run[i].waiting
    requires i <= j < |events| && events[j].Leave? && events[j].caller == c
    ensures var t := run[i].waiting[c].task;
            && c in run[j + 1].left && t < |run[i].tasks| && t < |run[j].tasks|
            && (run[i].tasks[t].submitted ==> run[j + 1].left[c] != Abandoned)
            && var (exit, task) := (run[j + 1].left[c], run[j].tasks[t]);
               var cut := events[j].cancelled || task.outcome == Some(Cancelled);
               && (exit == OutcomeUnknown <==> cut && task.submitted) && (exit == Abandoned <==> cut && !task.submitted)
               && (exit == Returned <==> !cut && task.outcome == Some(Signed))
               && (exit == Failed <==> !cut && task.outcome.Some? && task.outcome.value.Raised?)
  {
    var t := run[i].waiting[c].task;
    InvariantHolds(run, events, i);
    WaitLasts(run, events, i, j, c);
    SubmissionLasts(run, events, i, j, t);
  }
}
