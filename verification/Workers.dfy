/**
 * Serialised worker-assignment edits (src/state/projectStore.ts, `updateAssignedWorkers`).
 * Each call becomes one task on its project's promise chain.
 */
module Workers {
  import opened Wrappers

  type ProjectId = nat
  type TaskId = nat

  /** What the store shows as a project's assigned workers. */
  type Assigned = seq<nat>

  datatype Phase =
    | Waiting
    | Running(before: Option<Assigned>)
    | Settled
    | Finished  // its `finally` has run

  /** `prior` is the promise the task was chained onto, if the queue held one. */
  datatype Task = Task(project: ProjectId, optimistic: Assigned, prior: Option<TaskId>, phase: Phase)

  /** How the request ends: thrown or refused, session expired, or confirmed with the
      assignment the server wrote back. */
  datatype Outcome = Refused | Expired | Confirmed(workers: Assigned)

  datatype State = State(
    projects: map<ProjectId, Assigned>, mutationInFlight: set<ProjectId>,
    queue: map<ProjectId, TaskId>, tasks: seq<Task>)

  datatype Event =
    | Dispatch(project: ProjectId, optimistic: Assigned)
    | Start(task: TaskId)
    | Respond(task: TaskId, outcome: Outcome)
    | Finally(task: TaskId)

  function Initial(projects: map<ProjectId, Assigned>): State {
    State(projects, {}, map[], [])
  }

  function Lookup(s: State, p: ProjectId): Option<Assigned> {
    if p in s.projects then Some(s.projects[p]) else None
  }

  /** `projects.map((p) => p.id === id ? … : p)`: only a listed project changes. */
  function SetAssigned(s: State, p: ProjectId, workers: Assigned): map<ProjectId, Assigned> {
    if p in s.projects then s.projects[p := workers] else s.projects
  }

  function OrEmpty(before: Option<Assigned>): Assigned {
    if before.Some? then before.value else []
  }

  predicate HasSettled(t: Task) {
    t.phase.Settled? || t.phase.Finished?
  }

  /** A task starts once the promise it waits for has settled; tasks never reject. */
  predicate Enabled(s: State, e: Event) {
    match e
    case Dispatch(_, _) => true
    case Start(t) =>
      t < |s.tasks| && s.tasks[t].phase.Waiting?
      && (s.tasks[t].prior.Some? ==> s.tasks[t].prior.value < |s.tasks| && HasSettled(s.tasks[s.tasks[t].prior.value]))
    case Respond(t, _) => t < |s.tasks| && s.tasks[t].phase.Running?
    case Finally(t) => t < |s.tasks| && s.tasks[t].phase.Settled?
  }

  function Step(s: State, e: Event): State
    requires Enabled(s, e)
  {
    match e
    case Dispatch(p, optimistic) =>
      var prior := if p in s.queue then Some(s.queue[p]) else None;
      s.(tasks := s.tasks + [Task(p, optimistic, prior, Waiting)], queue := s.queue[p := |s.tasks|])
    case Start(t) =>
      var p := s.tasks[t].project;
      s.(tasks := s.tasks[t := s.tasks[t].(phase := Running(Lookup(s, p)))],
         projects := SetAssigned(s, p, s.tasks[t].optimistic),
         mutationInFlight := s.mutationInFlight + {p})
    case Respond(t, outcome) =>
      var p := s.tasks[t].project;
      var settled := s.tasks[t := s.tasks[t].(phase := Settled)];
      (match outcome
       case Expired => s.(tasks := settled)
       case Refused =>
         s.(tasks := settled, projects := SetAssigned(s, p, OrEmpty(s.tasks[t].phase.before)),
            mutationInFlight := s.mutationInFlight - {p})
       case Confirmed(workers) =>
         s.(tasks := settled, projects := SetAssigned(s, p, workers),
            mutationInFlight := s.mutationInFlight - {p}))
    case Finally(t) =>
      var p := s.tasks[t].project;
      s.(tasks := s.tasks[t := s.tasks[t].(phase := Finished)],
         queue := if p in s.queue && s.queue[p] == t then s.queue - {p} else s.queue)
  }

  class ProjectStore {
    var projects: map<ProjectId, Assigned>
    var mutationInFlight: set<ProjectId>
    var queue: map<ProjectId, TaskId>
    var tasks: seq<Task>

    ghost function Abstract(): State
      reads this
    {
      State(projects, mutationInFlight, queue, tasks)
    }

    constructor (listed: map<ProjectId, Assigned>)
      ensures Abstract() == Initial(listed)
    {
      projects, mutationInFlight, queue, tasks := listed, {}, map[], [];
    }

    /** The synchronous part of the call: chain onto the queue and become its tail. */
    method UpdateAssignedWorkers(id: ProjectId, optimistic: Assigned) returns (task: TaskId)
      modifies this
      ensures Abstract() == Step(old(Abstract()), Dispatch(id, optimistic)) && task == |old(tasks)|
    {
      var prior := if id in queue then Some(queue[id]) else None;
      task := |tasks|;
      tasks := tasks + [Task(id, optimistic, prior, Waiting)];
      queue := queue[id := task];
    }

    /** The task body up to its request. */
    method Begin(task: TaskId)
      requires Enabled(Abstract(), Start(task))
      modifies this
      ensures Abstract() == Step(old(Abstract()), Start(task))
    {
      var id := tasks[task].project;
      var before := if id in projects then Some(projects[id]) else None;
      if id in projects {
        projects := projects[id := tasks[task].optimistic];
      }
      mutationInFlight := mutationInFlight + {id};
      tasks := tasks[task := tasks[task].(phase := Running(before))];
    }

    /** The task body after its request. */
    method Complete(task: TaskId, outcome: Outcome)
      requires Enabled(Abstract(), Respond(task, outcome))
      modifies this
      ensures Abstract() == Step(old(Abstract()), Respond(task, outcome))
    {
      var id := tasks[task].project;
      var before := tasks[task].phase.before;
      tasks := tasks[task := tasks[task].(phase := Settled)];
      if outcome.Expired? {
        return;
      }
      if id in projects {
        projects := projects[id := if outcome.Confirmed? then outcome.workers else OrEmpty(before)];
      }
      mutationInFlight := mutationInFlight - {id};
    }

    method DropFromQueue(task: TaskId)
      requires Enabled(Abstract(), Finally(task))
      modifies this
      ensures Abstract() == Step(old(Abstract()), Finally(task))
    {
      var id := tasks[task].project;
      tasks := tasks[task := tasks[task].(phase := Finished)];
      if id in queue && queue[id] == task {
        queue := queue - {id};
      }
    }
  }

  // ---- Every run -------------------------------------------------------------

  ghost predicate ValidRun(s: State, run: seq<Event>)
    decreases run
  {
    run == [] || (Enabled(s, run[0]) && ValidRun(Step(s, run[0]), run[1..]))
  }

  function After(s: State, run: seq<Event>): State
    requires ValidRun(s, run)
    decreases run
  {
    if run == [] then s else After(Step(s, run[0]), run[1..])
  }

  /** Two tasks of one project, the first dispatched earlier. */
  ghost predicate Precedes(s: State, t: int, u: int) {
    0 <= t < u < |s.tasks| && s.tasks[t].project == s.tasks[u].project
  }

  /** The chain: one task at a time in dispatch order, each waiting for its predecessor, and
      the queue entry its tail. */
  ghost predicate InOrder(s: State) {
    && (forall t, u :: Precedes(s, t, u) && !s.tasks[u].phase.Waiting? ==> HasSettled(s.tasks[t]))
    && (forall t, u :: Precedes(s, t, u) && s.tasks[u].prior.None? ==> HasSettled(s.tasks[t]))
  }

  ghost predicate Chained(s: State) {
    && (forall u :: 0 <= u < |s.tasks| && s.tasks[u].prior.Some? ==> Precedes(s, s.tasks[u].prior.value, u))
    && (forall t, u :: Precedes(s, t, u) && s.tasks[u].prior.Some? ==> t <= s.tasks[u].prior.value)
  }

  ghost predicate QueueHoldsTail(s: State) {
    && (forall p :: p in s.queue ==> s.queue[p] < |s.tasks| && s.tasks[s.queue[p]].project == p)
    && (forall t :: 0 <= t < |s.tasks| && s.tasks[t].project in s.queue ==> t <= s.queue[s.tasks[t].project])
    && (forall t :: 0 <= t < |s.tasks| && s.tasks[t].project !in s.queue ==> HasSettled(s.tasks[t]))
  }

  ghost predicate Serial(s: State) {
    InOrder(s) && Chained(s) && QueueHoldsTail(s)
  }

  lemma EarlierSettled(s: State, t: TaskId)
    requires Serial(s) && Enabled(s, Start(t))
    ensures forall u :: Precedes(s, u, t) ==> HasSettled(s.tasks[u])
  {
    forall u | Precedes(s, u, t)
      ensures HasSettled(s.tasks[u])
    {
      if s.tasks[t].prior.Some? && u < s.tasks[t].prior.value {
        assert Precedes(s, u, s.tasks[t].prior.value);
      }
    }
  }

  /** Moving one task on, with the queue as it was or freed of that task. */
  ghost predicate Moves(s: State, n: State, t: TaskId, phase: Phase) {
    && t < |s.tasks| && n.tasks == s.tasks[t := s.tasks[t].(phase := phase)]
    && (HasSettled(s.tasks[t]) ==> phase.Finished?)
    && (n.queue == s.queue
        || (phase.Finished? && n.queue == s.queue - {s.tasks[t].project}
            && s.tasks[t].project in s.queue && s.queue[s.tasks[t].project] == t))
  }

  lemma MoveKeepsTail(s: State, n: State, t: TaskId, phase: Phase)
    requires Moves(s, n, t, phase) && QueueHoldsTail(s)
    requires phase.Waiting? || (forall u :: Precedes(s, u, t) ==> HasSettled(s.tasks[u]))
    ensures QueueHoldsTail(n)
  {
    if n.queue != s.queue {
      forall u | 0 <= u < |n.tasks| && n.tasks[u].project !in n.queue
        ensures HasSettled(n.tasks[u])
      {
        if u != t && s.tasks[u].project == s.tasks[t].project {
          assert Precedes(s, u, t);
        }
      }
    }
  }

  lemma MoveKeepsOrder(s: State, n: State, t: TaskId, phase: Phase)
    requires Moves(s, n, t, phase) && InOrder(s)
    requires phase.Waiting? || (forall u :: Precedes(s, u, t) ==> HasSettled(s.tasks[u]))
    ensures InOrder(n)
  {
    assert forall u, v :: Precedes(n, u, v) <==> Precedes(s, u, v);
  }

  lemma MoveKeepsChain(s: State, n: State, t: TaskId, phase: Phase)
    requires Moves(s, n, t, phase) && Chained(s)
    ensures Chained(n)
  {
    assert forall u, v :: Precedes(n, u, v) <==> Precedes(s, u, v);
  }

  lemma MoveKeepsSerial(s: State, n: State, t: TaskId, phase: Phase)
    requires Moves(s, n, t, phase) && Serial(s)
    requires phase.Waiting? || (forall u :: Precedes(s, u, t) ==> HasSettled(s.tasks[u]))
    ensures Serial(n)
  {
    hide QueueHoldsTail, InOrder, Chained, Moves;
    MoveKeepsTail(s, n, t, phase);
    MoveKeepsOrder(s, n, t, phase);
    MoveKeepsChain(s, n, t, phase);
  }

  lemma DispatchKeepsOrder(s: State, p: ProjectId, optimistic: Assigned)
    requires Serial(s)
    ensures InOrder(Step(s, Dispatch(p, optimistic)))
  {
    var n := Step(s, Dispatch(p, optimistic));
    assert forall u, v :: v < |s.tasks| ==> (Precedes(n, u, v) <==> Precedes(s, u, v));
  }

  lemma DispatchKeepsChain(s: State, p: ProjectId, optimistic: Assigned)
    requires Serial(s)
    ensures Chained(Step(s, Dispatch(p, optimistic)))
  {
    hide InOrder;
    var n := Step(s, Dispatch(p, optimistic));
    assert forall u, v :: v < |s.tasks| ==> (Precedes(n, u, v) <==> Precedes(s, u, v));
  }

  lemma DispatchKeepsSerial(s: State, p: ProjectId, optimistic: Assigned)
    requires Serial(s)
    ensures Serial(Step(s, Dispatch(p, optimistic)))
  {
    DispatchKeepsOrder(s, p, optimistic);
    DispatchKeepsChain(s, p, optimistic);
    hide InOrder, Chained;
  }

  lemma StepKeepsSerial(s: State, e: Event)
    requires Serial(s) && Enabled(s, e)
    ensures Serial(Step(s, e))
  {
    match e {
      case Dispatch(p, optimistic) => DispatchKeepsSerial(s, p, optimistic);
      case Start(t) =>
        EarlierSettled(s, t);
        MoveKeepsSerial(s, Step(s, e), t, Running(Lookup(s, s.tasks[t].project)));
      case Respond(t, _) => MoveKeepsSerial(s, Step(s, e), t, Settled);
      case Finally(t) => MoveKeepsSerial(s, Step(s, e), t, Finished);
    }
  }

  lemma {:induction false} RunKeepsSerial(s: State, run: seq<Event>)
    requires Serial(s) && ValidRun(s, run)
    ensures Serial(After(s, run))
    decreases run
  {
    if run != [] {
      StepKeepsSerial(s, run[0]);
      RunKeepsSerial(Step(s, run[0]), run[1..]);
    }
  }

  /** Edits of one project run one at a time in dispatch order: when a task starts, every
      earlier one has settled; at most one task of a project runs; and while any task of a
      project is unsettled, the queue entry is the last task dispatched for it. */
  lemma EditsAreSerial(projects: map<ProjectId, Assigned>, run: seq<Event>)
    requires ValidRun(Initial(projects), run)
    ensures var s := After(Initial(projects), run);
            && (forall t, u :: Precedes(s, t, u) && Enabled(s, Start(u)) ==> HasSettled(s.tasks[t]))
            && (forall t, u :: Precedes(s, t, u) ==> !(s.tasks[t].phase.Running? && s.tasks[u].phase.Running?))
            && (forall t :: 0 <= t < |s.tasks| && !HasSettled(s.tasks[t]) ==>
                  var p := s.tasks[t].project;
                  p in s.queue && t <= s.queue[p] && forall u :: Precedes(s, s.queue[p], u) ==> false)
  {
    RunKeepsSerial(Initial(projects), run);
    var s := After(Initial(projects), run);
    forall t, u | Precedes(s, t, u) && Enabled(s, Start(u))
      ensures HasSettled(s.tasks[t])
    {
      EarlierSettled(s, u);
    }
  }

  lemma {:induction false} EarliestUnsettled(s: State, p: ProjectId, t: nat) returns (m: nat)
    requires t < |s.tasks| && s.tasks[t].project == p && !HasSettled(s.tasks[t])
    ensures m < |s.tasks| && s.tasks[m].project == p && !HasSettled(s.tasks[m])
    ensures forall u :: Precedes(s, u, m) ==> HasSettled(s.tasks[u])
  {
    m := t;
    if u :| Precedes(s, u, t) && !HasSettled(s.tasks[u]) {
      m := EarliestUnsettled(s, p, u);
    }
  }

  /** The queue is no leak: an entry's task has not finished, so a project whose tasks have all
      finished has none. */
  ghost predicate EntriesAreOpen(s: State) {
    forall p :: p in s.queue ==> s.queue[p] < |s.tasks| && !s.tasks[s.queue[p]].phase.Finished?
  }

  lemma StepKeepsEntriesOpen(s: State, e: Event)
    requires Serial(s) && EntriesAreOpen(s) && Enabled(s, e)
    ensures EntriesAreOpen(Step(s, e))
  {
    assert forall p :: p in s.queue ==> s.tasks[s.queue[p]].project == p;
    hide InOrder, Chained;
  }

  lemma {:induction false} RunKeepsEntriesOpen(s: State, run: seq<Event>)
    requires Serial(s) && EntriesAreOpen(s) && ValidRun(s, run)
    ensures EntriesAreOpen(After(s, run))
    decreases run
  {
    if run != [] {
      StepKeepsSerial(s, run[0]);
      StepKeepsEntriesOpen(s, run[0]);
      RunKeepsEntriesOpen(Step(s, run[0]), run[1..]);
    }
  }

  /** An edit lists no project that the store did not. */
  lemma {:induction false} NoProjectAppears(s: State, run: seq<Event>)
    requires ValidRun(s, run)
    ensures After(s, run).projects.Keys == s.projects.Keys
    decreases run
  {
    if run != [] {
      NoProjectAppears(Step(s, run[0]), run[1..]);
    }
  }

  lemma QueueDrains(projects: map<ProjectId, Assigned>, run: seq<Event>, p: ProjectId)
    requires ValidRun(Initial(projects), run)
    ensures var s := After(Initial(projects), run);
            (forall t :: 0 <= t < |s.tasks| && s.tasks[t].project == p ==> s.tasks[t].phase.Finished?) ==> p !in s.queue
  {
    RunKeepsSerial(Initial(projects), run);
    RunKeepsEntriesOpen(Initial(projects), run);
  }

  /** The chain never stalls: while a task of the project is unsettled, one of them runs or
      may start. */
  lemma ChainNeverStalls(projects: map<ProjectId, Assigned>, run: seq<Event>, t: nat)
    requires ValidRun(Initial(projects), run)
    requires var s := After(Initial(projects), run); t < |s.tasks| && !HasSettled(s.tasks[t])
    ensures var s := After(Initial(projects), run);
            exists m: nat :: m < |s.tasks| && s.tasks[m].project == s.tasks[t].project
                             && (s.tasks[m].phase.Running? || Enabled(s, Start(m)))
  {
    var s := After(Initial(projects), run);
    RunKeepsSerial(Initial(projects), run);
    var m := EarliestUnsettled(s, s.tasks[t].project, t);
    if s.tasks[m].prior.Some? {
      assert Precedes(s, s.tasks[m].prior.value, m);
    }
    assert s.tasks[m].phase.Running? || Enabled(s, Start(m));
  }

  // ---- Rolling back to the right baseline ---------------------------------------

  /** How one edit of a project ended, and what it had shown meanwhile. */
  datatype Answer = Answer(optimistic: Assigned, outcome: Outcome)

  function AnswerIn(s: State, e: Event, p: ProjectId): seq<Answer>
    requires Enabled(s, e)
  {
    if e.Respond? && s.tasks[e.task].project == p then [Answer(s.tasks[e.task].optimistic, e.outcome)] else []
  }

  /** The answers one project's edits got in a run. */
  function Answers(s: State, run: seq<Event>, p: ProjectId): seq<Answer>
    requires ValidRun(s, run)
    decreases run
  {
    if run == [] then [] else AnswerIn(s, run[0], p) + Answers(Step(s, run[0]), run[1..], p)
  }

  /** The assignment the server last confirmed: its last reply, or the one first listed. */
  function LastConfirmed(listed: Assigned, answers: seq<Answer>): Assigned {
    if answers == [] then listed
    else
      match answers[|answers| - 1].outcome
      case Confirmed(workers) => workers
      case _ => LastConfirmed(listed, answers[..|answers| - 1])
  }

  /** The assignment the answers leave: the last one not refused decides, by the server's reply
      or, where the session expired, by what the edit itself had shown. */
  function LastLeft(listed: Assigned, answers: seq<Answer>): Assigned {
    if answers == [] then listed
    else
      var last := answers[|answers| - 1];
      match last.outcome
      case Confirmed(workers) => workers
      case Expired => last.optimistic
      case Refused => LastLeft(listed, answers[..|answers| - 1])
  }

  /** The in-flight mark they leave: only an expired session does not clear it. */
  predicate MarkLeft(marked: bool, answers: seq<Answer>) {
    if answers == [] then marked else answers[|answers| - 1].outcome.Expired?
  }

  ghost predicate ConfirmedAfter(answers: seq<Answer>, i: nat) {
    exists j :: i < j < |answers| && answers[j].outcome.Confirmed?
  }

  /** Every expired edit is followed by a confirmed one. */
  ghost predicate ExpiriesHealed(answers: seq<Answer>) {
    forall i :: 0 <= i < |answers| && answers[i].outcome.Expired? ==> ConfirmedAfter(answers, i)
  }

  lemma {:induction false} LeftConcat(listed: Assigned, marked: bool, a: seq<Answer>, b: seq<Answer>)
    ensures LastLeft(listed, a + b) == LastLeft(LastLeft(listed, a), b)
    ensures MarkLeft(marked, a + b) == MarkLeft(MarkLeft(marked, a), b)
  {
    if b == [] {
      assert a + b == a;
    } else {
      assert (a + b)[..|a + b| - 1] == a + b[..|b| - 1];
      LeftConcat(listed, marked, a, b[..|b| - 1]);
    }
  }

  lemma HealedBeforeRefusal(answers: seq<Answer>)
    requires answers != [] && answers[|answers| - 1].outcome.Refused? && ExpiriesHealed(answers)
    ensures ExpiriesHealed(answers[..|answers| - 1])
  {
    var rest := answers[..|answers| - 1];
    forall i | 0 <= i < |rest| && rest[i].outcome.Expired?
      ensures ConfirmedAfter(rest, i)
    {
      assert ConfirmedAfter(answers, i);
      var j :| i < j < |answers| && answers[j].outcome.Confirmed?;
      assert rest[j].outcome.Confirmed?;
    }
  }

  lemma {:induction false} HealedLeavesConfirmed(listed: Assigned, answers: seq<Answer>)
    requires ExpiriesHealed(answers)
    ensures LastLeft(listed, answers) == LastConfirmed(listed, answers)
    ensures answers != [] ==> !answers[|answers| - 1].outcome.Expired?
  {
    if answers != [] {
      assert !ConfirmedAfter(answers, |answers| - 1);
      if answers[|answers| - 1].outcome.Refused? {
        HealedBeforeRefusal(answers);
        HealedLeavesConfirmed(listed, answers[..|answers| - 1]);
      }
      hide ConfirmedAfter;
    }
  }

  ghost predicate RunsOn(s: State, t: int, p: ProjectId) {
    0 <= t < |s.tasks| && s.tasks[t].project == p && s.tasks[t].phase.Running?
  }

  ghost predicate Idle(s: State, p: ProjectId) {
    forall t :: !RunsOn(s, t, p)
  }

  /** A running task holds the assignment left so far as its baseline and shows its own; with
      none running the one left shows, and the in-flight mark is as left. */
  ghost predicate Baseline(s: State, p: ProjectId, left: Assigned, marked: bool) {
    && p in s.projects
    && (forall t :: RunsOn(s, t, p) ==>
          s.tasks[t].phase.before == Some(left) && s.projects[p] == s.tasks[t].optimistic
          && p in s.mutationInFlight)
    && (Idle(s, p) ==> s.projects[p] == left && (p in s.mutationInFlight <==> marked))
  }

  lemma OthersSettled(s: State, p: ProjectId, t: TaskId)
    requires Serial(s) && t < |s.tasks| && s.tasks[t].project == p
    requires s.tasks[t].phase.Running? || Enabled(s, Start(t))
    ensures forall u :: u != t ==> !RunsOn(s, u, p)
  {
    if Enabled(s, Start(t)) {
      EarlierSettled(s, t);
    }
    forall u | u != t
      ensures !RunsOn(s, u, p)
    {
      assert RunsOn(s, u, p) ==> Precedes(s, u, t) || Precedes(s, t, u);
    }
  }

  /** A step that leaves the project's shown assignment, mark and running task alone. */
  lemma UntouchedKeepsBaseline(s: State, n: State, p: ProjectId, left: Assigned, marked: bool)
    requires Baseline(s, p, left, marked) && Lookup(n, p) == Lookup(s, p)
    requires p in n.mutationInFlight <==> p in s.mutationInFlight
    requires forall t :: RunsOn(n, t, p) <==> RunsOn(s, t, p)
    requires forall t :: RunsOn(n, t, p) ==> n.tasks[t] == s.tasks[t]
    ensures Baseline(n, p, left, marked)
  {}

  predicate Touches(s: State, e: Event, p: ProjectId)
    requires Enabled(s, e)
  {
    (e.Start? || e.Respond?) && s.tasks[e.task].project == p
  }

  /** A task that starts or ends leaves no other running on its project. */
  lemma OnlyTaskRuns(s: State, e: Event, p: ProjectId)
    requires Serial(s) && Enabled(s, e) && Touches(s, e, p)
    ensures forall u :: u != e.task ==> !RunsOn(s, u, p) && !RunsOn(Step(s, e), u, p)
    ensures RunsOn(Step(s, e), e.task, p) <==> e.Start?
  {
    OthersSettled(s, p, e.task);
    hide Serial;
    var n := Step(s, e);
    forall u | u != e.task
      ensures !RunsOn(s, u, p) && !RunsOn(n, u, p)
    {
      assert !RunsOn(s, u, p);
      assert 0 <= u < |n.tasks| ==> n.tasks[u] == s.tasks[u];
    }
  }

  lemma StartKeepsBaseline(s: State, t: TaskId, p: ProjectId, left: Assigned, marked: bool)
    requires Serial(s) && Enabled(s, Start(t)) && s.tasks[t].project == p && Baseline(s, p, left, marked)
    ensures Baseline(Step(s, Start(t)), p, left, marked)
  {
    OnlyTaskRuns(s, Start(t), p);
    hide Serial;
    assert Idle(s, p) by {
      assert !RunsOn(s, t, p);
    }
  }

  lemma RespondKeepsBaseline(s: State, e: Event, p: ProjectId, left: Assigned, marked: bool)
    requires Serial(s) && Enabled(s, e) && e.Respond? && s.tasks[e.task].project == p && Baseline(s, p, left, marked)
    ensures var answers := AnswerIn(s, e, p);
            Baseline(Step(s, e), p, LastLeft(left, answers), MarkLeft(marked, answers))
  {
    OnlyTaskRuns(s, e, p);
    hide Serial;
    assert RunsOn(s, e.task, p);
    assert LastLeft(left, []) == left;
  }

  lemma StepKeepsBaseline(s: State, e: Event, p: ProjectId, left: Assigned, marked: bool)
    requires Serial(s) && Enabled(s, e) && Baseline(s, p, left, marked)
    ensures var answers := AnswerIn(s, e, p);
            Baseline(Step(s, e), p, LastLeft(left, answers), MarkLeft(marked, answers))
  {
    if !Touches(s, e, p) {
      hide Serial;
      UntouchedKeepsBaseline(s, Step(s, e), p, left, marked);
    } else if e.Start? {
      StartKeepsBaseline(s, e.task, p, left, marked);
      hide Serial, Baseline;
    } else {
      RespondKeepsBaseline(s, e, p, left, marked);
      hide Serial, Baseline;
    }
  }

  lemma {:induction false} RunKeepsBaseline(s: State, run: seq<Event>, p: ProjectId, left: Assigned, marked: bool)
    requires Serial(s) && ValidRun(s, run) && Baseline(s, p, left, marked)
    ensures var answers := Answers(s, run, p);
            Baseline(After(s, run), p, LastLeft(left, answers), MarkLeft(marked, answers))
    decreases run
  {
    if run != [] {
      var first := AnswerIn(s, run[0], p);
      StepKeepsSerial(s, run[0]);
      StepKeepsBaseline(s, run[0], p, left, marked);
      LeftConcat(left, marked, first, Answers(Step(s, run[0]), run[1..], p));
      RunKeepsBaseline(Step(s, run[0]), run[1..], p, LastLeft(left, first), MarkLeft(marked, first));
    }
  }

  /** Over every run, whatever mix of confirmed, refused and expired edits it holds and given no
      other writer of the project: while none runs, the store shows what the last edit not
      refused left, and the project is marked as in flight exactly if its last edit expired. */
  lemma ShowsLastLeft(projects: map<ProjectId, Assigned>, run: seq<Event>, p: ProjectId)
    requires p in projects && ValidRun(Initial(projects), run)
    ensures var s, answers := After(Initial(projects), run), Answers(Initial(projects), run, p);
            Idle(s, p) ==>
              && Lookup(s, p) == Some(LastLeft(projects[p], answers))
              && (p in s.mutationInFlight <==> answers != [] && answers[|answers| - 1].outcome.Expired?)
  {
    RunKeepsBaseline(Initial(projects), run, p, projects[p], false);
  }

  /** So it shows the assignment last confirmed by the server whenever no session has expired
      under an edit of the project since that confirmation. */
  lemma ShowsLastConfirmed(projects: map<ProjectId, Assigned>, run: seq<Event>, p: ProjectId)
    requires p in projects && ValidRun(Initial(projects), run)
    requires ExpiriesHealed(Answers(Initial(projects), run, p))
    ensures var s, answers := After(Initial(projects), run), Answers(Initial(projects), run, p);
            Idle(s, p) ==> Lookup(s, p) == Some(LastConfirmed(projects[p], answers)) && p !in s.mutationInFlight
  {
    ShowsLastLeft(projects, run, p);
    HealedLeavesConfirmed(projects[p], Answers(Initial(projects), run, p));
  }

  /** Otherwise an expired edit's own assignment stays, through any refused edits after it (the
      first of which clears the mark), until an edit is confirmed or expires again. */
  lemma ExpiryKeepsOptimistic(projects: map<ProjectId, Assigned>, run: seq<Event>, p: ProjectId, i: nat)
    requires p in projects && ValidRun(Initial(projects), run) && Idle(After(Initial(projects), run), p)
    requires var answers := Answers(Initial(projects), run, p);
             && i < |answers| && answers[i].outcome.Expired?
             && forall j :: i < j < |answers| ==> answers[j].outcome.Refused?
    ensures var s, answers := After(Initial(projects), run), Answers(Initial(projects), run, p);
            && Lookup(s, p) == Some(answers[i].optimistic)
            && (p in s.mutationInFlight <==> i == |answers| - 1)
  {
    ShowsLastLeft(projects, run, p);
    RefusalsKeep(projects[p], Answers(Initial(projects), run, p), i);
  }

  lemma {:induction false} RefusalsKeep(listed: Assigned, answers: seq<Answer>, i: nat)
    requires i < |answers| && answers[i].outcome.Expired?
    requires forall j :: i < j < |answers| ==> answers[j].outcome.Refused?
    ensures LastLeft(listed, answers) == answers[i].optimistic
  {
    var n := |answers| - 1;
    if i < n {
      assert answers[..n][i] == answers[i];
      RefusalsKeep(listed, answers[..n], i);
    }
  }

  /** It happens: one edit, its session expired, and what shows was never confirmed. */
  lemma UnconfirmedStays(p: ProjectId, listed: Assigned, edited: Assigned)
    ensures var projects: map<ProjectId, Assigned> := map[p := listed];
            var run := [Dispatch(p, edited), Start(0), Respond(0, Expired)];
            && ValidRun(Initial(projects), run)
            && Lookup(After(Initial(projects), run), p) == Some(edited)
  {
    var projects: map<ProjectId, Assigned> := map[p := listed];
    var waiting := Task(p, edited, None, Waiting);
    var s0 := Initial(projects);
    var s1 := Step(s0, Dispatch(p, edited));
    assert s1 == State(projects, {}, map[p := 0], [waiting]);
    var s2 := Step(s1, Start(0));
    assert s2.tasks == [waiting.(phase := Running(Some(listed)))] && s2.projects == map[p := edited];
    assert Step(s2, Respond(0, Expired)).projects == map[p := edited];
    RunCons(s2, Respond(0, Expired), []);
    RunCons(s1, Start(0), [Respond(0, Expired)]);
    RunCons(s0, Dispatch(p, edited), [Start(0), Respond(0, Expired)]);
  }

  lemma RunCons(s: State, e: Event, rest: seq<Event>)
    ensures ValidRun(s, [e] + rest) <==> Enabled(s, e) && ValidRun(Step(s, e), rest)
    ensures ValidRun(s, [e] + rest) ==> After(s, [e] + rest) == After(Step(s, e), rest)
  {
    assert ([e] + rest)[1..] == rest;
  }
}
