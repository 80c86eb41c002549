/**
  Commit first, dispatch second.  Any number of order requests run at once, each as a sequence of small
  steps that interleave freely; any of them may die between two steps, which rolls back what it has not
  committed.  The broker is the sequence of tasks ever sent.
 */
module Dispatch {
  import opened Wrappers
  import opened Certification

  datatype Row = Row(status: OrderStatus, action: OrderAction, taskId: Option<int>)
  datatype QueuedTask = QueuedTask(taskId: int, orderId: int, queue: string)

  /** A request; each constructor but the last two is the point it has reached. */
  datatype Job =
    | CreateStarted(action: OrderAction)
    | CreateFlushed(orderId: int, action: OrderAction)
    | CreateCommitted(orderId: int, action: OrderAction)
    | CreateSent(orderId: int, action: OrderAction, taskId: int)
      /** A retry of a failed order; from its commit on it goes the way of a create. */
    | RetryFlushed(orderId: int, action: OrderAction)
    | MarkFlushed(orderId: int, status: OrderStatus, dispatches: bool)
    | MarkCommitted(orderId: int)
      /** It ran to its end, for this order, and sent a task for that action, or had none to send. */
    | Done(orderId: int, sent: Option<OrderAction>)
      /** It died at that point. */
    | Died(at: Job)

  /** What happened, in order.  `due` is the action the commit calls for a task for, if it does. */
  datatype Event =
    | Committed(job: int, orderId: int, due: Option<OrderAction>)
    | Sent(job: int, task: QueuedTask)

  datatype World = World(db: map<int, Row>, nextOrder: int, broker: seq<QueuedTask>, nextTask: int,
                         jobs: map<int, Job>, nextJob: int, history: seq<Event>)

  const START := World(map[], 1, [], 1, map[], 1, [])

  datatype Step =
    | BeginCreate(action: OrderAction)
    | BeginCancel(orderId: int)
    | BeginRevoke(orderId: int)
    | BeginRetry(orderId: int)
    | Advance(job: int)
    | Crash(job: int)
      /** Workers and other routes change or delete committed rows, but not the task id they carry. */
    | Elsewhere(orderId: int, status: OrderStatus, action: OrderAction)
    | DeleteOrder(orderId: int)

  function QueueFor(action: OrderAction): string {
    if action.Delete? then "reclaim" else "provision"
  }

  predicate NeedsRunbook(status: OrderStatus) {
    status.Delivered? || status.Processing? || status.Provisioned?
  }

  predicate Final(status: OrderStatus) {
    status.OrderRevoked? || status.OrderCancelled? || status.Rejected?
  }

  function Begin(w: World, job: Job): World {
    w.(jobs := w.jobs[w.nextJob := job], nextJob := w.nextJob + 1)
  }

  function SendTask(w: World, job: int, orderId: int, queue: string, next: Job): World {
    var task := QueuedTask(w.nextTask, orderId, queue);
    w.(broker := w.broker + [task], nextTask := w.nextTask + 1, history := w.history + [Sent(job, task)],
       jobs := w.jobs[job := next])
  }

  function CommitRow(w: World, job: int, orderId: int, row: Row, due: Option<OrderAction>, next: Job): World {
    w.(db := w.db[orderId := row], history := w.history + [Committed(job, orderId, due)], jobs := w.jobs[job := next])
  }

  /** The next step of one request. */
  function AdvanceJob(w: World, j: int): World
    requires j in w.jobs
  {
    match w.jobs[j]
    case CreateStarted(action) =>
      w.(jobs := w.jobs[j := CreateFlushed(w.nextOrder, action)], nextOrder := w.nextOrder + 1)
    case CreateFlushed(o, action) =>
      CommitRow(w, j, o, Row(Processing, action, None), Some(action), CreateCommitted(o, action))
    case CreateCommitted(o, action) => SendTask(w, j, o, QueueFor(action), CreateSent(o, action, w.nextTask))
    case CreateSent(o, action, t) =>
      w.(db := if o in w.db then w.db[o := w.db[o].(taskId := Some(t))] else w.db,
         jobs := w.jobs[j := Done(o, Some(action))])
    case RetryFlushed(o, action) =>
      if o !in w.db then w.(jobs := w.jobs[j := Died(w.jobs[j])])
      else CommitRow(w, j, o, w.db[o].(status := Processing), Some(action), CreateCommitted(o, action))
    case MarkFlushed(o, status, dispatches) =>
      if o !in w.db then w.(jobs := w.jobs[j := Died(w.jobs[j])])
      else
        CommitRow(w, j, o, w.db[o].(status := status, action := if dispatches then Delete else w.db[o].action),
                  if dispatches then Some(Delete) else None,
                  if dispatches then MarkCommitted(o) else Done(o, None))
    case MarkCommitted(o) => SendTask(w, j, o, QueueFor(Delete), Done(o, Some(Delete)))
    case Done(_, _) => w
    case Died(_) => w
  }

  function Next(w: World, step: Step): World {
    match step
    case BeginCreate(action) => Begin(w, CreateStarted(action))
    case BeginCancel(o) =>
      if o in w.db then Begin(w, MarkFlushed(o, OrderCancelled, NeedsRunbook(w.db[o].status))) else w
    case BeginRevoke(o) =>
      if o in w.db && !Final(w.db[o].status) then Begin(w, MarkFlushed(o, Revoking, true)) else w
    case BeginRetry(o) =>
      if o in w.db && w.db[o].status.Failed? then Begin(w, RetryFlushed(o, w.db[o].action)) else w
    case Advance(j) => if j in w.jobs then AdvanceJob(w, j) else w
    case Crash(j) => if j in w.jobs && Alive(w.jobs[j]) then w.(jobs := w.jobs[j := Died(w.jobs[j])]) else w
    case Elsewhere(o, status, action) =>
      if o in w.db then w.(db := w.db[o := w.db[o].(status := status, action := action)]) else w
    case DeleteOrder(o) => w.(db := w.db - {o})
  }

  predicate Alive(job: Job) {
    !job.Done? && !job.Died?
  }

  /** The point a request has reached, or had reached when it died. */
  function Stage(job: Job): Job {
    if job.Died? then job.at else job
  }

  /** Between its commit and its send. */
  predicate Waiting(stage: Job) {
    stage.CreateCommitted? || stage.MarkCommitted?
  }

  function Run(w: World, steps: seq<Step>): World
    decreases |steps|
  {
    if steps == [] then w else Run(Next(w, steps[0]), steps[1..])
  }

  // ----- safety -----

  /** The queue a task for this action belongs on. */
  predicate RightQueue(queue: string, action: OrderAction) {
    queue == if action == Delete then "reclaim" else "provision"
  }

  predicate Commits(history: seq<Event>, job: int, orderId: int, due: Option<OrderAction>) {
    exists i :: 0 <= i < |history| && history[i] == Committed(job, orderId, due)
  }

  predicate WasSent(history: seq<Event>, taskId: int, orderId: int) {
    exists i :: 0 <= i < |history| && history[i].Sent? && history[i].task.taskId == taskId
        && history[i].task.orderId == orderId
  }

  predicate SentBy(history: seq<Event>, job: int) {
    exists i :: 0 <= i < |history| && history[i].Sent? && history[i].job == job
  }

  /** The request sent a task for that order to the queue of that action. */
  predicate SentFor(history: seq<Event>, job: int, orderId: int, action: OrderAction) {
    exists i :: 0 <= i < |history| && history[i].Sent? && history[i].job == job
                && history[i].task.orderId == orderId && RightQueue(history[i].task.queue, action)
  }

  predicate NoEvents(history: seq<Event>, job: int) {
    forall i :: 0 <= i < |history| ==> history[i].job != job
  }

  predicate CommittedBefore(history: seq<Event>, i: int, task: QueuedTask, job: int)
    requires i <= |history|
  {
    exists k :: 0 <= k < i && history[k].Committed? && history[k].job == job && history[k].orderId == task.orderId
                && history[k].due.Some? && RightQueue(task.queue, history[k].due.value)
  }

  /** Every task was sent after a commit of the order it names, by the same request, for an action of its queue. */
  predicate CommitPrecedesSend(history: seq<Event>) {
    forall i :: 0 <= i < |history| && history[i].Sent? ==> CommittedBefore(history, i, history[i].task, history[i].job)
  }

  /** No request commits twice. */
  predicate AtMostOneCommit(history: seq<Event>) {
    forall i, k :: 0 <= i < k < |history| && history[i].Committed? && history[k].Committed? ==>
          history[i].job != history[k].job
  }

  /** No request sends twice. */
  predicate AtMostOneSend(history: seq<Event>) {
    forall i, k :: 0 <= i < k < |history| && history[i].Sent? && history[k].Sent? ==> history[i].job != history[k].job
  }

  /** An order carries a task id only if that task was sent, for that order. */
  predicate TaskIdsWereSent(w: World) {
    forall o :: o in w.db && w.db[o].taskId.Some? ==> WasSent(w.history, w.db[o].taskId.value, o)
  }

  /** What a request has done by the time it reaches a point. */
  predicate StageOk(history: seq<Event>, j: int, stage: Job) {
    match stage
    case CreateStarted(_) => NoEvents(history, j)
    case CreateFlushed(_, _) => NoEvents(history, j)
    case RetryFlushed(_, _) => NoEvents(history, j)
    case MarkFlushed(_, _, _) => NoEvents(history, j)
    case CreateCommitted(o, action) => Commits(history, j, o, Some(action)) && !SentBy(history, j)
    case MarkCommitted(o) => Commits(history, j, o, Some(Delete)) && !SentBy(history, j)
    case CreateSent(o, action, t) =>
      && Commits(history, j, o, Some(action)) && SentFor(history, j, o, action)
      && WasSent(history, t, o)
    case Done(o, sent) =>
      && Commits(history, j, o, sent)
      && (if sent.Some? then SentFor(history, j, o, sent.value) else !SentBy(history, j))
    case Died(_) => false
  }

  function Tasks(history: seq<Event>): seq<QueuedTask> {
    if history == [] then []
    else
      var last := history[|history| - 1];
      Tasks(history[..|history| - 1]) + if last.Sent? then [last.task] else []
  }

  ghost predicate Safe(w: World) {
    && CommitPrecedesSend(w.history) && AtMostOneCommit(w.history) && AtMostOneSend(w.history) && TaskIdsWereSent(w)
    && (forall j :: j in w.jobs ==> j < w.nextJob && StageOk(w.history, j, Stage(w.jobs[j])))
    && (forall i :: 0 <= i < |w.history| ==> w.history[i].job in w.jobs)
    && w.broker == Tasks(w.history)
  }

  lemma HistoryGrows(history: seq<Event>, e: Event)
    ensures forall j, o, due :: Commits(history + [e], j, o, due) <==>
              Commits(history, j, o, due) || e == Committed(j, o, due)
    ensures forall t, o :: WasSent(history + [e], t, o) <==>
                           WasSent(history, t, o) || (e.Sent? && e.task.taskId == t && e.task.orderId == o)
    ensures forall j :: SentBy(history + [e], j) <==> SentBy(history, j) || (e.Sent? && e.job == j)
    ensures forall j, o, a :: SentFor(history + [e], j, o, a) <==>
                              SentFor(history, j, o, a)
                              || (e.Sent? && e.job == j && e.task.orderId == o && RightQueue(e.task.queue, a))
    ensures forall j :: NoEvents(history + [e], j) <==> NoEvents(history, j) && e.job != j
    ensures Tasks(history + [e]) == Tasks(history) + if e.Sent? then [e.task] else []
  {
    var h := history + [e];
    assert h[|history|] == e;
    assert forall i :: 0 <= i < |history| ==> h[i] == history[i];
    assert h[..|h| - 1] == history;
  }

  lemma EventKeepsHistory(history: seq<Event>, e: Event, action: OrderAction)
    requires CommitPrecedesSend(history) && AtMostOneCommit(history) && AtMostOneSend(history)
    requires e.Committed? ==> NoEvents(history, e.job)
    requires e.Sent? ==> !SentBy(history, e.job) && Commits(history, e.job, e.task.orderId, Some(action))
                         && RightQueue(e.task.queue, action)
    ensures CommitPrecedesSend(history + [e]) && AtMostOneCommit(history + [e]) && AtMostOneSend(history + [e])
  {
    var h := history + [e];
    assert h[|history|] == e;
    assert forall i :: 0 <= i < |history| ==> h[i] == history[i];
    forall i | 0 <= i < |h| && h[i].Sent? ensures CommittedBefore(h, i, h[i].task, h[i].job) {
      if i < |history| {
        assert CommittedBefore(history, i, h[i].task, h[i].job);
        var k :| 0 <= k < i && history[k].Committed? && history[k].job == h[i].job
                 && history[k].orderId == h[i].task.orderId
                 && history[k].due.Some? && RightQueue(h[i].task.queue, history[k].due.value);
        assert h[k] == history[k];
      } else {
        var k :| 0 <= k < |history| && history[k] == Committed(e.job, e.task.orderId, Some(action));
        assert h[k] == history[k];
      }
    }
  }

  /** An event of one request leaves the others where they are. */
  lemma OthersStay(history: seq<Event>, e: Event, j: int, stage: Job)
    requires StageOk(history, j, stage) && e.job != j
    ensures StageOk(history + [e], j, stage)
  {
    HistoryGrows(history, e);
    hide Commits, WasSent, SentBy, SentFor, NoEvents;
  }

  /** An event of request `j`, which goes on to `next`. */
  lemma EventIsSafe(w: World, j: int, e: Event, action: OrderAction, after: World)
    requires Safe(w) && j in w.jobs && e.job == j
    requires e.Committed? ==> NoEvents(w.history, j)
    requires e.Sent? ==> !SentBy(w.history, j) && Commits(w.history, j, e.task.orderId, Some(action))
                         && RightQueue(e.task.queue, action)
    requires after.history == w.history + [e] && after.nextJob == w.nextJob && TaskIdsWereSent(after)
    requires after.broker == w.broker + if e.Sent? then [e.task] else []
    requires after.jobs.Keys == w.jobs.Keys && forall k :: k in w.jobs && k != j ==> after.jobs[k] == w.jobs[k]
    requires StageOk(after.history, j, Stage(after.jobs[j]))
    ensures Safe(after)
  {
    EventKeepsHistory(w.history, e, action);
    HistoryGrows(w.history, e);
    hide StageOk, CommitPrecedesSend, AtMostOneCommit, AtMostOneSend, TaskIdsWereSent, Tasks;
    hide Commits, WasSent, SentBy, SentFor, NoEvents, CommittedBefore;
    forall k | k in after.jobs ensures k < after.nextJob && StageOk(after.history, k, Stage(after.jobs[k])) {
      assert k in w.jobs;
      if k != j {
        OthersStay(w.history, e, k, Stage(w.jobs[k]));
      }
    }
    forall i | 0 <= i < |after.history| ensures after.history[i].job in after.jobs {
      assert after.history[i] == if i < |w.history| then w.history[i] else e;
    }
  }

  lemma NoEventsNoSend(history: seq<Event>, j: int)
    requires NoEvents(history, j)
    ensures !SentBy(history, j)
  {
  }

  lemma CommitReaches(history: seq<Event>, j: int, o: int, due: Option<OrderAction>, next: Job)
    requires NoEvents(history, j)
    requires || (next == Done(o, None) && due.None?)
             || (next == MarkCommitted(o) && due == Some(Delete))
             || (next.CreateCommitted? && next.orderId == o && due == Some(next.action))
    ensures StageOk(history + [Committed(j, o, due)], j, Stage(next))
  {
    HistoryGrows(history, Committed(j, o, due));
    NoEventsNoSend(history, j);
    hide Commits, WasSent, SentBy, SentFor, NoEvents, Tasks, QueueFor;
  }

  lemma SendReaches(history: seq<Event>, j: int, o: int, task: QueuedTask, action: OrderAction, next: Job)
    requires Commits(history, j, o, Some(action)) && task.orderId == o && RightQueue(task.queue, action)
    requires next == Done(o, Some(action)) || next == CreateSent(o, action, task.taskId)
    ensures StageOk(history + [Sent(j, task)], j, Stage(next))
  {
    HistoryGrows(history, Sent(j, task));
    hide Commits, WasSent, SentBy, SentFor, NoEvents, Tasks, QueueFor;
  }

  /** Task ids stay sent while the history grows, a row written with its old id or none. */
  lemma TaskIdsStaySent(w: World, e: Event, o: int, row: Row, after: World)
    requires TaskIdsWereSent(w) && after.history == w.history + [e]
    requires || after.db == w.db
             || (after.db == w.db[o := row] && (row.taskId.Some? ==> WasSent(w.history, row.taskId.value, o)))
    ensures TaskIdsWereSent(after)
  {
    HistoryGrows(w.history, e);
    hide Commits, WasSent, SentBy, SentFor, NoEvents, Tasks;
  }

  lemma CommitIsSafe(w: World, j: int, o: int, row: Row, due: Option<OrderAction>, next: Job)
    requires Safe(w) && j in w.jobs && NoEvents(w.history, j)
    requires row.taskId.Some? ==> WasSent(w.history, row.taskId.value, o)
    requires || (next == Done(o, None) && due.None?)
             || (next == MarkCommitted(o) && due == Some(Delete))
             || (next.CreateCommitted? && next.orderId == o && due == Some(next.action))
    ensures Safe(CommitRow(w, j, o, row, due, next))
  {
    var e := Committed(j, o, due);
    var after := CommitRow(w, j, o, row, due, next);
    SafeTaskIds(w);
    hide Commits, WasSent, SentBy, SentFor, NoEvents, Safe, StageOk, Stage, QueueFor, TaskIdsWereSent;
    CommitReaches(w.history, j, o, due, next);
    TaskIdsStaySent(w, e, o, row, after);
    EventIsSafe(w, j, e, Delete, after);
  }

  lemma SafeTaskIds(w: World)
    requires Safe(w)
    ensures TaskIdsWereSent(w)
  {
  }

  lemma RightQueueFor(action: OrderAction)
    ensures RightQueue(QueueFor(action), action)
  {
  }

  lemma SendIsSafe(w: World, j: int, o: int, action: OrderAction, next: Job)
    requires Safe(w) && j in w.jobs && !SentBy(w.history, j) && Commits(w.history, j, o, Some(action))
    requires next == Done(o, Some(action)) || next == CreateSent(o, action, w.nextTask)
    ensures Safe(SendTask(w, j, o, QueueFor(action), next))
  {
    var task := QueuedTask(w.nextTask, o, QueueFor(action));
    var after := SendTask(w, j, o, QueueFor(action), next);
    SafeTaskIds(w);
    RightQueueFor(action);
    hide Commits, WasSent, SentBy, SentFor, NoEvents, Safe, StageOk, Stage, QueueFor, RightQueue, TaskIdsWereSent;
    SendReaches(w.history, j, o, task, action, next);
    TaskIdsStaySent(w, Sent(j, task), o, Row(Processing, Provision, None), after);
    EventIsSafe(w, j, Sent(j, task), action, after);
  }

  lemma MarkIsSafe(w: World, j: int)
    requires Safe(w) && j in w.jobs && w.jobs[j].MarkFlushed? && NoEvents(w.history, j)
    ensures Safe(AdvanceJob(w, j))
  {
    var o, after := w.jobs[j].orderId, AdvanceJob(w, j);
    SafeTaskIds(w);
    hide Safe, Commits, WasSent, SentBy, SentFor, NoEvents, QueueFor;
    if o in w.db {
      CommitIsSafe(w, j, o, after.db[o], if w.jobs[j].dispatches then Some(Delete) else None, after.jobs[j]);
    } else {
      QuietStepIsSafe(w, j, after);
    }
  }

  lemma RetryIsSafe(w: World, j: int)
    requires Safe(w) && j in w.jobs && w.jobs[j].RetryFlushed? && NoEvents(w.history, j)
    ensures Safe(AdvanceJob(w, j))
  {
    var o, action, after := w.jobs[j].orderId, w.jobs[j].action, AdvanceJob(w, j);
    SafeTaskIds(w);
    hide Safe, Commits, WasSent, SentBy, SentFor, NoEvents, QueueFor;
    if o in w.db {
      CommitIsSafe(w, j, o, after.db[o], Some(action), CreateCommitted(o, action));
    } else {
      QuietStepIsSafe(w, j, after);
    }
  }

  lemma StoreIsSafe(w: World, j: int)
    requires Safe(w) && j in w.jobs && w.jobs[j].CreateSent? && StageOk(w.history, j, w.jobs[j])
    ensures Safe(AdvanceJob(w, j))
  {
    var after := AdvanceJob(w, j);
    SafeTaskIds(w);
    hide Safe, Commits, WasSent, SentBy, SentFor, NoEvents, QueueFor;
    assert TaskIdsWereSent(after);
    assert StageOk(after.history, j, Stage(after.jobs[j]));
    hide TaskIdsWereSent, StageOk;
    QuietStepIsSafe(w, j, after);
  }

  lemma AdvanceIsSafe(w: World, j: int)
    requires Safe(w) && j in w.jobs
    ensures Safe(AdvanceJob(w, j))
  {
    assert StageOk(w.history, j, Stage(w.jobs[j]));
    SafeTaskIds(w);
    hide Safe, Commits, WasSent, SentBy, SentFor, NoEvents, QueueFor, TaskIdsWereSent;
    match w.jobs[j]
    case CreateFlushed(o, action) =>
      CommitIsSafe(w, j, o, Row(Processing, action, None), Some(action), CreateCommitted(o, action));
    case CreateCommitted(o, action) => SendIsSafe(w, j, o, action, CreateSent(o, action, w.nextTask));
    case MarkCommitted(o) => SendIsSafe(w, j, o, Delete, Done(o, Some(Delete)));
    case RetryFlushed(_, _) => RetryIsSafe(w, j);
    case MarkFlushed(_, _, _) => MarkIsSafe(w, j);
    case CreateSent(_, _, _) => StoreIsSafe(w, j);
    case CreateStarted(_) => StartedIsSafe(w, j);
    case Done(_, _) =>
    case Died(_) =>
  }

  lemma StartedIsSafe(w: World, j: int)
    requires Safe(w) && j in w.jobs && w.jobs[j].CreateStarted? && NoEvents(w.history, j)
    ensures Safe(AdvanceJob(w, j))
  {
    SafeTaskIds(w);
    hide Safe, NoEvents;
    TaskIdsKept(w, AdvanceJob(w, j));
    QuietStepIsSafe(w, j, AdvanceJob(w, j));
  }

  lemma TaskIdsKept(w: World, after: World)
    requires TaskIdsWereSent(w) && after.db == w.db && after.history == w.history
    ensures TaskIdsWereSent(after)
  {
    hide WasSent;
  }

  /** A step of one request that neither commits nor sends. */
  lemma QuietStepIsSafe(w: World, j: int, after: World)
    requires Safe(w) && j in w.jobs && after.jobs.Keys == w.jobs.Keys
    requires after.history == w.history && after.broker == w.broker && after.nextJob == w.nextJob
            && TaskIdsWereSent(after)
    requires forall k :: k in w.jobs && k != j ==> after.jobs[k] == w.jobs[k]
    requires StageOk(after.history, j, Stage(after.jobs[j]))
    ensures Safe(after)
  {
    hide Commits, WasSent, SentBy, SentFor, NoEvents, QueueFor, StageOk, CommitPrecedesSend, AtMostOneCommit;
    hide AtMostOneSend, Tasks;
  }

  lemma NextIsSafe(w: World, step: Step)
    requires Safe(w)
    ensures Safe(Next(w, step))
  {
    var after := Next(w, step);
    if step.Advance? {
      if step.job in w.jobs {
        AdvanceIsSafe(w, step.job);
      }
    } else {
      hide Commits, WasSent, SentBy, SentFor, CommittedBefore, Tasks;
      assert after.history == w.history && after.broker == w.broker;
      forall k | k in after.jobs ensures k < after.nextJob && StageOk(after.history, k, Stage(after.jobs[k])) {
        if k in w.jobs {
          assert StageOk(w.history, k, Stage(w.jobs[k]));
        }
      }
    }
  }

  /**
    However requests interleave and wherever they die: every task ever sent was called for by an earlier
    commit of the same request, for the order it names and the queue it went to; an order carries a task id
    only if that task was sent for it; no request sends twice; and a request that ran to its end sent the
    task its commit called for, and none otherwise.  The broker holds nothing else.
   */
  lemma {:induction false} RunsAreSafe(w: World, steps: seq<Step>)
    requires Safe(w)
    ensures Safe(Run(w, steps))
    decreases |steps|
  {
    if steps != [] {
      hide Safe, Next;
      NextIsSafe(w, steps[0]);
      RunsAreSafe(Next(w, steps[0]), steps[1..]);
    }
  }

  lemma ReachableIsSafe(steps: seq<Step>)
    ensures Safe(Run(START, steps))
  {
    RunsAreSafe(START, steps);
  }

  // ----- which queue -----

  /**
    Over all runs, every task was sent after the same request had committed the order it names and called
    for a task for some action; it went to "reclaim" exactly when that action is Delete, else to "provision".
   */
  lemma TasksGoToTheirQueue(steps: seq<Step>, i: nat)
    requires i < |Run(START, steps).history| && Run(START, steps).history[i].Sent?
    ensures var history := Run(START, steps).history;
            exists k :: 0 <= k < i
                        && history[k].Committed? && history[k].job == history[i].job
                        && history[k].orderId == history[i].task.orderId && history[k].due.Some?
                        && (history[i].task.queue == "reclaim" <==> history[k].due.value == Delete)
                        && (history[i].task.queue == "provision" <==> history[k].due.value != Delete)
  {
    ReachableIsSafe(steps);
    var history := Run(START, steps).history;
    hide Run;
    assert CommittedBefore(history, i, history[i].task, history[i].job);
    var k :| 0 <= k < i && history[k].Committed? && history[k].job == history[i].job
             && history[k].orderId == history[i].task.orderId
             && history[k].due.Some? && RightQueue(history[i].task.queue, history[k].due.value);
    assert history[k].due.Some?;
  }

  /**
    The action a commit calls for is the one it writes: a create's own, Delete for a cancellation or a
    revocation.  A retry writes none and calls for the one it read, which is the row's unless that changed.
   */
  lemma DueIsTheRowsAction(w: World, j: int)
    requires j in w.jobs && |AdvanceJob(w, j).history| == |w.history| + 1
    ensures var after := AdvanceJob(w, j);
            var e := after.history[|w.history|];
            e.Committed? && e.due.Some? ==>
              && e.job == j && e.orderId in after.db
              && (if w.jobs[j].RetryFlushed?
                  then
                    && e.orderId in w.db && after.db[e.orderId].action == w.db[e.orderId].action
                    && e.due.value == w.jobs[j].action
                  else after.db[e.orderId].action == e.due.value)
  {
  }

  /** A cancellation calls for a task exactly for an order that was delivered, processing or provisioned. */
  lemma CancellationCommits(w: World, o: int)
    requires o in w.db
    ensures var j, status := w.nextJob, w.db[o].status;
            var owes := status == Delivered || status == Processing || status == Provisioned;
            var after := Next(Next(w, BeginCancel(o)), Advance(j));
            && after.history == w.history + [Committed(j, o, if owes then Some(Delete) else None)]
            && after.db == w.db[o := Row(OrderCancelled, if owes then Delete else w.db[o].action, w.db[o].taskId)]
            && (owes ==> Next(after, Advance(j)).broker == w.broker + [QueuedTask(w.nextTask, o, "reclaim")])
            && (!owes ==> Next(after, Advance(j)).broker == w.broker)
  {
  }

  /** A revocation of an order that is not over calls for a task, and a retry of a failed one; of no others. */
  lemma RevocationsAndRetriesCommit(w: World, o: int)
    requires o in w.db
    ensures var j, row := w.nextJob, w.db[o];
            var revoked, retried := Next(w, BeginRevoke(o)), Next(w, BeginRetry(o));
            && (if row.status in {OrderRevoked, OrderCancelled, Rejected} then revoked == w else
                  var after := Next(revoked, Advance(j));
                  && after.history == w.history + [Committed(j, o, Some(Delete))]
                  && after.db == w.db[o := Row(Revoking, Delete, row.taskId)])
            && (if row.status != Failed then retried == w else
                  var after := Next(retried, Advance(j));
                  && after.history == w.history + [Committed(j, o, Some(row.action))]
                  && after.db == w.db[o := Row(Processing, row.action, row.taskId)])
  {
  }

  // ----- which tasks are lost -----

  /**
    Over all runs: once a request has committed a row that calls for a task, the request has sent that task
    exactly if it is no longer between commit and send and did not die there.
   */
  lemma DueTaskSentIff(steps: seq<Step>, j: int, o: int, a: OrderAction)
    ensures var w := Run(START, steps);
            Commits(w.history, j, o, Some(a)) ==>
              j in w.jobs && (SentFor(w.history, j, o, a) <==> !Waiting(Stage(w.jobs[j])))
  {
    ReachableIsSafe(steps);
    var w := Run(START, steps);
    hide Run;
    if i :| 0 <= i < |w.history| && w.history[i] == Committed(j, o, Some(a)) {
      assert w.history[i].job in w.jobs;
      DueTask(w, j, o, a);
    }
  }

  lemma DueTask(w: World, j: int, o: int, a: OrderAction)
    requires Safe(w) && Commits(w.history, j, o, Some(a)) && j in w.jobs
    ensures SentFor(w.history, j, o, a) <==> !Waiting(Stage(w.jobs[j]))
    ensures SentFor(w.history, j, o, a) <==> SentBy(w.history, j)
  {
    var stage := Stage(w.jobs[j]);
    assert StageOk(w.history, j, stage);
    SameCommit(w.history, j, o, Some(a));
  }

  lemma SameCommit(history: seq<Event>, j: int, o: int, due: Option<OrderAction>)
    requires AtMostOneCommit(history) && Commits(history, j, o, due)
    ensures !NoEvents(history, j)
    ensures forall o', due' :: Commits(history, j, o', due') ==> o' == o && due' == due
  {
  }

  /**
    No task has been sent for an order exactly if every request that owes it one still waits or died before
    the send.
   */
  lemma OrderWithoutTaskIff(steps: seq<Step>, o: int)
    ensures var w := Run(START, steps);
            (forall task :: task in w.broker ==> task.orderId != o) <==>
            (forall j, a :: j in w.jobs && Commits(w.history, j, o, Some(a)) ==> Waiting(Stage(w.jobs[j])))
  {
    ReachableIsSafe(steps);
    var w := Run(START, steps);
    TasksOf(w.history);
    hide Run, Tasks;
    if forall task :: task in w.broker ==> task.orderId != o {
      forall j, a | j in w.jobs && Commits(w.history, j, o, Some(a)) ensures Waiting(Stage(w.jobs[j])) {
        DueTask(w, j, o, a);
      }
    } else {
      var task :| task in w.broker && task.orderId == o;
      var i :| 0 <= i < |w.history| && w.history[i].Sent? && w.history[i].task == task;
      var j := w.history[i].job;
      assert CommittedBefore(w.history, i, task, j);
      var k :| 0 <= k < i && w.history[k].Committed? && w.history[k].job == j && w.history[k].orderId == task.orderId
               && w.history[k].due.Some? && RightQueue(task.queue, w.history[k].due.value);
      var a := w.history[k].due.value;
      assert w.history[k] == Committed(j, o, Some(a));
      assert Commits(w.history, j, o, Some(a)) && SentFor(w.history, j, o, a);
      DueTask(w, j, o, a);
    }
  }

  lemma {:induction false} TasksOf(history: seq<Event>)
    ensures forall task :: task in Tasks(history) <==>
              exists i :: 0 <= i < |history| && history[i].Sent? && history[i].task == task
  {
    if history != [] {
      var init, last := history[..|history| - 1], history[|history| - 1];
      TasksOf(init);
      forall task
        ensures task in Tasks(history) <==>
                exists i :: 0 <= i < |history| && history[i].Sent? && history[i].task == task
      {
        if task in Tasks(init) {
          var i :| 0 <= i < |init| && init[i].Sent? && init[i].task == task;
          assert history[i] == init[i];
        }
        if i :| 0 <= i < |history| && history[i].Sent? && history[i].task == task {
          assert i < |init| ==> init[i] == history[i];
        }
      }
    }
  }

  lemma {:induction false} DeadStaysDead(w: World, j: int, steps: seq<Step>)
    requires j in w.jobs && w.jobs[j].Died? && j < w.nextJob
    ensures j in Run(w, steps).jobs && Run(w, steps).jobs[j] == w.jobs[j]
    decreases |steps|
  {
    if steps != [] {
      DeadStaysDead(Next(w, steps[0]), j, steps[1..]);
    }
  }

  /**
    The price of committing first: a request that dies between its commit and its send never sends its
    task, whatever happens later.  Another request for the same order may still send one of its own.
   */
  lemma CrashLosesTask(steps: seq<Step>, j: int, later: seq<Step>)
    ensures var w := Run(START, steps);
            j in w.jobs && Waiting(w.jobs[j]) ==> !SentBy(Run(Next(w, Crash(j)), later).history, j)
  {
    var w := Run(START, steps);
    if j in w.jobs && Waiting(w.jobs[j]) {
      var crashed := Next(w, Crash(j));
      ReachableIsSafe(steps);
      assert crashed.jobs[j] == Died(w.jobs[j]);
      NextIsSafe(w, Crash(j));
      RunsAreSafe(crashed, later);
      DeadStaysDead(crashed, j, later);
      hide Run, Next;
      var after := Run(crashed, later);
      assert StageOk(after.history, j, Stage(after.jobs[j]));
    }
  }

  /** Such a run: the order is there, and no task for it; a cancellation then sends another task than the lost one. */
  lemma LostTask()
    ensures var steps := [BeginCreate(Provision), Advance(1), Advance(1), Crash(1)];
            var w := Run(START, steps);
            && 1 in w.db && w.broker == [] && w.jobs[1] == Died(CreateCommitted(1, Provision))
            && Next(Next(Next(w, BeginCancel(1)), Advance(2)), Advance(2)).broker == [QueuedTask(1, 1, "reclaim")]
  {
    var w1 := Next(START, BeginCreate(Provision));
    var w2 := Next(w1, Advance(1));
    var w3 := Next(w2, Advance(1));
    var w4 := Next(w3, Crash(1));
    var steps := [BeginCreate(Provision), Advance(1), Advance(1), Crash(1)];
    assert steps[1..] == [Advance(1), Advance(1), Crash(1)] && steps[1..][1..] == [Advance(1), Crash(1)]
        && steps[1..][1..][1..] == [Crash(1)] && steps[1..][1..][1..][1..] == [];
    assert Run(START, steps) == w4;
  }
}
