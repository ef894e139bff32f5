/**
  The background jobs of redis-stable/src/bio.c, for one job type: one worker thread and any
  number of client threads share a queue, a counter, a mutex and two condition variables. A step
  is one access of one thread; every interleaving of steps is a run. Each type has a queue,
  counter, mutex and worker of its own.
 */
module Bio {
  import opened Text

  datatype Job = Job(time: int, arg1: int, arg2: int, arg3: int)

  /** A list node; id is its address, the number of jobs created before it. */
  datatype Node = Node(id: nat, job: Job)

  datatype Op = Create(job: Job) | PendingJobs | WaitStep

  /** How a client slept: the number of nodes deleted when it fell asleep, and whether a broadcast
      woke it. */
  datatype Sleep = Sleep(removedAt: nat, byBroadcast: bool)

  /** Where a client thread stands. removedAt is the number of nodes deleted when it fell asleep. */
  datatype Client =
    | Idle
    | WantLock(op: Op)
    | Locked(op: Op)
    | Added
    | Counted
    | Signalled
    | Asleep(removedAt: nat)
    | Woken(removedAt: nat, byBroadcast: bool)
    | Relocked(removedAt: nat, byBroadcast: bool)
    | GotValue(val: int, seen: nat, slept: Option<Sleep>)
    | Returned(val: int, seen: nat, slept: Option<Sleep>)

  /** Where the worker thread stands. */
  datatype Worker =
    | Start
    | LoopTop
    | Sleeping
    | WokenUp
    | Chosen(ln: Node)
    | Running(ln: Node)
    | Finished(ln: Node)
    | Relocking(ln: Node)
    | Deleted
    | Decremented

  datatype Owner = Free | ByWorker | ByClient(t: nat)

  /** created, executed and removed are the history: all jobs ever added, all jobs ever run, in
      order, and the number of nodes deleted. */
  datatype State = State(queue: seq<Node>, pending: int, owner: Owner, worker: Worker, clients: map<nat, Client>,
                         created: seq<Job>, executed: seq<Job>, removed: nat)

  /** bioInit */
  function Initial(): State {
    State([], 0, Free, Start, map[], [], [], 0)
  }

  function At(s: State, t: nat): Client {
    if t in s.clients then s.clients[t] else Idle
  }

  function Goto(s: State, t: nat, c: Client): State {
    s.(clients := s.clients[t := c])
  }

  // ----- clients ------------------------------------------------------------

  /** The next step of client t; None when it has to wait or has nothing to do. */
  function ClientStep(s: State, t: nat): Option<State> {
    match At(s, t)
    case WantLock(op) => if s.owner.Free? then Some(Goto(s.(owner := ByClient(t)), t, Locked(op))) else None
    case Locked(Create(job)) =>
      Some(Goto(s.(queue := s.queue + [Node(|s.created|, job)], created := s.created + [job]), t, Added))
    case Added => Some(Goto(s.(pending := s.pending + 1), t, Counted))
    case Counted => Some(Goto(if s.worker.Sleeping? then s.(worker := WokenUp) else s, t, Signalled))
    case Signalled => Some(Goto(s.(owner := Free), t, Idle))
    case Locked(PendingJobs) => Some(Goto(s, t, GotValue(s.pending, |s.created|, None)))
    case Locked(WaitStep) =>
      if s.pending != 0 then Some(Goto(s.(owner := Free), t, Asleep(s.removed)))
      else Some(Goto(s, t, GotValue(s.pending, |s.created|, None)))
    case Woken(n, b) => if s.owner.Free? then Some(Goto(s.(owner := ByClient(t)), t, Relocked(n, b))) else None
    case Relocked(n, b) =>
      Some(Goto(s, t, GotValue(s.pending, |s.created|, Some(Sleep(n, b)))))
    case GotValue(v, seen, slept) => Some(Goto(s.(owner := Free), t, Returned(v, seen, slept)))
    case Returned(_, _, _) => Some(Goto(s, t, Idle))
    case Idle => None
    case Asleep(_) => None
  }

  // ----- the worker ---------------------------------------------------------

  /** listDelNode of the node the worker remembers, wherever it stands. */
  function DelNode(queue: seq<Node>, ln: Node): seq<Node> {
    if queue == [] then [] else if queue[0].id == ln.id then queue[1..] else [queue[0]] + DelNode(queue[1..], ln)
  }

  /** pthread_cond_broadcast on the step condition. */
  function Broadcast(clients: map<nat, Client>): map<nat, Client> {
    map t | t in clients :: match clients[t]
                            case Asleep(n) => Woken(n, true)
                            case other => other
  }

  function WorkerStep(s: State): Option<State> {
    match s.worker
    case Start => if s.owner.Free? then Some(s.(owner := ByWorker, worker := LoopTop)) else None
    case LoopTop =>
      if s.queue == [] then Some(s.(owner := Free, worker := Sleeping)) else Some(s.(worker := Chosen(s.queue[0])))
    case Sleeping => None
    case WokenUp => if s.owner.Free? then Some(s.(owner := ByWorker, worker := LoopTop)) else None
    case Chosen(ln) => Some(s.(owner := Free, worker := Running(ln)))
    case Running(ln) => Some(s.(executed := s.executed + [ln.job], worker := Finished(ln)))
    case Finished(ln) => if s.owner.Free? then Some(s.(owner := ByWorker, worker := Relocking(ln))) else None
    case Relocking(ln) => Some(s.(queue := DelNode(s.queue, ln), removed := s.removed + 1, worker := Deleted))
    case Deleted => Some(s.(pending := s.pending - 1, worker := Decremented))
    case Decremented => Some(s.(clients := Broadcast(s.clients), worker := LoopTop))
  }

  // ----- runs ---------------------------------------------------------------

  /** Call starts an operation on an idle thread. Waiting on a condition variable may also end
      without a signal. */
  datatype Event = Call(t: nat, op: Op) | Client(t: nat) | Work | SpuriousWorker | SpuriousClient(t: nat)

  function Next(s: State, e: Event): Option<State> {
    match e
    case Call(t, op) => if At(s, t).Idle? then Some(Goto(s, t, WantLock(op))) else None
    case Client(t) => ClientStep(s, t)
    case Work => WorkerStep(s)
    case SpuriousWorker => if s.worker.Sleeping? then Some(s.(worker := WokenUp)) else None
    case SpuriousClient(t) =>
      if At(s, t).Asleep? then Some(Goto(s, t, Woken(At(s, t).removedAt, false))) else None
  }

  /** The state after a run; blocked steps leave it as it is. */
  function Run(s: State, es: seq<Event>): State
    decreases |es|
  {
    if es == [] then s
    else
      var n := Next(s, es[0]);
      Run(if n.Some? then n.value else s, es[1..])
  }

  // ----- the invariant ------------------------------------------------------

  predicate Holds(c: Client) {
    c.Locked? || c.Added? || c.Counted? || c.Signalled? || c.Relocked? || c.GotValue?
  }

  predicate WorkerHolds(w: Worker) {
    w.LoopTop? || w.Chosen? || w.Relocking? || w.Deleted? || w.Decremented?
  }

  /** At most one thread is inside: the one the mutex names. */
  predicate Exclusive(s: State) {
    && (WorkerHolds(s.worker) <==> s.owner == ByWorker)
    && (forall t :: t in s.clients ==> (Holds(s.clients[t]) <==> s.owner == ByClient(t)))
    && (s.owner.ByClient? ==> s.owner.t in s.clients)
  }

  /** The queue is exactly the jobs created and not yet deleted, in creation order. */
  predicate QueueIsSuffix(s: State) {
    && s.removed + |s.queue| == |s.created|
    && (forall i :: 0 <= i < |s.queue| ==> s.queue[i] == Node(s.removed + i, s.created[s.removed + i]))
  }

  /** What the counter is ahead or behind by, seen from the thread inside. */
  function Correction(s: State): int {
    if s.owner.ByClient? && At(s, s.owner.t).Added? then -1
    else if s.worker.Deleted? then 1
    else 0
  }

  /** What has been run: everything deleted, and the head once the worker is through with it. */
  function ExecutedCount(s: State): nat {
    if s.worker.Finished? || s.worker.Relocking? then s.removed + 1 else s.removed
  }

  predicate WorkerOk(s: State) {
    && (s.worker.Chosen? || s.worker.Running? || s.worker.Finished? || s.worker.Relocking? ==>
          s.queue != [] && s.worker.ln == s.queue[0])
    && ExecutedCount(s) <= |s.created|
    && s.executed == s.created[..ExecutedCount(s)]
  }

  /** Nobody sleeps through work: the worker sleeps only on an empty queue or while a client is
      about to signal it, and a client sleeps only while a job is left or while the worker is about
      to broadcast. */
  predicate NoLostWakeup(s: State) {
    && (s.worker.Sleeping? && s.queue != [] ==>
          s.owner.ByClient? && (At(s, s.owner.t).Added? || At(s, s.owner.t).Counted?))
    && (forall t :: t in s.clients && s.clients[t].Asleep? && s.queue == [] ==>
          s.worker.Deleted? || s.worker.Decremented?)
  }

  /** What the values held by clients say about the jobs completed. */
  predicate ClientOk(c: Client, removed: nat, created: nat, deleting: bool) {
    match c
    case Asleep(n) => if deleting then n < removed else n == removed
    case Woken(n, b) => n <= removed && (b ==> n < removed)
    case Relocked(n, b) => n <= removed && (b ==> n < removed)
    case GotValue(v, seen, slept) => ValueOk(v, seen, slept, removed, created)
    case Returned(v, seen, slept) => ValueOk(v, seen, slept, removed, created)
    case _ => true
  }

  predicate ValueOk(v: int, seen: nat, slept: Option<Sleep>, removed: nat, created: nat) {
    && 0 <= v <= seen <= created && seen - v <= removed
    && (slept.Some? ==>
          slept.value.removedAt <= seen - v && (slept.value.byBroadcast ==> slept.value.removedAt < seen - v))
  }

  predicate ClientsOk(s: State) {
    forall t :: t in s.clients ==>
      ClientOk(s.clients[t], s.removed, |s.created|, s.worker.Deleted? || s.worker.Decremented?)
  }

  predicate Inv(s: State) {
    && Exclusive(s)
    && QueueIsSuffix(s)
    && s.pending == |s.queue| + Correction(s)
    && WorkerOk(s)
    && NoLostWakeup(s)
    && ClientsOk(s)
  }

  // ----- every step keeps it --------------------------------------------------

  lemma DelHead(queue: seq<Node>)
    requires queue != []
    ensures DelNode(queue, queue[0]) == queue[1..]
  {
  }

  lemma WorkerExclusive(s: State)
    requires Inv(s) && WorkerStep(s).Some?
    ensures Exclusive(WorkerStep(s).value)
  {
    hide QueueIsSuffix;
    hide Correction;
    hide WorkerOk;
    hide NoLostWakeup;
    hide ClientsOk;
    hide ExecutedCount;
    hide DelNode;
  }

  lemma WorkerQueue(s: State)
    requires Inv(s) && WorkerStep(s).Some?
    ensures QueueIsSuffix(WorkerStep(s).value)
  {
    hide Exclusive;
    hide Correction;
    hide NoLostWakeup;
    hide ClientsOk;
    hide ExecutedCount;
    hide DelNode;
    hide Broadcast;
    if s.worker.Relocking? {
      DelHead(s.queue);
    }
  }

  lemma WorkerCounter(s: State)
    requires Inv(s) && WorkerStep(s).Some?
    ensures WorkerStep(s).value.pending == |WorkerStep(s).value.queue| + Correction(WorkerStep(s).value)
  {
    hide QueueIsSuffix;
    hide NoLostWakeup;
    hide ClientsOk;
    hide ExecutedCount;
    hide DelNode;
    hide Broadcast;
    if s.worker.Relocking? {
      DelHead(s.queue);
    }
  }

  lemma WorkerStays(s: State)
    requires Inv(s) && WorkerStep(s).Some?
    ensures WorkerOk(WorkerStep(s).value)
  {
    hide Exclusive;
    hide Correction;
    hide NoLostWakeup;
    hide ClientsOk;
    hide DelNode;
    hide Broadcast;
    if s.worker.Relocking? {
      DelHead(s.queue);
    } else if s.worker.Running? {
      assert s.created[..s.removed + 1] == s.created[..s.removed] + [s.created[s.removed]];
    }
  }

  lemma WorkerWakeup(s: State)
    requires Inv(s) && WorkerStep(s).Some?
    ensures NoLostWakeup(WorkerStep(s).value)
  {
    hide QueueIsSuffix;
    hide Correction;
    hide ClientsOk;
    hide ExecutedCount;
    hide DelNode;
  }

  lemma WorkerClients(s: State)
    requires Inv(s) && WorkerStep(s).Some?
    ensures ClientsOk(WorkerStep(s).value)
  {
    hide Exclusive;
    hide QueueIsSuffix;
    hide Correction;
    hide WorkerOk;
    hide NoLostWakeup;
    hide ExecutedCount;
    hide DelNode;
  }

  lemma WorkerKeepsInv(s: State)
    requires Inv(s) && WorkerStep(s).Some?
    ensures Inv(WorkerStep(s).value)
  {
    hide Exclusive;
    hide QueueIsSuffix;
    hide Correction;
    hide WorkerOk;
    hide NoLostWakeup;
    hide ClientsOk;
    hide WorkerStep;
    WorkerExclusive(s);
    WorkerQueue(s);
    WorkerCounter(s);
    WorkerStays(s);
    WorkerWakeup(s);
    WorkerClients(s);
  }

  lemma ClientExclusive(s: State, t: nat)
    requires Inv(s) && ClientStep(s, t).Some?
    ensures Exclusive(ClientStep(s, t).value)
  {
    hide QueueIsSuffix;
    hide Correction;
    hide WorkerOk;
    hide NoLostWakeup;
    hide ClientsOk;
    hide ExecutedCount;
    hide DelNode;
    hide Broadcast;
  }

  lemma ClientQueue(s: State, t: nat)
    requires Inv(s) && ClientStep(s, t).Some?
    ensures QueueIsSuffix(ClientStep(s, t).value)
  {
    hide Exclusive;
    hide Correction;
    hide WorkerOk;
    hide NoLostWakeup;
    hide ClientsOk;
    hide ExecutedCount;
    hide DelNode;
    hide Broadcast;
  }

  lemma ClientCounter(s: State, t: nat)
    requires Inv(s) && ClientStep(s, t).Some?
    ensures ClientStep(s, t).value.pending == |ClientStep(s, t).value.queue| + Correction(ClientStep(s, t).value)
  {
    hide QueueIsSuffix;
    hide WorkerOk;
    hide NoLostWakeup;
    hide ClientsOk;
    hide ExecutedCount;
    hide DelNode;
    hide Broadcast;
  }

  lemma ClientWorker(s: State, t: nat)
    requires Inv(s) && ClientStep(s, t).Some?
    ensures WorkerOk(ClientStep(s, t).value)
  {
    hide Exclusive;
    hide QueueIsSuffix;
    hide Correction;
    hide NoLostWakeup;
    hide ClientsOk;
    hide DelNode;
    hide Broadcast;
  }

  lemma ClientWakeup(s: State, t: nat)
    requires Inv(s) && ClientStep(s, t).Some?
    ensures NoLostWakeup(ClientStep(s, t).value)
  {
    hide QueueIsSuffix;
    hide WorkerOk;
    hide ClientsOk;
    hide ExecutedCount;
    hide DelNode;
    hide Broadcast;
  }

  lemma ClientClients(s: State, t: nat)
    requires Inv(s) && ClientStep(s, t).Some?
    ensures ClientsOk(ClientStep(s, t).value)
  {
    hide WorkerOk;
    hide NoLostWakeup;
    hide ExecutedCount;
    hide DelNode;
    hide Broadcast;
  }

  lemma ClientKeepsInv(s: State, t: nat)
    requires Inv(s) && ClientStep(s, t).Some?
    ensures Inv(ClientStep(s, t).value)
  {
    hide Exclusive;
    hide QueueIsSuffix;
    hide Correction;
    hide WorkerOk;
    hide NoLostWakeup;
    hide ClientsOk;
    hide ClientStep;
    ClientExclusive(s, t);
    ClientQueue(s, t);
    ClientCounter(s, t);
    ClientWorker(s, t);
    ClientWakeup(s, t);
    ClientClients(s, t);
  }

  /** Starting a call, and waking up without a signal. */
  lemma OutsideKeepsInv(s: State, t: nat, c: Client)
    requires Inv(s) && !Holds(At(s, t)) && !Holds(c)
    requires c.WantLock? || (At(s, t).Asleep? && c == Woken(At(s, t).removedAt, false))
    ensures Inv(Goto(s, t, c))
  {
    hide QueueIsSuffix;
    hide WorkerOk;
    OutsideKeepsFrame(s, t, c);
  }

  lemma OutsideKeepsFrame(s: State, t: nat, c: Client)
    ensures QueueIsSuffix(Goto(s, t, c)) == QueueIsSuffix(s) && WorkerOk(Goto(s, t, c)) == WorkerOk(s)
  {
  }

  lemma WorkerWakes(s: State)
    requires Inv(s) && s.worker.Sleeping?
    ensures Inv(s.(worker := WokenUp))
  {
  }

  lemma NextKeepsInv(s: State, e: Event)
    requires Inv(s) && Next(s, e).Some?
    ensures Inv(Next(s, e).value)
  {
    hide Inv;
    hide ClientStep;
    hide WorkerStep;
    match e
    case Call(t, op) => OutsideKeepsInv(s, t, WantLock(op));
    case Client(t) => ClientKeepsInv(s, t);
    case Work => WorkerKeepsInv(s);
    case SpuriousWorker => WorkerWakes(s);
    case SpuriousClient(t) => OutsideKeepsInv(s, t, Woken(At(s, t).removedAt, false));
  }

  lemma {:induction false} RunKeepsInv(s: State, es: seq<Event>)
    requires Inv(s)
    ensures Inv(Run(s, es))
    decreases |es|
  {
    if es != [] {
      var n := Next(s, es[0]);
      if n.Some? {
        NextKeepsInv(s, es[0]);
        RunKeepsInv(n.value, es[1..]);
      } else {
        RunKeepsInv(s, es[1..]);
      }
    }
  }

  // ----- what holds over every run ------------------------------------------

  lemma InitialInv()
    ensures Inv(Initial())
  {
    assert Initial().created[..0] == [];
  }

  /** In every interleaving: with the mutex free the counter is the length of the queue; the
      running job is the head of the queue up to its deletion; jobs are run one by one in
      creation order; and a counter of zero means that every job created so far has been run. */
  lemma EveryRun(es: seq<Event>)
    ensures var s := Run(Initial(), es);
            && (s.owner.Free? ==> s.pending == |s.queue|)
            && (s.worker.Running? || s.worker.Finished? || s.worker.Relocking? ==>
                  s.queue != [] && s.worker.ln == s.queue[0])
            && s.executed <= s.created
            && (s.owner.Free? && s.pending == 0 ==> s.executed == s.created)
  {
    InitialInv();
    RunKeepsInv(Initial(), es);
    var s := Run(Initial(), es);
    hide Run;
    hide ClientsOk;
    hide NoLostWakeup;
    if s.owner.Free? && s.pending == 0 {
      assert s.created[..|s.created|] == s.created;
    }
  }

  /** What a caller may conclude from the value it got: at least the first seen - val of the seen
      jobs that existed when it was read have been run, so all of them when it is zero; and if it
      slept, seen - val - removedAt jobs were finished after it fell asleep, at least one if a
      broadcast woke it. */
  lemma ReturnedValue(es: seq<Event>, t: nat)
    ensures var s, c := Run(Initial(), es), At(Run(Initial(), es), t);
            c.Returned? ==>
              && 0 <= c.val <= c.seen <= |s.created|
              && s.created[..c.seen - c.val] <= s.executed
              && (c.slept.Some? ==>
                    var done := c.seen - c.val - c.slept.value.removedAt;
                    done >= 0 && (c.slept.value.byBroadcast ==> done > 0))
  {
    InitialInv();
    RunKeepsInv(Initial(), es);
    var s := Run(Initial(), es);
    hide Run;
    hide NoLostWakeup;
    hide Correction;
    var c := At(s, t);
    if c.Returned? {
      assert ClientOk(c, s.removed, |s.created|, s.worker.Deleted? || s.worker.Decremented?);
    }
  }

  /** No deadlock and no lost wake-up: while a job is queued, or a client is inside a call, some
      thread can take a step; and with the mutex free and a job queued the worker can. */
  lemma SomebodyCanMove(es: seq<Event>, t: nat)
    ensures var s := Run(Initial(), es);
            && (s.owner.Free? && s.queue != [] ==> WorkerStep(s).Some?)
            && (s.queue != [] || !At(s, t).Idle? ==>
                  WorkerStep(s).Some? || ClientStep(s, t).Some? || (s.owner.ByClient? && ClientStep(s, s.owner.t).Some?))
  {
    InitialInv();
    RunKeepsInv(Initial(), es);
    var s := Run(Initial(), es);
    hide Run;
    hide ClientsOk;
    hide QueueIsSuffix;
    hide Correction;
    if s.owner.ByClient? {
      assert Holds(At(s, s.owner.t));
    }
  }

  // ----- what calls do ----------------------------------------------------------

  /** Jobs are created exactly by clients that hold the mutex for it, one each, behind all others. */
  lemma CreatedIff(s: State, e: Event)
    requires Next(s, e).Some?
    ensures var s' := Next(s, e).value;
            s'.created == s.created + (if e.Client? && At(s, e.t).Locked? && At(s, e.t).op.Create? then [At(s, e.t).op.job] else [])
    ensures e.Client? && At(s, e.t).Locked? && At(s, e.t).op.Create? ==> At(Next(s, e).value, e.t).Added?
  {
    hide DelNode;
    hide Broadcast;
  }

  /** A waiter that has the mutex goes to sleep exactly if a job is queued, giving the mutex back; else it
      gets the value zero, and every job created so far has been run. */
  lemma WaitsIff(s: State, t: nat)
    requires Inv(s) && At(s, t) == Locked(WaitStep)
    ensures ClientStep(s, t).Some?
    ensures var s' := ClientStep(s, t).value;
            && (s.queue != [] ==> At(s', t) == Asleep(s.removed) && s'.owner.Free?)
            && (s.queue == [] ==> At(s', t) == GotValue(0, |s.created|, None) && s'.owner == s.owner && s.executed == s.created)
  {
    hide NoLostWakeup;
    hide ClientsOk;
    assert t in s.clients && Holds(s.clients[t]);
    assert !s.worker.Deleted?;
    if s.queue == [] { assert s.created[..|s.created|] == s.created; }
  }

  // ----- all jobs can be finished -------------------------------------------------

  /** Steps the worker needs at most to delete its next job or to fall asleep. */
  function Rank(w: Worker): nat {
    match w
    case Deleted => 8
    case Decremented => 7
    case Start => 6
    case WokenUp => 6
    case LoopTop => 5
    case Chosen(_) => 4
    case Running(_) => 3
    case Finished(_) => 2
    case Relocking(_) => 1
    case Sleeping => 0
  }

  lemma WorkerMoves(s: State)
    requires Inv(s) && !s.owner.ByClient? && (s.queue != [] || s.worker.Deleted? || s.worker.Decremented?)
    ensures WorkerStep(s).Some?
    ensures var s' := WorkerStep(s).value;
            && s'.created == s.created && !s'.owner.ByClient?
            && (|s'.queue| < |s.queue| || (|s'.queue| == |s.queue| && Rank(s'.worker) < Rank(s.worker)))
  {
    hide QueueIsSuffix;
    hide ClientsOk;
    hide Broadcast;
    hide ExecutedCount;
    hide Correction;
    if s.worker.Relocking? { DelHead(s.queue); }
    hide DelNode;
  }

  lemma RunCons(s: State, e: Event, es: seq<Event>)
    requires Next(s, e).Some?
    ensures Run(s, [e] + es) == Run(Next(s, e).value, es)
  {
    hide Next;
    assert ([e] + es)[1..] == es;
  }

  /** Nothing is left to do: no job is queued, all that were created have been run, and nobody sleeps. */
  predicate AllFinished(s: State) {
    s.queue == [] && s.executed == s.created && forall t :: t in s.clients ==> !s.clients[t].Asleep?
  }

  lemma EmptyIsFinished(s: State)
    requires Inv(s) && s.queue == [] && !s.worker.Deleted? && !s.worker.Decremented?
    ensures AllFinished(s)
  {
    hide ClientsOk;
    hide Exclusive;
    assert s.created[..|s.created|] == s.created;
  }

  /** Undisturbed by clients, the worker comes to the end of the queue. */
  lemma {:induction false} WorkerFinishes(s: State) returns (es: seq<Event>)
    requires Inv(s) && !s.owner.ByClient?
    ensures AllFinished(Run(s, es)) && Run(s, es).created == s.created
    decreases |s.queue|, Rank(s.worker)
  {
    hide Inv;
    hide AllFinished;
    hide WorkerStep;
    if s.queue == [] && !s.worker.Deleted? && !s.worker.Decremented? {
      EmptyIsFinished(s);
      es := [];
    } else {
      WorkerMoves(s);
      var s' := WorkerStep(s).value;
      NextKeepsInv(s, Work);
      var rest := WorkerFinishes(s');
      es := [Work] + rest;
      RunCons(s, Work, rest);
    }
  }

  /** Steps a client inside the mutex needs to leave it. */
  function Inside(c: Client): nat {
    match c
    case Locked(_) => 5
    case Relocked(_, _) => 5
    case Added => 4
    case Counted => 3
    case Signalled => 2
    case GotValue(_, _, _) => 1
    case _ => 0
  }

  lemma ClientMoves(s: State)
    requires Inv(s) && s.owner.ByClient?
    ensures var t := s.owner.t;
            && ClientStep(s, t).Some?
            && var s' := ClientStep(s, t).value;
               s'.owner.ByClient? ==> s'.owner == s.owner && Inside(At(s', t)) < Inside(At(s, t))
  {
    hide QueueIsSuffix;
    hide ClientsOk;
    hide WorkerOk;
    hide NoLostWakeup;
    hide Correction;
    assert Holds(At(s, s.owner.t));
  }

  lemma {:induction false} ClientLeaves(s: State) returns (es: seq<Event>)
    requires Inv(s)
    ensures Inv(Run(s, es)) && !Run(s, es).owner.ByClient?
    decreases if s.owner.ByClient? then Inside(At(s, s.owner.t)) + 1 else 0
  {
    hide Inv;
    hide ClientStep;
    if !s.owner.ByClient? {
      es := [];
    } else {
      var e := Client(s.owner.t);
      ClientMoves(s);
      NextKeepsInv(s, e);
      var rest := ClientLeaves(Next(s, e).value);
      es := [e] + rest;
      RunCons(s, e, rest);
    }
  }

  lemma {:induction false} RunAppend(s: State, a: seq<Event>, b: seq<Event>)
    ensures Run(s, a + b) == Run(Run(s, a), b)
    decreases |a|
  {
    hide Next;
    if a == [] {
      assert a + b == b;
    } else {
      assert (a + b)[1..] == a[1..] + b;
      var n := Next(s, a[0]);
      RunAppend(if n.Some? then n.value else s, a[1..], b);
    }
  }

  /** From every reachable state, whatever the interleaving was, the threads can go on so that every
      job is run, the queue is empty and no waiter sleeps. */
  lemma JobsCanBeFinished(es: seq<Event>) returns (more: seq<Event>)
    ensures AllFinished(Run(Initial(), es + more))
  {
    hide Run;
    hide Inv;
    hide AllFinished;
    InitialInv();
    RunKeepsInv(Initial(), es);
    var s := Run(Initial(), es);
    var a := ClientLeaves(s);
    var b := WorkerFinishes(Run(s, a));
    more := a + b;
    RunAppend(Initial(), es, more);
    RunAppend(s, a, b);
  }

  /** bioWaitStepOfType tests its condition once, so exactly when no job was deleted between falling
      asleep and getting the mutex again does it return without a job processed; then no broadcast
      woke it. */
  lemma EarlyReturnIff(s: State, t: nat)
    requires Inv(s) && At(s, t).Relocked?
    ensures ClientStep(s, t).Some?
    ensures var c, g := At(s, t), At(ClientStep(s, t).value, t);
            && g.GotValue? && g.slept == Some(Sleep(c.removedAt, c.byBroadcast))
            && (g.seen - g.val == c.removedAt <==> s.removed == c.removedAt)
            && (s.removed == c.removedAt ==> !c.byBroadcast)
  {
    hide WorkerOk;
    hide NoLostWakeup;
    assert t in s.clients && s.owner == ByClient(t);
    assert ClientOk(s.clients[t], s.removed, |s.created|, s.worker.Deleted? || s.worker.Decremented?);
  }

  lemma RunTo(s: State, es: seq<Event>, i: nat, n: State)
    requires i < |es| && Next(s, es[i]) == Some(n)
    ensures Run(s, es[i..]) == Run(n, es[i + 1..])
  {
    hide Next;
    assert es[i..][1..] == es[i + 1..];
  }

  /** A job is created; a client waits for a step and is woken without a broadcast. */
  function EarlyRun(job: Job): seq<Event> {
    [Call(0, Create(job)), Client(0), Client(0), Client(0), Client(0), Client(0),
     Call(1, WaitStep), Client(1), Client(1), SpuriousClient(1), Client(1), Client(1), Client(1)]
  }

  /** One job queued and nothing run yet; client 1 has not called. */
  predicate OneQueued(s: State, job: Job) {
    && s.pending == 1 && s.owner.Free? && s.worker.Start? && At(s, 1).Idle?
    && s.created == [job] && s.executed == [] && s.removed == 0
  }

  lemma EarlyCreate(job: Job) returns (s: State)
    ensures OneQueued(s, job) && Run(Initial(), EarlyRun(job)) == Run(s, EarlyRun(job)[6..])
  {
    hide Run;
    hide WorkerStep;
    var es := EarlyRun(job);
    var s0 := Initial();
    assert es[0..] == es;
    var s1 := Goto(s0, 0, WantLock(Create(job)));
    RunTo(s0, es, 0, s1);
    var s2 := Goto(s1.(owner := ByClient(0)), 0, Locked(Create(job)));
    RunTo(s1, es, 1, s2);
    var s3 := Goto(s2.(queue := s2.queue + [Node(0, job)], created := s2.created + [job]), 0, Added);
    RunTo(s2, es, 2, s3);
    var s4 := Goto(s3.(pending := 1), 0, Counted);
    RunTo(s3, es, 3, s4);
    var s5 := Goto(s4, 0, Signalled);
    RunTo(s4, es, 4, s5);
    s := Goto(s5.(owner := Free), 0, Idle);
    RunTo(s5, es, 5, s);
    assert [] + [job] == [job];
  }

  /** The same with client 1 in its call. */
  predicate Waiter(s: State, job: Job, c: Client, owner: Owner) {
    && s.pending == 1 && s.owner == owner && At(s, 1) == c
    && s.created == [job] && s.executed == [] && s.removed == 0
  }

  lemma EarlySleep(job: Job, s: State) returns (s': State)
    requires OneQueued(s, job)
    ensures Waiter(s', job, Asleep(0), Free) && Run(s, EarlyRun(job)[6..]) == Run(s', EarlyRun(job)[9..])
  {
    hide Run;
    hide WorkerStep;
    var es := EarlyRun(job);
    var s7 := Goto(s, 1, WantLock(WaitStep));
    RunTo(s, es, 6, s7);
    var s8 := Goto(s7.(owner := ByClient(1)), 1, Locked(WaitStep));
    RunTo(s7, es, 7, s8);
    s' := Goto(s8.(owner := Free), 1, Asleep(0));
    RunTo(s8, es, 8, s');
  }

  lemma EarlyWake(job: Job, s: State) returns (s': State)
    requires Waiter(s, job, Asleep(0), Free)
    ensures Waiter(s', job, Relocked(0, false), ByClient(1)) && Run(s, EarlyRun(job)[9..]) == Run(s', EarlyRun(job)[11..])
  {
    hide Run;
    hide WorkerStep;
    var es := EarlyRun(job);
    var s10 := Goto(s, 1, Woken(0, false));
    RunTo(s, es, 9, s10);
    s' := Goto(s10.(owner := ByClient(1)), 1, Relocked(0, false));
    RunTo(s10, es, 10, s');
  }

  lemma EarlyReturn(job: Job, s: State)
    requires Waiter(s, job, Relocked(0, false), ByClient(1))
    ensures Waiter(Run(s, EarlyRun(job)[11..]), job, Returned(1, 1, Some(Sleep(0, false))), Free)
  {
    hide Run;
    hide WorkerStep;
    var es := EarlyRun(job);
    var s12 := Goto(s, 1, GotValue(1, 1, Some(Sleep(0, false))));
    RunTo(s, es, 11, s12);
    var s13 := Goto(s12.(owner := Free), 1, Returned(1, 1, Some(Sleep(0, false))));
    RunTo(s12, es, 12, s13);
    assert es[13..] == [];
    RunNothing(s13);
  }

  lemma RunNothing(s: State)
    ensures Run(s, []) == s
  {
  }

  /** A run from the start in which a waiter returns although no job was processed. */
  lemma SpuriousWakeupReturnsEarly(job: Job)
    ensures var s := Run(Initial(), EarlyRun(job));
            At(s, 1) == Returned(1, 1, Some(Sleep(0, false))) && s.executed == [] && s.created == [job]
  {
    hide Run;
    var s := EarlyCreate(job);
    s := EarlySleep(job, s);
    s := EarlyWake(job, s);
    EarlyReturn(job, s);
  }
}
