/**
 The policy engine's main loop, its worker pools and the exchange of one policy for
 another, as a state machine over every interleaving of reader and workers.
 */
module WorkerPool {
  import opened Text
  import opened Predicates
  import opened RuleEngine
  import opened Sets
  import opened PolicyCompiler

  /** A record as submitted: the pool that was current, and that pool's policy. */
  datatype Job = Job(pool: nat, policy: Option<Policy>, fr: FlatRecord)

  /** A record as sent on, and the pool that sent it. */
  datatype Sent = Sent(pool: nat, record: Record)

  datatype Worker = Idle | Busy(job: Job) | Sending(sent: Sent, next: nat) | Exited

  /** A compiled policy with its channel and workers. */
  datatype Pool = Pool(policy: Policy, queue: seq<Job>, closed: bool, workers: seq<Worker>)

  /** An output channel: all that was sent on it, and how much of that its consumer has taken. */
  datatype Out = Out(log: seq<Sent>, closed: bool, taken: nat)

  /** Where the main loop stands, up to the end of `Cleanup`. */
  datatype Phase =
    | Reading
    | Received(fr: FlatRecord)
    | Swapping(held: FlatRecord, successor: Policy)
    | Ready(next: FlatRecord)
    | Direct(sent: Sent, to: nat)
    | Returned
    | Stopping
    | ClosingOuts(closed: nat)
    | Finished

  /**
   `pools` holds every pool started so far, the current one last; without a policy it
   stays empty. `size` is the number of workers, `room` the capacity of the output
   channels. `submitted` is the history of jobs, `panicked` whether a closed
   channel was ever sent on or closed again.
   */
  datatype State = State(
    size: nat,
    room: nat,
    monitored: bool,
    phase: Phase,
    pools: seq<Pool>,
    outs: seq<Out>,
    submitted: seq<Job>,
    panicked: bool)

  datatype Step =
    | Receive(fr: FlatRecord)
    | SendDirect
    | BeginSwap(policy: Policy)
    | EndSwap
    | Submit
    | CloseInput
    | BeginCleanup
    | WorkersStopped
    | CloseOut
    | Consume(out: nat)
    | Take(worker: nat)
    | Decide(worker: nat)
    | Send(worker: nat)
    | Exit(worker: nat)

  // ------------------------------------------------------------------
  // Steps.

  function Start(policy: Policy, size: nat): Pool
  {
    Pool(policy, [], false, seq(size, _ => Idle))
  }

  /** After `Init`, with or without a policy. */
  function Init(policy: Option<Policy>, size: nat, room: nat, monitored: bool, outs: nat): State
  {
    State(size, room, monitored, Reading,
          match policy { case None => [] case Some(p) => [Start(p, size)] },
          seq(outs, _ => Out([], false, 0)), [], false)
  }

  function Last<T>(s: seq<T>): T
    requires s != []
  {
    s[|s| - 1]
  }

  function SetLast<T>(s: seq<T>, x: T): (r: seq<T>)
    requires s != []
    ensures |r| == |s| && Last(r) == x && forall i :: 0 <= i < |s| - 1 ==> r[i] == s[i]
  {
    s[|s| - 1 := x]
  }

  predicate AllExited(p: Pool)
  {
    forall w :: 0 <= w < |p.workers| ==> p.workers[w].Exited?
  }

  /** A record under a job's policy; without one every record is sent as it is. */
  function Result(job: Job): Option<Sent>
  {
    match job.policy
    case None => Some(Sent(job.pool, NewRecord(job.fr)))
    case Some(p) =>
      match Outcome(p, NewRecord(job.fr))
      case None => None
      case Some(r) => Some(Sent(job.pool, r))
  }

  /** A send on a full channel waits; on a closed one it fails at once. */
  predicate HasRoom(s: State, k: nat)
    requires k < |s.outs|
  {
    s.outs[k].closed || |s.outs[k].log| - s.outs[k].taken < s.room
  }

  predicate HasWorker(s: State, w: nat)
  {
    s.pools != [] && w < |Last(s.pools).workers|
  }

  predicate Enabled(s: State, step: Step)
  {
    match step
    case Receive(_) => s.phase.Reading?
    case SendDirect => s.phase.Direct? && (s.phase.to < |s.outs| ==> HasRoom(s, s.phase.to))
    case BeginSwap(_) => s.phase.Received? && s.monitored && s.pools != []
    case EndSwap => s.phase.Swapping? && s.pools != [] && AllExited(Last(s.pools))
    case Submit => (s.phase.Received? || s.phase.Ready?) && s.pools != []
                   && (Last(s.pools).closed || |Last(s.pools).queue| < s.size)
    case CloseInput => s.phase.Reading?
    case BeginCleanup => s.phase.Returned?
    case WorkersStopped => s.phase.Stopping? && s.pools != [] && AllExited(Last(s.pools))
    case CloseOut => s.phase.ClosingOuts?
    case Consume(k) => k < |s.outs| && s.outs[k].taken < |s.outs[k].log|
    case Take(w) => HasWorker(s, w) && Last(s.pools).workers[w].Idle? && Last(s.pools).queue != []
    case Decide(w) => HasWorker(s, w) && Last(s.pools).workers[w].Busy?
    case Send(w) => HasWorker(s, w) && Last(s.pools).workers[w].Sending?
                    && (Last(s.pools).workers[w].next < |s.outs| ==> HasRoom(s, Last(s.pools).workers[w].next))
    case Exit(w) => HasWorker(s, w) && Last(s.pools).workers[w].Idle? && Last(s.pools).queue == [] && Last(s.pools).closed
  }

  /** `close` of the current pool's channel. */
  function CloseQueue(s: State): State
    requires s.pools != []
  {
    var p := Last(s.pools);
    s.(pools := SetLast(s.pools, p.(closed := true)), panicked := s.panicked || p.closed)
  }

  function SubmitJob(s: State, fr: FlatRecord): State
    requires s.pools != []
  {
    var p := Last(s.pools);
    var job := Job(|s.pools| - 1, Some(p.policy), fr);
    if p.closed then s.(panicked := true)
    else s.(phase := Reading, submitted := s.submitted + [job], pools := SetLast(s.pools, p.(queue := p.queue + [job])))
  }

  /** One channel send of `out`. */
  function SendTo(s: State, sent: Sent, k: nat): State
    requires k < |s.outs|
  {
    s.(outs := s.outs[k := s.outs[k].(log := s.outs[k].log + [sent])], panicked := s.panicked || s.outs[k].closed)
  }

  function SetWorker(s: State, w: nat, x: Worker): State
    requires HasWorker(s, w)
  {
    var p := Last(s.pools);
    s.(pools := SetLast(s.pools, p.(workers := p.workers[w := x])))
  }

  function Do(s: State, step: Step): State
    requires Enabled(s, step)
  {
    match step
    case Receive(fr) =>
      if s.pools == [] then
        var job := Job(0, None, fr);
        s.(phase := Direct(Sent(0, NewRecord(fr)), 0), submitted := s.submitted + [job])
      else s.(phase := Received(fr))
    case SendDirect =>
      if s.phase.to < |s.outs| then SendTo(s, s.phase.sent, s.phase.to).(phase := Direct(s.phase.sent, s.phase.to + 1))
      else s.(phase := Reading)
    case BeginSwap(policy) => CloseQueue(s).(phase := Swapping(s.phase.fr, policy))
    case EndSwap => s.(phase := Ready(s.phase.held), pools := s.pools + [Start(s.phase.successor, s.size)])
    case Submit => SubmitJob(s, if s.phase.Received? then s.phase.fr else s.phase.next)
    case CloseInput => s.(phase := Returned)
    case BeginCleanup => if s.pools == [] then s.(phase := ClosingOuts(0)) else CloseQueue(s).(phase := Stopping)
    case WorkersStopped => s.(phase := ClosingOuts(0))
    case CloseOut =>
      var k := s.phase.closed;
      if k < |s.outs| then
        s.(phase := ClosingOuts(k + 1), outs := s.outs[k := s.outs[k].(closed := true)], panicked := s.panicked || s.outs[k].closed)
      else s.(phase := Finished)
    case Consume(k) => s.(outs := s.outs[k := s.outs[k].(taken := s.outs[k].taken + 1)])
    case Take(w) =>
      var p := Last(s.pools);
      s.(pools := SetLast(s.pools, p.(queue := p.queue[1..], workers := p.workers[w := Busy(p.queue[0])])))
    case Decide(w) =>
      (match Result(Last(s.pools).workers[w].job)
       case None => SetWorker(s, w, Idle)
       case Some(sent) => SetWorker(s, w, Sending(sent, 0)))
    case Send(w) =>
      var worker := Last(s.pools).workers[w];
      if worker.next < |s.outs| then SetWorker(SendTo(s, worker.sent, worker.next), w, Sending(worker.sent, worker.next + 1))
      else SetWorker(s, w, Idle)
    case Exit(w) => SetWorker(s, w, Exited)
  }

  /** The states of a run that takes the given steps. */
  ghost predicate IsRun(states: seq<State>, steps: seq<Step>)
  {
    |states| == |steps| + 1
    && (forall i :: 0 <= i < |steps| ==> Enabled(states[i], steps[i]) && states[i + 1] == Do(states[i], steps[i]))
  }

  // ------------------------------------------------------------------
  // What is still to be sent, counted for one result at a time.

  function One(sent: Sent, x: Sent): nat
  {
    if sent == x then 1 else 0
  }

  function Owed(job: Job, x: Sent): nat
  {
    match Result(job)
    case None => 0
    case Some(sent) => One(sent, x)
  }

  /** How often `x` is the result of one of the jobs. */
  function Results(jobs: seq<Job>, x: Sent): nat
  {
    if jobs == [] then 0 else Results(jobs[..|jobs| - 1], x) + Owed(Last(jobs), x)
  }

  function OwedBy(w: Worker, k: nat, x: Sent): nat
  {
    match w
    case Busy(job) => Owed(job, x)
    case Sending(sent, next) => if next <= k then One(sent, x) else 0
    case _ => 0
  }

  function OwedByAll(ws: seq<Worker>, k: nat, x: Sent): nat
  {
    if ws == [] then 0 else OwedByAll(ws[..|ws| - 1], k, x) + OwedBy(Last(ws), k, x)
  }

  function OwedByReader(ph: Phase, k: nat, x: Sent): nat
  {
    match ph
    case Direct(sent, to) => if to <= k then One(sent, x) else 0
    case _ => 0
  }

  /** How often channel `k` has yet to carry `x`. */
  function Pending(s: State, k: nat, x: Sent): nat
  {
    if s.pools == [] then OwedByReader(s.phase, k, x)
    else Results(Last(s.pools).queue, x) + OwedByAll(Last(s.pools).workers, k, x)
  }

  function Carried(log: seq<Sent>, x: Sent): nat
  {
    multiset(log)[x]
  }

  predicate Conserved(s: State, k: nat, x: Sent)
    requires k < |s.outs|
  {
    Carried(s.outs[k].log, x) + Pending(s, k, x) == Results(s.submitted, x)
  }

  lemma {:induction false} TakeFirst(jobs: seq<Job>, x: Sent)
    requires jobs != []
    ensures Results(jobs, x) == Owed(jobs[0], x) + Results(jobs[1..], x)
  {
    var n := |jobs| - 1;
    if n > 0 {
      TakeFirst(jobs[..n], x);
      assert jobs[1..][..n - 1] == jobs[..n][1..];
    }
  }

  lemma AddLast(jobs: seq<Job>, job: Job, x: Sent)
    ensures Results(jobs + [job], x) == Results(jobs, x) + Owed(job, x)
  {
    assert (jobs + [job])[..|jobs|] == jobs;
  }

  lemma {:induction false} OwedAfter(ws: seq<Worker>, w: nat, v: Worker, k: nat, x: Sent)
    requires w < |ws|
    ensures OwedByAll(ws[w := v], k, x) + OwedBy(ws[w], k, x) == OwedByAll(ws, k, x) + OwedBy(v, k, x)
  {
    var n := |ws| - 1;
    if w == n {
      assert ws[w := v][..n] == ws[..n];
    } else {
      OwedAfter(ws[..n], w, v, k, x);
      assert ws[w := v][..n] == ws[..n][w := v];
    }
  }

  lemma {:induction false} NothingOwed(ws: seq<Worker>, k: nat, x: Sent)
    requires forall w :: 0 <= w < |ws| ==> ws[w].Idle? || ws[w].Exited?
    ensures OwedByAll(ws, k, x) == 0
  {
    if ws != [] {
      NothingOwed(ws[..|ws| - 1], k, x);
    }
  }

  lemma CarryOne(log: seq<Sent>, sent: Sent, x: Sent)
    ensures Carried(log + [sent], x) == Carried(log, x) + One(sent, x)
  {
  }

  // ------------------------------------------------------------------
  // Channels and workers.

  predicate IsStopped(p: Pool)
  {
    p.closed && p.queue == [] && AllExited(p)
  }

  predicate WorkerOk(pool: int, outs: nat, p: Pool, w: Worker)
  {
    match w
    case Exited => p.closed && p.queue == []
    case Sending(sent, next) => sent.pool == pool && next <= outs
    case Busy(job) => job.pool == pool
    case Idle => true
  }

  /** The current pool, which is the one with index `pool`. */
  predicate PoolOk(size: nat, phase: Phase, pool: int, outs: nat, p: Pool)
  {
    |p.workers| == size && |p.queue| <= size
    && (forall w :: 0 <= w < |p.workers| ==> WorkerOk(pool, outs, p, p.workers[w]))
    && (forall j :: 0 <= j < |p.queue| ==> p.queue[j].pool == pool)
    && (p.closed <==> phase.Swapping? || phase.Stopping? || phase.ClosingOuts? || phase.Finished?)
    && (phase.ClosingOuts? || phase.Finished? ==> AllExited(p) && p.queue == [])
  }

  predicate PhaseOk(phase: Phase, pools: nat, outs: nat)
  {
    match phase
    case Reading => true
    case Direct(sent, to) => pools == 0 && sent.pool == 0 && to <= outs
    case Returned => true
    case ClosingOuts(n) => n <= outs
    case Finished => true
    case _ => pools > 0
  }

  predicate OutOk(phase: Phase, out: Out, k: nat)
  {
    out.closed == (phase.Finished? || (phase.ClosingOuts? && k < phase.closed)) && out.taken <= |out.log|
  }

  /** No closed channel is used, and only the current pool can have live workers. */
  ghost predicate Sound(s: State)
  {
    !s.panicked
    && PhaseOk(s.phase, |s.pools|, |s.outs|)
    && (forall i :: 0 <= i < |s.pools| - 1 ==> IsStopped(s.pools[i]))
    && (s.pools != [] ==> PoolOk(s.size, s.phase, |s.pools| - 1, |s.outs|, Last(s.pools)))
    && (forall k :: 0 <= k < |s.outs| ==> OutOk(s.phase, s.outs[k], k))
  }

  lemma InitSound(policy: Option<Policy>, size: nat, room: nat, monitored: bool, outs: nat)
    ensures Sound(Init(policy, size, room, monitored, outs))
  {
  }

  lemma SetWorkerSound(s: State, w: nat, v: Worker)
    requires Sound(s) && HasWorker(s, w) && !Last(s.pools).workers[w].Exited?
    requires WorkerOk(|s.pools| - 1, |s.outs|, Last(s.pools), v)
    ensures Sound(SetWorker(s, w, v))
  {
    var t := SetWorker(s, w, v);
    var p, q := Last(s.pools), Last(t.pools);
    forall u | 0 <= u < |q.workers| ensures WorkerOk(|t.pools| - 1, |t.outs|, q, q.workers[u]) {
      assert WorkerOk(|s.pools| - 1, |s.outs|, p, p.workers[u]);
    }
    assert !AllExited(p);
  }

  lemma SendToSound(s: State, sent: Sent, k: nat)
    requires Sound(s) && k < |s.outs| && !s.outs[k].closed
    ensures Sound(SendTo(s, sent, k))
  {
    var t := SendTo(s, sent, k);
    forall i | 0 <= i < |t.outs| ensures OutOk(t.phase, t.outs[i], i) {
      assert OutOk(s.phase, s.outs[i], i);
    }
  }

  lemma TakeSound(s: State, w: nat)
    requires Sound(s) && Enabled(s, Take(w))
    ensures Sound(Do(s, Take(w)))
  {
    var t := Do(s, Take(w));
    var p, q := Last(s.pools), Last(t.pools);
    forall u | 0 <= u < |q.workers| ensures WorkerOk(|t.pools| - 1, |t.outs|, q, q.workers[u]) {
      assert WorkerOk(|s.pools| - 1, |s.outs|, p, p.workers[u]);
    }
    assert !AllExited(p);
  }

  lemma SendSound(s: State, w: nat)
    requires Sound(s) && Enabled(s, Send(w))
    ensures Sound(Do(s, Send(w)))
  {
    var p := Last(s.pools);
    var worker := p.workers[w];
    assert WorkerOk(|s.pools| - 1, |s.outs|, p, worker) && !AllExited(p);
    if worker.next < |s.outs| {
      assert OutOk(s.phase, s.outs[worker.next], worker.next);
      SendToSound(s, worker.sent, worker.next);
      SetWorkerSound(SendTo(s, worker.sent, worker.next), w, Sending(worker.sent, worker.next + 1));
    } else {
      SetWorkerSound(s, w, Idle);
    }
  }

  lemma DecideSound(s: State, w: nat)
    requires Sound(s) && Enabled(s, Decide(w))
    ensures Sound(Do(s, Decide(w)))
  {
    var p := Last(s.pools);
    assert WorkerOk(|s.pools| - 1, |s.outs|, p, p.workers[w]);
    SetWorkerSound(s, w, Last(Do(s, Decide(w)).pools).workers[w]);
  }

  /** When all workers have left, nothing is queued. */
  lemma StoppedIsEmpty(s: State)
    requires Sound(s) && s.pools != [] && AllExited(Last(s.pools))
    ensures Last(s.pools).queue == []
  {
    var p := Last(s.pools);
    if s.size > 0 {
      assert WorkerOk(|s.pools| - 1, |s.outs|, p, p.workers[0]);
    }
  }

  lemma SwapSound(s: State)
    requires Sound(s) && Enabled(s, EndSwap)
    ensures Sound(Do(s, EndSwap))
  {
    var t := Do(s, EndSwap);
    StoppedIsEmpty(s);
    forall i | 0 <= i < |t.pools| - 1 ensures IsStopped(t.pools[i]) {
      assert i == |s.pools| - 1 || IsStopped(s.pools[i]);
    }
  }

  lemma SubmitSound(s: State)
    requires Sound(s) && Enabled(s, Submit)
    ensures Sound(Do(s, Submit))
  {
    var t := Do(s, Submit);
    var p, q := Last(s.pools), Last(t.pools);
    forall w | 0 <= w < |q.workers| ensures WorkerOk(|t.pools| - 1, |t.outs|, q, q.workers[w]) {
      assert WorkerOk(|s.pools| - 1, |s.outs|, p, p.workers[w]);
    }
  }

  lemma ReaderStepSound(s: State, step: Step)
    requires Sound(s) && Enabled(s, step)
    requires step.Receive? || step.SendDirect? || step.BeginSwap? || step.CloseInput? || step.BeginCleanup? || step.WorkersStopped? || step.CloseOut? || step.Consume?
    ensures Sound(Do(s, step))
  {
    var t := Do(s, step);
    if step.WorkersStopped? {
      StoppedIsEmpty(s);
    }
    forall k | 0 <= k < |t.outs| ensures OutOk(t.phase, t.outs[k], k) {
      assert OutOk(s.phase, s.outs[k], k);
    }
    if s.pools != [] {
      var p, q := Last(s.pools), Last(t.pools);
      forall w | 0 <= w < |q.workers| ensures WorkerOk(|t.pools| - 1, |t.outs|, q, q.workers[w]) {
        assert WorkerOk(|s.pools| - 1, |s.outs|, p, p.workers[w]);
      }
    }
  }

  lemma StepSound(s: State, step: Step)
    requires Sound(s) && Enabled(s, step)
    ensures Sound(Do(s, step))
  {
    match step
    case Take(w) => TakeSound(s, w);
    case Decide(w) => DecideSound(s, w);
    case Send(w) => SendSound(s, w);
    case Exit(w) => SetWorkerSound(s, w, Exited);
    case EndSwap => SwapSound(s);
    case Submit => SubmitSound(s);
    case _ => ReaderStepSound(s, step);
  }

  // ------------------------------------------------------------------
  // The order of outputs.

  /** No output of a later pool precedes one of an earlier pool, and none is from a pool to come. */
  predicate InPoolOrder(log: seq<Sent>, pools: nat)
  {
    (forall i, j :: 0 <= i < j < |log| ==> log[i].pool <= log[j].pool)
    && (forall i :: 0 <= i < |log| ==> log[i].pool < pools || log[i].pool == 0)
  }

  ghost predicate Ordered(s: State)
  {
    forall k :: 0 <= k < |s.outs| ==> InPoolOrder(s.outs[k].log, |s.pools|)
  }

  lemma SendOrdered(log: seq<Sent>, sent: Sent, pools: nat)
    requires InPoolOrder(log, pools) && (sent.pool == pools - 1 || (pools == 0 && sent.pool == 0))
    ensures InPoolOrder(log + [sent], pools)
  {
  }

  lemma StepOrdered(s: State, step: Step)
    requires Sound(s) && Enabled(s, step) && Ordered(s)
    ensures Ordered(Do(s, step))
  {
    match step
    case SendDirect =>
      if s.phase.to < |s.outs| {
        SendOrdered(s.outs[s.phase.to].log, s.phase.sent, |s.pools|);
      }
    case Send(w) =>
      var worker := Last(s.pools).workers[w];
      assert WorkerOk(|s.pools| - 1, |s.outs|, Last(s.pools), worker);
      if worker.next < |s.outs| {
        SendOrdered(s.outs[worker.next].log, worker.sent, |s.pools|);
      }
    case _ => OtherStepOrdered(s, step);
  }

  lemma OtherStepOrdered(s: State, step: Step)
    requires Enabled(s, step) && Ordered(s) && !step.Send? && !step.SendDirect?
    ensures Ordered(Do(s, step))
  {
    var t := Do(s, step);
    assert |t.pools| >= |s.pools| && |t.outs| == |s.outs|;
    forall k | 0 <= k < |t.outs| ensures InPoolOrder(t.outs[k].log, |t.pools|) {
      assert t.outs[k].log == s.outs[k].log && InPoolOrder(s.outs[k].log, |s.pools|);
    }
  }

  // ------------------------------------------------------------------
  // Conservation.

  ghost predicate Balanced(s: State, x: Sent)
  {
    forall k :: 0 <= k < |s.outs| ==> Conserved(s, k, x)
  }

  lemma InitBalanced(policy: Option<Policy>, size: nat, room: nat, monitored: bool, outs: nat, x: Sent)
    ensures Balanced(Init(policy, size, room, monitored, outs), x)
  {
    var s := Init(policy, size, room, monitored, outs);
    forall k | 0 <= k < |s.outs| ensures Conserved(s, k, x) {
      if policy.Some? {
        NothingOwed(Last(s.pools).workers, k, x);
      }
    }
  }

  lemma ReceiveBalanced(s: State, fr: FlatRecord, k: nat, x: Sent)
    requires Enabled(s, Receive(fr)) && k < |s.outs| && Conserved(s, k, x)
    ensures Conserved(Do(s, Receive(fr)), k, x)
  {
    if s.pools == [] {
      AddLast(s.submitted, Job(0, None, fr), x);
    }
  }

  lemma SendDirectBalanced(s: State, k: nat, x: Sent)
    requires Sound(s) && Enabled(s, SendDirect) && k < |s.outs| && Conserved(s, k, x)
    ensures Conserved(Do(s, SendDirect), k, x)
  {
    CarryOne(s.outs[k].log, s.phase.sent, x);
  }

  lemma SwapBalanced(s: State, k: nat, x: Sent)
    requires Sound(s) && Enabled(s, EndSwap) && k < |s.outs| && Conserved(s, k, x)
    ensures Conserved(Do(s, EndSwap), k, x)
  {
    StoppedIsEmpty(s);
    NothingOwed(Last(s.pools).workers, k, x);
    NothingOwed(Start(s.phase.successor, s.size).workers, k, x);
  }

  lemma SubmitBalanced(s: State, k: nat, x: Sent)
    requires Sound(s) && Enabled(s, Submit) && k < |s.outs| && Conserved(s, k, x)
    ensures Conserved(Do(s, Submit), k, x)
  {
    var p := Last(s.pools);
    var job := Job(|s.pools| - 1, Some(p.policy), if s.phase.Received? then s.phase.fr else s.phase.next);
    AddLast(s.submitted, job, x);
    AddLast(p.queue, job, x);
  }

  lemma TakeBalanced(s: State, w: nat, k: nat, x: Sent)
    requires Enabled(s, Take(w)) && k < |s.outs| && Conserved(s, k, x)
    ensures Conserved(Do(s, Take(w)), k, x)
  {
    var p := Last(s.pools);
    TakeFirst(p.queue, x);
    OwedAfter(p.workers, w, Busy(p.queue[0]), k, x);
  }

  lemma SetWorkerBalanced(s: State, w: nat, v: Worker, k: nat, x: Sent)
    requires HasWorker(s, w) && k < |s.outs| && Conserved(s, k, x)
    requires OwedBy(v, k, x) == OwedBy(Last(s.pools).workers[w], k, x)
    ensures Conserved(SetWorker(s, w, v), k, x)
  {
    OwedAfter(Last(s.pools).workers, w, v, k, x);
  }

  lemma SendToCarries(s: State, sent: Sent, to: nat, k: nat, x: Sent)
    requires to < |s.outs| && k < |s.outs|
    ensures Carried(SendTo(s, sent, to).outs[k].log, x) == Carried(s.outs[k].log, x) + if k == to then One(sent, x) else 0
  {
    CarryOne(s.outs[k].log, sent, x);
  }

  lemma SendBalanced(s: State, w: nat, k: nat, x: Sent)
    requires Enabled(s, Send(w)) && k < |s.outs| && Conserved(s, k, x)
    ensures Conserved(Do(s, Send(w)), k, x)
  {
    var worker := Last(s.pools).workers[w];
    if worker.next < |s.outs| {
      SendOnBalanced(s, w, worker.sent, worker.next, k, x);
    } else {
      SetWorkerBalanced(s, w, Idle, k, x);
    }
  }

  lemma SendOnBalanced(s: State, w: nat, sent: Sent, to: nat, k: nat, x: Sent)
    requires HasWorker(s, w) && Last(s.pools).workers[w] == Sending(sent, to) && to < |s.outs|
    requires k < |s.outs| && Conserved(s, k, x)
    ensures Conserved(SetWorker(SendTo(s, sent, to), w, Sending(sent, to + 1)), k, x)
  {
    SendPends(s, w, sent, to, k, x);
    SendToCarries(s, sent, to, k, x);
  }

  lemma SendPends(s: State, w: nat, sent: Sent, to: nat, k: nat, x: Sent)
    requires HasWorker(s, w) && Last(s.pools).workers[w] == Sending(sent, to) && to < |s.outs|
    ensures Pending(SetWorker(SendTo(s, sent, to), w, Sending(sent, to + 1)), k, x) + (if k == to then One(sent, x) else 0)
            == Pending(s, k, x)
  {
    OwedAfter(Last(s.pools).workers, w, Sending(sent, to + 1), k, x);
  }

  lemma QuietBalanced(s: State, step: Step, k: nat, x: Sent)
    requires Sound(s) && Enabled(s, step) && k < |s.outs| && Conserved(s, k, x)
    requires step.BeginSwap? || step.CloseInput? || step.BeginCleanup? || step.WorkersStopped? || step.CloseOut? || step.Consume?
    ensures Conserved(Do(s, step), k, x)
  {
  }

  lemma StepBalanced(s: State, step: Step, x: Sent)
    requires Sound(s) && Enabled(s, step) && Balanced(s, x)
    ensures Balanced(Do(s, step), x)
  {
    forall k | 0 <= k < |Do(s, step).outs| ensures Conserved(Do(s, step), k, x) {
      match step
      case Receive(fr) => ReceiveBalanced(s, fr, k, x);
      case SendDirect => SendDirectBalanced(s, k, x);
      case EndSwap => SwapBalanced(s, k, x);
      case Submit => SubmitBalanced(s, k, x);
      case Take(w) => TakeBalanced(s, w, k, x);
      case Decide(w) => SetWorkerBalanced(s, w, Last(Do(s, step).pools).workers[w], k, x);
      case Send(w) => SendBalanced(s, w, k, x);
      case Exit(w) => SetWorkerBalanced(s, w, Exited, k, x);
      case _ => QuietBalanced(s, step, k, x);
    }
  }

  // ------------------------------------------------------------------
  // Whole runs.

  ghost predicate Inv(s: State)
  {
    Sound(s) && Ordered(s) && forall x: Sent :: Balanced(s, x)
  }

  ghost predicate Starts(s: State)
  {
    exists policy, monitored :: s == Init(policy, s.size, s.room, monitored, |s.outs|)
  }

  /** The invariant holds in every state of every run. */
  lemma {:induction false} RunKeepsInvariant(states: seq<State>, steps: seq<Step>, i: nat)
    requires IsRun(states, steps) && Starts(states[0]) && i < |states|
    ensures Inv(states[i])
  {
    if i == 0 {
      var s := states[0];
      var policy, monitored :| s == Init(policy, s.size, s.room, monitored, |s.outs|);
      InitSound(policy, s.size, s.room, monitored, |s.outs|);
      forall x: Sent ensures Balanced(s, x) {
        InitBalanced(policy, s.size, s.room, monitored, |s.outs|, x);
      }
    } else {
      RunKeepsInvariant(states, steps, i - 1);
      var s, step := states[i - 1], steps[i - 1];
      StepSound(s, step);
      StepOrdered(s, step);
      forall x: Sent ensures Balanced(states[i], x) {
        StepBalanced(s, step, x);
      }
    }
  }

  /**
   In every state of every run: no closed channel was sent on or closed again; every
   pool but the current one is closed, empty and without live workers; and on every
   output channel all records of an earlier policy precede those of a later one.
   */
  lemma SwapBarrier(states: seq<State>, steps: seq<Step>, i: nat)
    requires IsRun(states, steps) && Starts(states[0]) && i < |states|
    ensures !states[i].panicked
    ensures forall p :: 0 <= p < |states[i].pools| - 1 ==> IsStopped(states[i].pools[p])
    ensures forall k :: 0 <= k < |states[i].outs| ==> InPoolOrder(states[i].outs[k].log, |states[i].pools|)
  {
    RunKeepsInvariant(states, steps, i);
  }

  /** The results of the jobs, in the order in which they were submitted. */
  function Outcomes(jobs: seq<Job>): seq<Sent>
  {
    if jobs == [] then [] else
      Outcomes(jobs[..|jobs| - 1])
      + match Result(Last(jobs))
        case None => []
        case Some(sent) => [sent]
  }

  lemma {:induction false} OutcomesCount(jobs: seq<Job>, x: Sent)
    ensures multiset(Outcomes(jobs))[x] == Results(jobs, x)
  {
    if jobs != [] {
      OutcomesCount(jobs[..|jobs| - 1], x);
    }
  }

  /** `x` is what is due for a job: the record as it is without a policy, and otherwise the policy's decision. */
  ghost predicate IsDue(job: Job, x: Sent)
  {
    x.pool == job.pool
    && match job.policy
       case None => x.record == Record(job.fr, None, [], Extras([], []))
       case Some(p) => IsDecision(p, Record(job.fr, None, [], Extras([], [])), x.record)
  }

  /** The jobs for which `x` is due. */
  ghost function DueFor(jobs: seq<Job>, x: Sent): set<nat>
  {
    Where(jobs, DueAs(x))
  }

  ghost function DueAs(x: Sent): Job -> bool
  {
    job => IsDue(job, x)
  }

  lemma ResultIsDue(job: Job, x: Sent)
    ensures Result(job) == Some(x) <==> IsDue(job, x)
  {
    match job.policy
    case None =>
    case Some(p) => OutcomeIsDecision(p, NewRecord(job.fr), x.record);
  }

  lemma OwedIfDue(job: Job, x: Sent)
    ensures Owed(job, x) == if DueAs(x)(job) then 1 else 0
  {
    ResultIsDue(job, x);
  }

  lemma {:induction false} ResultsAreDue(jobs: seq<Job>, x: Sent)
    ensures Results(jobs, x) == |DueFor(jobs, x)|
  {
    if jobs == [] {
      assert DueFor(jobs, x) == {};
    } else {
      ResultsAreDue(jobs[..|jobs| - 1], x);
      OwedIfDue(jobs[|jobs| - 1], x);
      WhereNext(jobs, DueAs(x));
    }
  }

  /**
   Once the channels are being closed, each has carried exactly what is due: every
   record as often as there are jobs on whose record it is the decision.
   */
  lemma EverythingIsSent(states: seq<State>, steps: seq<Step>, i: nat, k: nat)
    requires IsRun(states, steps) && Starts(states[0]) && i < |states|
    requires (states[i].phase.ClosingOuts? || states[i].phase.Finished?) && k < |states[i].outs|
    ensures forall x: Sent :: multiset(states[i].outs[k].log)[x] == |DueFor(states[i].submitted, x)|
    ensures multiset(states[i].outs[k].log) == multiset(Outcomes(states[i].submitted))
  {
    var s := states[i];
    RunKeepsInvariant(states, steps, i);
    forall x: Sent
      ensures multiset(s.outs[k].log)[x] == multiset(Outcomes(s.submitted))[x]
      ensures multiset(s.outs[k].log)[x] == |DueFor(s.submitted, x)|
    {
      assert Balanced(s, x) && Conserved(s, k, x);
      OutcomesCount(s.submitted, x);
      ResultsAreDue(s.submitted, x);
      if s.pools != [] {
        NothingOwed(Last(s.pools).workers, k, x);
      }
    }
  }

  /** Then a submitted record is missing exactly if its policy holds it back. */
  lemma NoOneIsMissed(states: seq<State>, steps: seq<Step>, i: nat, k: nat, j: nat)
    requires IsRun(states, steps) && Starts(states[0]) && i < |states|
    requires (states[i].phase.ClosingOuts? || states[i].phase.Finished?) && k < |states[i].outs| && j < |states[i].submitted|
    ensures var job, log := states[i].submitted[j], states[i].outs[k].log;
            (exists x :: x in log && IsDue(job, x)) <==>
            match job.policy
            case None => true
            case Some(p) =>
              !SomeFilterHolds(p, job.fr)
              && (p.mode == EnrichMode
                  || exists n :: 0 <= n < |p.rules| && p.rules[n].info.enabled && p.rules[n].condition.pred(job.fr)
                                 && (p.rules[n].info.prefilter == [] || p.mapper.MapStr("sf.type", job.fr) in p.rules[n].info.prefilter))
  {
    var s := states[i];
    var job, log := s.submitted[j], s.outs[k].log;
    EverythingIsSent(states, steps, i, k);
    if job.policy.Some? {
      HeldBackIff(job.policy.value, NewRecord(job.fr));
    }
    match Result(job) {
      case None =>
        forall x ensures !IsDue(job, x) {
          ResultIsDue(job, x);
        }
      case Some(x) =>
        ResultIsDue(job, x);
        assert j in DueFor(s.submitted, x) && DueAs(x)(s.submitted[j]);
        assert multiset(log)[x] > 0;
    }
  }

  /** At any time, a channel has carried nothing more often than it is due. */
  lemma NothingExtraIsSent(states: seq<State>, steps: seq<Step>, i: nat, k: nat)
    requires IsRun(states, steps) && Starts(states[0]) && i < |states| && k < |states[i].outs|
    ensures forall x: Sent :: multiset(states[i].outs[k].log)[x] <= |DueFor(states[i].submitted, x)|
    ensures multiset(states[i].outs[k].log) <= multiset(Outcomes(states[i].submitted))
  {
    var s := states[i];
    RunKeepsInvariant(states, steps, i);
    forall x: Sent
      ensures multiset(s.outs[k].log)[x] <= multiset(Outcomes(s.submitted))[x]
      ensures multiset(s.outs[k].log)[x] <= |DueFor(s.submitted, x)|
    {
      assert Balanced(s, x) && Conserved(s, k, x);
      OutcomesCount(s.submitted, x);
      ResultsAreDue(s.submitted, x);
    }
  }

  lemma {:induction false} OutcomeOfJob(jobs: seq<Job>, x: Sent)
    requires x in Outcomes(jobs)
    ensures exists j :: 0 <= j < |jobs| && Result(jobs[j]) == Some(x)
  {
    var n := |jobs| - 1;
    if x in Outcomes(jobs[..n]) {
      OutcomeOfJob(jobs[..n], x);
      var j :| 0 <= j < n && Result(jobs[..n][j]) == Some(x);
      assert Result(jobs[j]) == Some(x);
    } else {
      assert Result(jobs[n]) == Some(x);
    }
  }

  /**
   Every record that is ever sent was submitted under the policy of the pool it is
   tagged with; no filter of that policy drops it, and it carries exactly the rules
   of that policy that apply, in declaration order.
   */
  lemma OutputsAreDecisions(states: seq<State>, steps: seq<Step>, i: nat, k: nat, n: nat)
    requires IsRun(states, steps) && Starts(states[0]) && i < |states|
    requires k < |states[i].outs| && n < |states[i].outs[k].log| && states[i].pools != []
    ensures var s, sent := states[i], states[i].outs[k].log[n];
            sent.pool < |s.pools| &&
            var p := s.pools[sent.pool].policy;
            !Dropped(p.filters, sent.record.fr) && sent.record.rules == Applying(p.mapper, p.rules, sent.record.fr)
    ensures var s, sent := states[i], states[i].outs[k].log[n];
            exists j :: 0 <= j < |s.submitted| && s.submitted[j].fr == sent.record.fr && s.submitted[j].pool == sent.pool
  {
    var s := states[i];
    var sent := s.outs[k].log[n];
    NothingExtraIsSent(states, steps, i, k);
    assert sent in multiset(s.outs[k].log) && sent in multiset(Outcomes(s.submitted));
    OutcomeOfJob(s.submitted, sent);
    EverythingIsSubmitted(states, steps, i);
    var j :| 0 <= j < |s.submitted| && Result(s.submitted[j]) == Some(sent);
    ResultCarriesRules(s.pools, s.submitted[j], sent);
  }

  lemma ResultCarriesRules(pools: seq<Pool>, job: Job, sent: Sent)
    requires pools != [] && JobOk(pools, job) && Result(job) == Some(sent)
    ensures sent.pool == job.pool < |pools| && sent.record.fr == job.fr
    ensures var p := pools[sent.pool].policy;
            !Dropped(p.filters, sent.record.fr) && sent.record.rules == Applying(p.mapper, p.rules, sent.record.fr)
  {
  }

  // ------------------------------------------------------------------
  // Every record received is submitted, in order, under the policy in force.

  function Arrived(steps: seq<Step>): seq<FlatRecord>
  {
    if steps == [] then [] else
      Arrived(steps[..|steps| - 1]) + if Last(steps).Receive? then [Last(steps).fr] else []
  }

  function Records(jobs: seq<Job>): (frs: seq<FlatRecord>)
    ensures |frs| == |jobs| && forall i :: 0 <= i < |jobs| ==> frs[i] == jobs[i].fr
  {
    seq(|jobs|, i requires 0 <= i < |jobs| => jobs[i].fr)
  }

  function InHand(ph: Phase): seq<FlatRecord>
  {
    match ph
    case Received(fr) => [fr]
    case Swapping(fr, _) => [fr]
    case Ready(fr) => [fr]
    case _ => []
  }

  /** The job's policy is that of its pool. */
  ghost predicate JobOk(pools: seq<Pool>, job: Job)
  {
    if pools == [] then job.pool == 0 && job.policy == None
    else job.pool < |pools| && job.policy == Some(pools[job.pool].policy)
  }

  ghost predicate JobsOk(s: State)
  {
    (forall j :: 0 <= j < |s.submitted| ==> JobOk(s.pools, s.submitted[j]))
    && (forall i, j :: 0 <= i < j < |s.submitted| ==> s.submitted[i].pool <= s.submitted[j].pool)
  }

  lemma PoliciesStay(s: State, step: Step)
    requires Enabled(s, step)
    ensures var t := Do(s, step);
            |s.pools| <= |t.pools| && (s.pools == [] ==> t.pools == [])
            && forall i :: 0 <= i < |s.pools| ==> t.pools[i].policy == s.pools[i].policy
  {
  }

  lemma NewJob(s: State, step: Step)
    requires Sound(s) && Enabled(s, step)
    ensures var t := Do(s, step);
            t.submitted == s.submitted
            || (|t.submitted| == |s.submitted| + 1 && t.submitted[..|s.submitted|] == s.submitted
                && JobOk(t.pools, Last(t.submitted)) && (s.pools != [] ==> Last(t.submitted).pool == |s.pools| - 1))
  {
  }

  lemma RecordsAppend(jobs: seq<Job>, job: Job)
    ensures Records(jobs + [job]) == Records(jobs) + [job.fr]
  {
  }

  lemma RecordsFollow(s: State, step: Step)
    requires Sound(s) && Enabled(s, step)
    ensures var t := Do(s, step);
            Records(t.submitted) + InHand(t.phase) == Records(s.submitted) + InHand(s.phase) + if step.Receive? then [step.fr] else []
  {
    var t := Do(s, step);
    if t.submitted != s.submitted {
      NewJob(s, step);
      assert t.submitted == s.submitted + [Last(t.submitted)];
      RecordsAppend(s.submitted, Last(t.submitted));
    }
  }

  lemma OldJobOk(before: seq<Pool>, after: seq<Pool>, job: Job)
    requires JobOk(before, job) && |before| <= |after| && (before == [] ==> after == [])
    requires forall i :: 0 <= i < |before| ==> after[i].policy == before[i].policy
    ensures JobOk(after, job)
  {
  }

  lemma JobsStayOk(s: State, step: Step)
    requires Sound(s) && Enabled(s, step) && JobsOk(s)
    ensures JobsOk(Do(s, step))
  {
    var t := Do(s, step);
    var n := |s.submitted|;
    PoliciesStay(s, step);
    NewJob(s, step);
    assert forall j :: 0 <= j < n ==> t.submitted[j] == t.submitted[..n][j];
    forall j | 0 <= j < |t.submitted| ensures JobOk(t.pools, t.submitted[j]) {
      if j < n {
        OldJobOk(s.pools, t.pools, s.submitted[j]);
      }
    }
    forall i, j | 0 <= i < j < |t.submitted| ensures t.submitted[i].pool <= t.submitted[j].pool {
      assert t.submitted[i] == s.submitted[i] && JobOk(s.pools, s.submitted[i]);
    }
  }

  lemma ArrivedNext(steps: seq<Step>, i: nat)
    requires i < |steps|
    ensures Arrived(steps[..i + 1]) == Arrived(steps[..i]) + if steps[i].Receive? then [steps[i].fr] else []
  {
    assert steps[..i + 1][..i] == steps[..i];
  }

  /**
   The jobs are the records received, in that order, each under the policy of the pool
   that was current when it was submitted.
   */
  lemma {:induction false} EverythingIsSubmitted(states: seq<State>, steps: seq<Step>, i: nat)
    requires IsRun(states, steps) && Starts(states[0]) && i < |states|
    ensures Records(states[i].submitted) + InHand(states[i].phase) == Arrived(steps[..i])
    ensures JobsOk(states[i])
  {
    if i > 0 {
      EverythingIsSubmitted(states, steps, i - 1);
      RunKeepsInvariant(states, steps, i - 1);
      RecordsFollow(states[i - 1], steps[i - 1]);
      JobsStayOk(states[i - 1], steps[i - 1]);
      ArrivedNext(steps, i - 1);
    }
  }

  // ------------------------------------------------------------------
  // Which policy each record meets, by the steps of the run.

  /** The policies of the exchanges begun, in order. */
  function Successors(steps: seq<Step>): seq<Policy>
  {
    if steps == [] then [] else
      Successors(steps[..|steps| - 1]) + Begun(Last(steps))
  }

  /** For each record submitted, how many exchanges had begun by then. */
  function Turns(steps: seq<Step>): seq<nat>
  {
    if steps == [] then [] else
      var init := steps[..|steps| - 1];
      Turns(init) + if Last(steps).Submit? then [|Successors(init)|] else []
  }

  function PoliciesOf(pools: seq<Pool>): (ps: seq<Policy>)
    ensures |ps| == |pools| && forall i :: 0 <= i < |ps| ==> ps[i] == pools[i].policy
  {
    seq(|pools|, i requires 0 <= i < |pools| => pools[i].policy)
  }

  function PoolsOf(jobs: seq<Job>): (ns: seq<nat>)
    ensures |ns| == |jobs| && forall j :: 0 <= j < |ns| ==> ns[j] == jobs[j].pool
  {
    seq(|jobs|, j requires 0 <= j < |jobs| => jobs[j].pool)
  }

  function Coming(ph: Phase): seq<Policy>
  {
    if ph.Swapping? then [ph.successor] else []
  }

  ghost predicate PoliciesTold(s: State, first: Policy, steps: seq<Step>)
  {
    PoliciesOf(s.pools) + Coming(s.phase) == [first] + Successors(steps)
  }

  ghost predicate TurnsTold(s: State, steps: seq<Step>)
  {
    PoolsOf(s.submitted) == Turns(steps)
  }

  lemma SwapEnds(s: State)
    requires Enabled(s, EndSwap)
    ensures var t := Do(s, EndSwap); PoliciesOf(t.pools) + Coming(t.phase) == PoliciesOf(s.pools) + Coming(s.phase)
  {
    var t := Do(s, EndSwap);
    assert PoliciesOf(t.pools) == PoliciesOf(s.pools) + [s.phase.successor];
  }

  lemma SamePolicies(s: State, step: Step)
    requires Enabled(s, step) && !step.EndSwap?
    ensures PoliciesOf(Do(s, step).pools) == PoliciesOf(s.pools)
  {
    PoliciesStay(s, step);
  }

  function Begun(step: Step): seq<Policy>
  {
    if step.BeginSwap? then [step.policy] else []
  }

  lemma ComingNext(s: State, step: Step)
    requires Enabled(s, step) && !step.EndSwap?
    ensures Coming(Do(s, step).phase) == Coming(s.phase) + Begun(step)
  {
  }

  lemma AppendBegun(a: seq<Policy>, b: seq<Policy>, c: seq<Policy>, more: seq<Policy>, d: seq<Policy>)
    requires a + b == c + d
    ensures a + (b + more) == c + (d + more)
  {
    assert a + (b + more) == a + b + more && c + (d + more) == c + d + more;
  }

  lemma PoliciesNext(s: State, step: Step, first: Policy, steps: seq<Step>)
    requires Enabled(s, step) && PoliciesTold(s, first, steps)
    ensures PoliciesTold(Do(s, step), first, steps + [step])
  {
    assert (steps + [step])[..|steps|] == steps;
    if step.EndSwap? {
      SwapEnds(s);
      assert Successors(steps) + [] == Successors(steps);
    } else {
      SamePolicies(s, step);
      ComingNext(s, step);
      AppendBegun(PoliciesOf(s.pools), Coming(s.phase), [first], Begun(step), Successors(steps));
    }
  }

  lemma TurnsNext(s: State, step: Step, first: Policy, steps: seq<Step>)
    requires Sound(s) && Enabled(s, step) && s.pools != [] && PoliciesTold(s, first, steps) && TurnsTold(s, steps)
    ensures TurnsTold(Do(s, step), steps + [step])
  {
    var t := Do(s, step);
    assert (steps + [step])[..|steps|] == steps;
    if step.Submit? {
      assert |PoliciesOf(s.pools) + Coming(s.phase)| == |s.pools|;
      assert PoolsOf(t.submitted) == PoolsOf(s.submitted) + [|s.pools| - 1];
    } else {
      assert t.submitted == s.submitted;
    }
  }

  lemma {:induction false} RunIsTold(states: seq<State>, steps: seq<Step>, i: nat)
    requires IsRun(states, steps) && Starts(states[0]) && i < |states| && states[0].pools != []
    ensures states[i].pools != []
    ensures PoliciesTold(states[i], states[0].pools[0].policy, steps[..i]) && TurnsTold(states[i], steps[..i])
  {
    if i == 0 {
      var s := states[0];
      var policy, monitored :| s == Init(policy, s.size, s.room, monitored, |s.outs|);
      assert PoliciesOf(s.pools) == [s.pools[0].policy] && steps[..0] == [];
    } else {
      RunIsTold(states, steps, i - 1);
      RunKeepsInvariant(states, steps, i - 1);
      PoliciesStay(states[i - 1], steps[i - 1]);
      PoliciesNext(states[i - 1], steps[i - 1], states[0].pools[0].policy, steps[..i - 1]);
      TurnsNext(states[i - 1], steps[i - 1], states[0].pools[0].policy, steps[..i - 1]);
      assert steps[..i] == steps[..i - 1] + [steps[i - 1]];
    }
  }

  /**
   By the steps of the run: a record is submitted under the policy of the last exchange
   that had begun by then, and under the first policy before any.
   */
  lemma PolicyOfTurn(states: seq<State>, steps: seq<Step>, i: nat, j: nat)
    requires IsRun(states, steps) && Starts(states[0]) && i < |states| && states[0].pools != [] && j < |states[i].submitted|
    ensures var turns, swaps, job := Turns(steps[..i]), Successors(steps[..i]), states[i].submitted[j];
            |turns| == |states[i].submitted| && job.pool == turns[j] <= |swaps|
            && job.policy == Some(if turns[j] == 0 then states[0].pools[0].policy else swaps[turns[j] - 1])
  {
    RunIsTold(states, steps, i);
    EverythingIsSubmitted(states, steps, i);
    JobTold(states[i], states[0].pools[0].policy, steps[..i], j);
  }

  lemma PolicyAt(pools: seq<Pool>, coming: seq<Policy>, first: Policy, swaps: seq<Policy>, n: nat)
    requires PoliciesOf(pools) + coming == [first] + swaps && n < |pools|
    ensures n <= |swaps| && pools[n].policy == if n == 0 then first else swaps[n - 1]
  {
    assert (PoliciesOf(pools) + coming)[n] == pools[n].policy;
    assert ([first] + swaps)[n] == pools[n].policy;
  }

  lemma JobTold(s: State, first: Policy, steps: seq<Step>, j: nat)
    requires s.pools != [] && PoliciesTold(s, first, steps) && TurnsTold(s, steps) && JobsOk(s) && j < |s.submitted|
    ensures var turns, swaps, job := Turns(steps), Successors(steps), s.submitted[j];
            |turns| == |s.submitted| && job.pool == turns[j] <= |swaps|
            && job.policy == Some(if turns[j] == 0 then first else swaps[turns[j] - 1])
  {
    var job := s.submitted[j];
    assert PoolsOf(s.submitted)[j] == job.pool && JobOk(s.pools, job);
    PolicyAt(s.pools, Coming(s.phase), first, Successors(steps), job.pool);
  }

  // ------------------------------------------------------------------
  // Progress.

  function Weight(w: Worker, outs: nat): nat
  {
    match w
    case Exited => 0
    case Idle => 1
    case Sending(_, next) => if next <= outs then 2 + (outs - next) else 2
    case Busy(_) => outs + 3
  }

  function Weights(ws: seq<Worker>, outs: nat): nat
  {
    if ws == [] then 0 else Weights(ws[..|ws| - 1], outs) + Weight(Last(ws), outs)
  }

  /** A bound on the steps the workers can still take. */
  function Work(s: State): nat
  {
    if s.pools == [] then 0
    else |Last(s.pools).queue| * (|s.outs| + 4) + Weights(Last(s.pools).workers, |s.outs|)
  }

  lemma {:induction false} WeightAfter(ws: seq<Worker>, w: nat, v: Worker, outs: nat)
    requires w < |ws|
    ensures Weights(ws[w := v], outs) + Weight(ws[w], outs) == Weights(ws, outs) + Weight(v, outs)
  {
    var n := |ws| - 1;
    if w == n {
      assert ws[w := v][..n] == ws[..n];
    } else {
      WeightAfter(ws[..n], w, v, outs);
      assert ws[w := v][..n] == ws[..n][w := v];
    }
  }

  predicate IsWorkerStep(step: Step)
  {
    step.Take? || step.Decide? || step.Send? || step.Exit?
  }

  lemma SetWorkerShrinks(s: State, w: nat, v: Worker)
    requires HasWorker(s, w) && Weight(v, |s.outs|) < Weight(Last(s.pools).workers[w], |s.outs|)
    ensures Work(SetWorker(s, w, v)) < Work(s)
  {
    WeightAfter(Last(s.pools).workers, w, v, |s.outs|);
  }

  lemma TakeShrinks(s: State, w: nat)
    requires Enabled(s, Take(w))
    ensures Work(Do(s, Take(w))) < Work(s)
  {
    var p, outs := Last(s.pools), |s.outs|;
    WeightAfter(p.workers, w, Busy(p.queue[0]), outs);
    assert |p.queue| * (outs + 4) == |p.queue[1..]| * (outs + 4) + (outs + 4);
  }

  lemma SendShrinks(s: State, w: nat)
    requires Sound(s) && Enabled(s, Send(w))
    ensures Work(Do(s, Send(w))) < Work(s)
  {
    var worker := Last(s.pools).workers[w];
    assert WorkerOk(|s.pools| - 1, |s.outs|, Last(s.pools), worker);
    if worker.next < |s.outs| {
      SetWorkerShrinks(SendTo(s, worker.sent, worker.next), w, Sending(worker.sent, worker.next + 1));
    } else {
      SetWorkerShrinks(s, w, Idle);
    }
  }

  /** Every step of a worker leaves less to do. */
  lemma WorkShrinks(s: State, step: Step)
    requires Sound(s) && Enabled(s, step) && IsWorkerStep(step)
    ensures Work(Do(s, step)) < Work(s)
  {
    var w := step.worker;
    if step.Take? {
      TakeShrinks(s, w);
    } else if step.Send? {
      SendShrinks(s, w);
    } else {
      SetWorkerShrinks(s, w, Last(Do(s, step).pools).workers[w]);
    }
  }

  predicate IsFull(s: State, k: nat)
  {
    k < |s.outs| && !HasRoom(s, k)
  }

  /** While a worker is left and has something to do, or is to leave, some worker can step or waits for a consumer. */
  lemma SomeWorkerSteps(s: State, w: nat)
    requires HasWorker(s, w) && !Last(s.pools).workers[w].Exited?
    requires Last(s.pools).closed || Last(s.pools).queue != []
    ensures (exists step :: IsWorkerStep(step) && Enabled(s, step)) || exists k: nat :: IsFull(s, k)
  {
    var p := Last(s.pools);
    if p.workers[w].Sending? && p.workers[w].next < |s.outs| && !HasRoom(s, p.workers[w].next) {
      assert IsFull(s, p.workers[w].next);
      return;
    }
    var step := match p.workers[w]
      case Busy(_) => Decide(w)
      case Sending(_, _) => Send(w)
      case _ => if p.queue != [] then Take(w) else Exit(w);
    assert IsWorkerStep(step) && Enabled(s, step);
  }

  predicate IsInternal(step: Step)
  {
    !step.Receive? && !step.CloseInput? && !step.BeginSwap? && !step.Consume?
  }

  lemma LiveWorker(s: State)
    requires Sound(s) && s.size >= 1 && s.pools != [] && !(Last(s.pools).closed && AllExited(Last(s.pools)))
    ensures exists w: nat :: HasWorker(s, w) && !Last(s.pools).workers[w].Exited?
  {
    var p := Last(s.pools);
    assert WorkerOk(|s.pools| - 1, |s.outs|, p, p.workers[0]);
    assert !AllExited(p);
    var w :| 0 <= w < |p.workers| && !p.workers[w].Exited?;
    assert HasWorker(s, w);
  }

  lemma FullCanBeConsumed(s: State, k: nat)
    requires s.room >= 1 && IsFull(s, k)
    ensures Enabled(s, Consume(k))
  {
  }

  /**
   With at least one worker, nothing waits for ever: the engine has a step of its own
   unless it is at its input channel, or an output channel is full, whose consumer can
   then take something.
   */
  lemma NeverStuck(s: State)
    requires Sound(s) && s.size >= 1 && s.room >= 1 && !s.phase.Reading? && !s.phase.Finished?
    ensures (exists step :: IsInternal(step) && Enabled(s, step)) || exists k: nat :: IsFull(s, k) && Enabled(s, Consume(k))
  {
    if k: nat :| IsFull(s, k) {
      FullCanBeConsumed(s, k);
    } else {
      NothingFull(s);
    }
  }

  lemma NothingFull(s: State)
    requires Sound(s) && s.size >= 1 && !s.phase.Reading? && !s.phase.Finished? && !exists k: nat :: IsFull(s, k)
    ensures exists step :: IsInternal(step) && Enabled(s, step)
  {
    var ph := s.phase;
    if ph.Direct? {
      assert ph.to < |s.outs| ==> !IsFull(s, ph.to);
      assert IsInternal(SendDirect) && Enabled(s, SendDirect);
    } else if ph.Returned? {
      assert IsInternal(BeginCleanup) && Enabled(s, BeginCleanup);
    } else if ph.ClosingOuts? {
      assert IsInternal(CloseOut) && Enabled(s, CloseOut);
    } else if (ph.Received? || ph.Ready?) && |Last(s.pools).queue| < s.size {
      assert IsInternal(Submit) && Enabled(s, Submit);
    } else if Last(s.pools).closed && AllExited(Last(s.pools)) {
      var step := if ph.Swapping? then EndSwap else WorkersStopped;
      assert IsInternal(step) && Enabled(s, step);
    } else {
      LiveWorker(s);
      var w: nat :| HasWorker(s, w) && !Last(s.pools).workers[w].Exited?;
      SomeWorkerSteps(s, w);
    }
  }

  /** A bound on all steps from the closing of the input to the end. */
  function Remaining(s: State): nat
  {
    Work(s) +
    match s.phase
    case Returned => |s.outs| + 4
    case Stopping => |s.outs| + 3
    case ClosingOuts(n) => if n <= |s.outs| then 1 + |s.outs| - n else 1
    case _ => 0
  }

  predicate IsShutdown(ph: Phase)
  {
    ph.Returned? || ph.Stopping? || ph.ClosingOuts? || ph.Finished?
  }

  /** Shutdown always ends: every step of the engine after the input is closed brings the end closer, and no step of a consumer undoes that. */
  lemma ShutdownShrinks(s: State, step: Step)
    requires Sound(s) && IsShutdown(s.phase) && Enabled(s, step)
    ensures IsShutdown(Do(s, step).phase)
    ensures if step.Consume? then Remaining(Do(s, step)) == Remaining(s) else Remaining(Do(s, step)) < Remaining(s)
  {
    if IsWorkerStep(step) {
      WorkShrinks(s, step);
    }
  }
}
