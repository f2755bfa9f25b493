/** The end of `run`: the null-key packets reach every worker, the workers exit, and what `run` returns. */
module Shutdown {
  import opened Basics
  import opened Engine
  import opened EngineInvariant
  import opened EngineSteps
  import opened EngineSafety

  // ---------------------------------------------------------------- counting null-key packets and workers

  function NullWeight(): Packet -> nat {
    (k: Packet) => B(k == NullKey)
  }

  predicate ByNull<R>(th: Thread<R>) {
    th.pc.Exited? && th.pc.byNull
  }

  function NullExit<R>(): Thread<R> -> nat {
    (th: Thread<R>) => B(ByNull(th))
  }

  predicate LiveWorker<R>(th: Thread<R>) {
    !th.pc.NotWorker? && !th.pc.Exited?
  }

  function LiveWeight<R>(): Thread<R> -> nat {
    (th: Thread<R>) => B(LiveWorker(th))
  }

  /** Null-key packets `run` has still to post. */
  function ToPost<R>(s: State<R>): nat {
    match s.run
    case Serving => s.workers
    case PostingNull(left) => left
    case _ => 0
  }

  /** Every worker is accounted for by a null-key packet: still to be posted, on the port, or consumed by a worker that
      exited on it. */
  predicate NullInv<R>(s: State<R>) {
    Sum(s.queue, NullWeight()) + ToPost(s) + Sum(s.threads, NullExit()) == s.workers
  }

  /** What `run` knows about the workers it has joined. */
  predicate JoinInv<R>(s: State<R>) {
    match s.run
    case Joining(next) =>
      next <= s.workers <= |s.threads| && forall i | 0 <= i < next :: s.threads[i].pc.Exited?
    case Finished(result) =>
      s.workers <= |s.threads| && (forall i | 0 <= i < s.workers :: s.threads[i].pc.Exited?)
      && result == FirstException(s.threads, s.workers)
    case _ => true
  }

  // ---------------------------------------------------------------- what a step does to the threads

  /** Steps an issue frame has left. */
  function IssueWeight(issue: IssuePc): nat {
    match issue
    case NoIssue => 0
    case Leaving(_, _) => 1
    case Counting(_) => 2
    case PostedLocked(_) => 3
    case RefusedLocked(_) => 3
    case Posting(_) => 4
    case Started(_) => 5
    case Built(_) => 6
    case Allocated(_) => 7
  }

  function CallbackWeight<R>(cb: Callback<R>, issue: IssuePc): nat {
    match cb
    case CbEnd(_) => 0
    case CbWait(last) => IssueWeight(issue) + if last then 0 else 8
    case CbNextAccept => 8
    case CbIssue(_, _) => 16
    case CbFields(_, _) => 17
    case CbStart => 18
  }

  /** An upper bound on the steps left until the worker is idle again. */
  function WeightOf<R>(th: Thread<R>): nat {
    match th.pc
    case NotWorker => 0
    case Exited(_) => 0
    case Idle => 1
    case DropRaw(_, _) => 2
    case DropTask(_, _) => 3
    case Unmatched(_) => 3
    case Returned(_, _) => 4
    case Calling(_, cb) => 5 + CallbackWeight(cb, th.issue)
    case Access(_) => 24
    case WantAccess(_) => 25
    case Dispatch(_) => 26
    case Dropped(_) => 27
    case Removed(_) => 28
    case Locked(_) => 29
    case WantLock(_) => 30
    case Dequeued(_) => 31
  }

  function PcWeight<R>(): Thread<R> -> nat {
    (th: Thread<R>) => WeightOf(th)
  }

  function Actor(a: Action): Option<nat> {
    match a
    case External(i, _) => Some(i)
    case Issue(i, _) => Some(i)
    case Work(w, _) => Some(w)
    case Call(w, _) => Some(w)
    case _ => None
  }

  /** A step of a worker thread, in its loop, in a callback or in a call the callback makes. */
  predicate WorkerStep(workers: nat, a: Action) {
    a.Work? || a.Call? || (a.Issue? && a.i < workers)
  }

  predicate DequeueStep(a: Action) {
    a.Work? && (a.work.Dequeue? || a.work.DequeueFail?)
  }

  ghost predicate WeightsOfIssue<R>(s: State<R>, s': State<R>, i: nat)
    requires i < |s.threads|
  {
    && |s'.threads| == |s.threads|
    && ByNull(s'.threads[i]) == ByNull(s.threads[i])
    && (if i < s.workers then WeightOf(s'.threads[i]) < WeightOf(s.threads[i])
        else WeightOf(s'.threads[i]) == WeightOf(s.threads[i]))
  }

  lemma LeaveWeights<R>(s: State<R>, i: nat)
    requires CanLeave(s, i) && ThreadInv(s, i)
    ensures WeightsOfIssue(s, DoLeave(s, i), i)
  {
    assert s.threads[i].pc.NotWorker? || (s.threads[i].pc.Calling? && s.threads[i].pc.cb.CbWait?);
  }

  /** The issue frame is kept, and is one step further. */
  ghost predicate FrameAdvances<R>(th: Thread<R>, th': Thread<R>) {
    && th'.pc == th.pc
    && IssueWeight(th'.issue) < IssueWeight(th.issue) && !th'.issue.NoIssue?
  }

  lemma IoAdvances<R>(s: State<R>, i: nat, act: IssueAct)
    requires IssueEnabled(s, i, act) && (act.AllocOverlapped? || act.StartIo?)
    ensures var s' := IssueStep(s, i, act);
            |s'.threads| == |s.threads| && FrameAdvances(s.threads[i], s'.threads[i])
  {
  }

  lemma PostAdvances<R>(s: State<R>, i: nat, act: IssueAct)
    requires IssueEnabled(s, i, act) && !act.AllocOverlapped? && !act.StartIo? && !act.Leave?
    ensures var s' := IssueStep(s, i, act);
            |s'.threads| == |s.threads| && FrameAdvances(s.threads[i], s'.threads[i])
  {
  }

  lemma AdvanceWeights<R>(s: State<R>, s': State<R>, i: nat)
    requires i < |s.threads| && |s'.threads| == |s.threads| && ThreadInv(s, i) && !s.threads[i].issue.NoIssue?
    requires FrameAdvances(s.threads[i], s'.threads[i])
    ensures WeightsOfIssue(s, s', i)
  {
    assert s.threads[i].pc.NotWorker? || (s.threads[i].pc.Calling? && s.threads[i].pc.cb.CbWait?);
  }

  lemma IssueWeights<R>(s: State<R>, i: nat, act: IssueAct)
    requires IssueEnabled(s, i, act) && ThreadInv(s, i) && !act.Leave?
    ensures WeightsOfIssue(s, IssueStep(s, i, act), i)
    ensures IssueWeight(IssueStep(s, i, act).threads[i].issue) < IssueWeight(s.threads[i].issue)
  {
    if act.AllocOverlapped? || act.StartIo? { IoAdvances(s, i, act); } else { PostAdvances(s, i, act); }
    AdvanceWeights(s, IssueStep(s, i, act), i);
  }

  lemma IssueThreads<R>(s: State<R>, i: nat, act: IssueAct)
    requires IssueEnabled(s, i, act)
    ensures var s' := IssueStep(s, i, act);
            && s'.queue == s.queue && s'.run == s.run && s'.workers == s.workers
            && |s'.threads| == |s.threads| && s'.threads == s.threads[i := s'.threads[i]]
  {
  }

  lemma WorkWeights<R>(s: State<R>, w: nat, act: WorkAct)
    requires WorkEnabled(s, w, act) && !act.Dequeue? && !act.DequeueFail?
    ensures var s' := WorkStep(s, w, act);
            && |s'.threads| == |s.threads|
            && WeightOf(s'.threads[w]) < WeightOf(s.threads[w])
            && !ByNull(s'.threads[w]) && !ByNull(s.threads[w])
  {
    if BeforeDispatch(act) { EarlyWeights(s, w, act); } else { LateWeights(s, w, act); }
  }

  /** The steps of a worker up to the unlock of currentTasksMutex. */
  predicate BeforeDispatch(act: WorkAct) {
    act.TakeRaw? || act.Lock? || act.Check? || act.DropOverlapped? || act.Unlock?
  }

  lemma EarlyWeights<R>(s: State<R>, w: nat, act: WorkAct)
    requires WorkEnabled(s, w, act) && BeforeDispatch(act)
    ensures var s' := WorkStep(s, w, act);
            && |s'.threads| == |s.threads|
            && WeightOf(s'.threads[w]) < WeightOf(s.threads[w])
            && !ByNull(s'.threads[w]) && !ByNull(s.threads[w])
  {
  }

  lemma LateWeights<R>(s: State<R>, w: nat, act: WorkAct)
    requires WorkEnabled(s, w, act) && !BeforeDispatch(act) && !act.Dequeue? && !act.DequeueFail?
    ensures var s' := WorkStep(s, w, act);
            && |s'.threads| == |s.threads|
            && WeightOf(s'.threads[w]) < WeightOf(s.threads[w])
            && !ByNull(s'.threads[w]) && !ByNull(s.threads[w])
  {
  }

  lemma WorkThreads<R>(s: State<R>, w: nat, act: WorkAct)
    requires WorkEnabled(s, w, act) && !act.Dequeue? && !act.DequeueFail?
    ensures var s' := WorkStep(s, w, act);
            && s'.run == s.run && s'.workers == s.workers && s'.queue == s.queue
            && |s'.threads| == |s.threads| && s'.threads == s.threads[w := s'.threads[w]]
  {
  }

  lemma CallThreads<R>(p: Callbacks<R>, s: State<R>, w: nat, act: CallAct)
    requires CallEnabled(s, w, act) && ThreadInv(s, w) && !s.aborted
    ensures var s' := CallStep(p, s, w, act);
            && s'.queue == s.queue && s'.run == s.run && s'.workers == s.workers
            && |s'.threads| == |s.threads| && s'.threads == s.threads[w := s'.threads[w]]
            && ByNull(s'.threads[w]) == ByNull(s.threads[w])
            && WeightOf(s'.threads[w]) + B(!s'.aborted) <= WeightOf(s.threads[w])
  {
    if act.Enter? || act.Store? { FieldsThreads(p, s, w, act); } else { OtherCalls(p, s, w, act); }
  }

  lemma FieldsThreads<R>(p: Callbacks<R>, s: State<R>, w: nat, act: CallAct)
    requires CallEnabled(s, w, act) && !s.aborted && (act.Enter? || act.Store?)
    ensures var s' := CallStep(p, s, w, act);
            && s'.queue == s.queue && s'.run == s.run && s'.workers == s.workers
            && |s'.threads| == |s.threads| && s'.threads == s.threads[w := s'.threads[w]]
            && ByNull(s'.threads[w]) == ByNull(s.threads[w])
            && WeightOf(s'.threads[w]) + B(!s'.aborted) <= WeightOf(s.threads[w])
  {
  }

  lemma OtherCalls<R>(p: Callbacks<R>, s: State<R>, w: nat, act: CallAct)
    requires CallEnabled(s, w, act) && ThreadInv(s, w) && !s.aborted && !act.Enter? && !act.Store?
    ensures var s' := CallStep(p, s, w, act);
            && s'.queue == s.queue && s'.run == s.run && s'.workers == s.workers
            && |s'.threads| == |s.threads| && s'.threads == s.threads[w := s'.threads[w]]
            && ByNull(s'.threads[w]) == ByNull(s.threads[w])
            && WeightOf(s'.threads[w]) + B(!s'.aborted) <= WeightOf(s.threads[w])
  {
  }

  /** The effect of a step that takes nothing off the port. */
  lemma StepThreads<R>(p: Callbacks<R>, s: State<R>, a: Action)
    requires Inv(p, s) && Enabled(s, a) && !DequeueStep(a)
    ensures var s' := Step(p, s, a);
            && s'.workers == s.workers && |s'.threads| == |s.threads|
            && (a == PostNull || a.Complete? || s'.queue == s.queue)
            && (a.PostNull? || a.Wake? || a.Join? || s'.run == s.run)
            && match Actor(a)
               case None => s'.threads == s.threads
               case Some(i) =>
                 && i < |s.threads| && s'.threads == s.threads[i := s'.threads[i]]
                 && ByNull(s'.threads[i]) == ByNull(s.threads[i])
                 && WeightOf(s'.threads[i]) <= WeightOf(s.threads[i])
                 && (WorkerStep(s.workers, a) && !s'.aborted ==>
                       WeightOf(s'.threads[i]) < WeightOf(s.threads[i]))
  {
    match a
    case Issue(i, act) =>
      assert ThreadInv(s, i);
      IssueThreads(s, i, act);
      if act.Leave? { LeaveWeights(s, i); } else { IssueWeights(s, i, act); }
    case Work(w, act) => WorkThreads(s, w, act); WorkWeights(s, w, act);
    case Call(w, act) => assert ThreadInv(s, w); CallThreads(p, s, w, act);
    case _ =>
  }

  /** The same for the two steps that may take a packet off the port. */
  lemma DequeueThreads<R>(p: Callbacks<R>, s: State<R>, a: Action)
    requires Enabled(s, a) && DequeueStep(a)
    ensures var s' := Step(p, s, a);
            && s'.workers == s.workers && |s'.threads| == |s.threads| && s'.run == s.run
            && a.w < |s.threads| && s'.threads == s.threads[a.w := s'.threads[a.w]]
            && s.threads[a.w].pc.Idle?
            && (s'.queue == s.queue || (|s.queue| > 0 && s'.queue == s.queue[1..]))
            && (ByNull(s'.threads[a.w]) <==> |s.queue| > 0 && s'.queue != s.queue && s.queue[0] == NullKey)
            && WeightOf(s'.threads[a.w]) <= (if s'.queue == s.queue then 0 else 31)
  {
    if |s.queue| > 0 {
      assert |s.queue[1..]| < |s.queue|;
    }
  }

  // ---------------------------------------------------------------- the null-key packets

  lemma KeepNullDequeue<R>(p: Callbacks<R>, s: State<R>, a: Action)
    requires Enabled(s, a) && NullInv(s) && DequeueStep(a)
    ensures NullInv(Step(p, s, a))
  {
    var s' := Step(p, s, a);
    DequeueThreads(p, s, a);
    SumUpdate(s.threads, a.w, s'.threads[a.w], NullExit());
    if |s.queue| > 0 { SumHead(s.queue, NullWeight()); }
  }

  lemma KeepNullPost<R>(p: Callbacks<R>, s: State<R>)
    requires CanPostNull(s) && NullInv(s)
    ensures NullInv(DoPostNull(s))
  {
    SumAppend(s.queue, NullKey, NullWeight());
  }

  lemma KeepNullOther<R>(p: Callbacks<R>, s: State<R>, a: Action)
    requires Inv(p, s) && Enabled(s, a) && NullInv(s) && Actor(a).Some? && !DequeueStep(a)
    ensures NullInv(Step(p, s, a))
  {
    StepThreads(p, s, a);
    SumUpdate(s.threads, Actor(a).value, Step(p, s, a).threads[Actor(a).value], NullExit());
  }

  lemma KeepNull<R>(p: Callbacks<R>, s: State<R>, a: Action)
    requires Inv(p, s) && Enabled(s, a) && NullInv(s)
    ensures NullInv(Step(p, s, a))
  {
    if DequeueStep(a) { KeepNullDequeue(p, s, a); }
    else if Actor(a).Some? { KeepNullOther(p, s, a); }
    else { KeepNullNone(p, s, a); }
  }

  lemma KeepNullNone<R>(p: Callbacks<R>, s: State<R>, a: Action)
    requires Enabled(s, a) && NullInv(s) && Actor(a).None?
    ensures NullInv(Step(p, s, a))
  {
    if a.PostNull? { KeepNullPost(p, s); }
    else if a.Complete? { SumAppend(s.queue, Completion(a.t), NullWeight()); }
  }

  lemma InitNull<R>(workers: nat, others: nat)
    ensures NullInv(Init<R>(workers, others)) && JoinInv(Init<R>(workers, others))
  {
    SumZero(Init<R>(workers, others).threads, NullExit());
  }

  lemma {:induction false} LiveBound<R>(threads: seq<Thread<R>>, workers: nat)
    requires forall i | workers <= i < |threads| :: threads[i].pc.NotWorker?
    ensures Sum(threads, LiveWeight()) + Sum(threads, NullExit()) <= workers
  {
    if |threads| > 0 {
      var n := |threads| - 1;
      if n < workers {
        LiveBound(threads[..n], n);
      } else {
        LiveBound(threads[..n], workers);
      }
    }
  }

  /** The null-key packets still to come are never fewer than the live workers. */
  lemma NullsCoverLive<R>(p: Callbacks<R>, s: State<R>)
    requires Inv(p, s) && NullInv(s)
    ensures Sum(s.queue, NullWeight()) + ToPost(s) >= Sum(s.threads, LiveWeight())
  {
    forall i | s.workers <= i < |s.threads| ensures s.threads[i].pc.NotWorker? {
      assert ThreadInv(s, i);
    }
    LiveBound(s.threads, s.workers);
  }

  // ---------------------------------------------------------------- the measure

  /** The number of packets up to and including the last null-key packet. */
  function Ahead(queue: seq<Packet>): nat {
    if |queue| == 0 then 0
    else if queue[|queue| - 1] == NullKey then |queue|
    else Ahead(queue[..|queue| - 1])
  }

  lemma AheadAppend(queue: seq<Packet>, t: nat)
    ensures Ahead(queue + [Completion(t)]) == Ahead(queue)
  {
    assert (queue + [Completion(t)])[..|queue|] == queue;
  }

  lemma {:induction false} AheadTail(queue: seq<Packet>)
    requires |queue| > 0
    ensures Ahead(queue) == (if Ahead(queue) == 0 then 0 else Ahead(queue[1..]) + 1)
    ensures Ahead(queue) == 0 ==> Ahead(queue[1..]) == 0
  {
    var n := |queue| - 1;
    if n > 0 && queue[n] != NullKey {
      AheadTail(queue[..n]);
      assert queue[..n][1..] == queue[1..][..n - 1];
    }
  }

  lemma {:induction false} AheadZero(queue: seq<Packet>)
    requires Ahead(queue) == 0
    ensures Sum(queue, NullWeight()) == 0
  {
    if |queue| > 0 {
      AheadZero(queue[..|queue| - 1]);
    }
  }

  /** Worker steps left before all workers have exited. */
  function Measure<R>(s: State<R>): nat {
    31 * Ahead(s.queue) + Sum(s.threads, PcWeight())
  }

  /** `run` has posted all its null-key packets. */
  predicate AllPosted<R>(s: State<R>) {
    s.run.Joining? || s.run.Finished?
  }

  lemma DequeueMeasure<R>(p: Callbacks<R>, s: State<R>, a: Action)
    requires Inv(p, s) && NullInv(s) && AllPosted(s) && Enabled(s, a) && DequeueStep(a)
    ensures Measure(Step(p, s, a)) < Measure(s)
  {
    var s' := Step(p, s, a);
    DequeueThreads(p, s, a);
    SumUpdate(s.threads, a.w, s'.threads[a.w], PcWeight());
    if s'.queue != s.queue {
      NullsCoverLive(p, s);
      SumAtLeast(s.threads, a.w, LiveWeight());
      if Ahead(s.queue) == 0 { AheadZero(s.queue); }
      AheadTail(s.queue);
    }
  }

  /** Once the null-key packets are posted, every step of a worker lowers the measure, and no step raises it, whatever
      is queued in the meantime. */
  lemma MeasureFalls<R>(p: Callbacks<R>, s: State<R>, a: Action)
    requires Inv(p, s) && NullInv(s) && AllPosted(s) && Enabled(s, a)
    ensures AllPosted(Step(p, s, a))
    ensures Measure(Step(p, s, a)) <= Measure(s)
    ensures WorkerStep(s.workers, a) && !Step(p, s, a).aborted ==> Measure(Step(p, s, a)) < Measure(s)
    ensures Step(p, s, a).workers == s.workers
  {
    var s' := Step(p, s, a);
    if DequeueStep(a) {
      DequeueThreads(p, s, a);
      DequeueMeasure(p, s, a);
    } else {
      StepThreads(p, s, a);
      if Actor(a).Some? {
        SumUpdate(s.threads, Actor(a).value, s'.threads[Actor(a).value], PcWeight());
      }
      if a.Complete? { AheadAppend(s.queue, a.t); }
    }
  }

  function WorkerSteps(workers: nat, acts: seq<Action>): nat {
    if |acts| == 0 then 0 else B(WorkerStep(workers, acts[0])) + WorkerSteps(workers, acts[1..])
  }

  lemma AbortEnds<R>(p: Callbacks<R>, s: State<R>, acts: seq<Action>)
    requires s.aborted && Runs(p, s, acts)
    ensures acts == []
  {
  }

  /** Shutdown terminates: after the last null-key packet is posted, no run has more worker steps than the measure at
      that point (plus the one that aborts the process), however many packets the callbacks and the kernel queue. */
  lemma {:induction false} BoundedShutdown<R>(p: Callbacks<R>, s: State<R>, acts: seq<Action>)
    requires Inv(p, s) && NullInv(s) && AllPosted(s) && Runs(p, s, acts) && !s.aborted
    ensures WorkerSteps(s.workers, acts) + Measure(Exec(p, s, acts)) <= Measure(s) + B(Exec(p, s, acts).aborted)
    decreases |acts|
  {
    if |acts| > 0 {
      var s1 := Step(p, s, acts[0]);
      MeasureFalls(p, s, acts[0]);
      KeepStep(p, s, acts[0]);
      KeepNull(p, s, acts[0]);
      if s1.aborted {
        AbortEnds(p, s1, acts[1..]);
      } else {
        BoundedShutdown(p, s1, acts[1..]);
      }
    }
  }

  /** And it never stops early: as long as a worker is live it can take its next step, or it waits for
      currentTasksMutex and the holder can take its own. */
  lemma LiveWorkerMoves<R>(p: Callbacks<R>, s: State<R>, w: nat)
    requires Inv(p, s) && NullInv(s) && AllPosted(s) && !s.aborted && w < |s.threads| && LiveWorker(s.threads[w])
    ensures Enabled(s, NextOf(s, w)) || HolderMoves(s, w)
  {
    if s.threads[w].pc.Idle? {
      NullsCoverLive(p, s);
      SumAtLeast(s.threads, w, LiveWeight());
      assert |s.queue| > 0;
      assert QueuedAt(s, 0);
      assert ThreadInv(s, w);
    } else {
      BusyOrWaiting(p, s, w);
    }
  }

  // ---------------------------------------------------------------- a way to the end

  /** Steps that a thread outside the pool has left in the call it is making. */
  function OutsideSteps<R>(th: Thread<R>): nat {
    if th.pc.NotWorker? then IssueWeight(th.issue) else 0
  }

  function OutsideWeight<R>(): Thread<R> -> nat {
    (th: Thread<R>) => OutsideSteps(th)
  }

  /** The measure together with the calls of the other threads. */
  function Total<R>(s: State<R>): nat {
    Measure(s) + Sum(s.threads, OutsideWeight())
  }

  /** Every worker has exited, or the process has been aborted. */
  predicate Over<R>(s: State<R>) {
    s.aborted || forall w | 0 <= w < |s.threads| :: !LiveWorker(s.threads[w])
  }

  lemma WorkerProgress<R>(p: Callbacks<R>, s: State<R>, a: Action)
    requires Inv(p, s) && NullInv(s) && AllPosted(s) && Enabled(s, a)
    requires Actor(a).Some? && Actor(a).value < s.workers && WorkerStep(s.workers, a)
    ensures Step(p, s, a).aborted || Total(Step(p, s, a)) < Total(s)
  {
    var s', w := Step(p, s, a), Actor(a).value;
    MeasureFalls(p, s, a);
    if DequeueStep(a) { DequeueThreads(p, s, a); } else { StepThreads(p, s, a); }
    WorkerStays(p, s, a, w);
    SumUpdate(s.threads, w, s'.threads[w], OutsideWeight());
  }

  lemma WorkerStays<R>(p: Callbacks<R>, s: State<R>, a: Action, w: nat)
    requires Inv(p, s) && Enabled(s, a) && w < s.workers <= |s.threads|
    requires var s' := Step(p, s, a); s'.workers == s.workers && |s'.threads| == |s.threads|
    ensures OutsideSteps(s.threads[w]) == 0 && OutsideSteps(Step(p, s, a).threads[w]) == 0
  {
    KeepStep(p, s, a);
    assert ThreadInv(s, w) && ThreadInv(Step(p, s, a), w);
  }

  /** A thread outside the pool that holds currentTasksMutex is about to insert or to unlock. */
  lemma OutsideHolder<R>(p: Callbacks<R>, s: State<R>, h: nat)
    requires Inv(p, s) && h < |s.threads| && h >= s.workers && s.mutex == Some(h)
    ensures NextOf(s, h).Issue? && NextOf(s, h).i == h && !NextOf(s, h).issue.Leave?
    ensures s.threads[h].pc.NotWorker?
  {
    assert ThreadInv(s, h);
  }

  lemma OutsideProgress<R>(p: Callbacks<R>, s: State<R>, h: nat)
    requires Inv(p, s) && NullInv(s) && AllPosted(s) && h < |s.threads| && h >= s.workers && s.mutex == Some(h)
    requires Enabled(s, NextOf(s, h))
    ensures Step(p, s, NextOf(s, h)).aborted || Total(Step(p, s, NextOf(s, h))) < Total(s)
  {
    var a, s' := NextOf(s, h), Step(p, s, NextOf(s, h));
    OutsideHolder(p, s, h);
    MeasureFalls(p, s, a);
    StepThreads(p, s, a);
    assert ThreadInv(s, h);
    IssueWeights(s, h, a.issue);
    SumUpdate(s.threads, h, s'.threads[h], OutsideWeight());
  }

  lemma NextIsWorkerStep<R>(p: Callbacks<R>, s: State<R>, w: nat)
    requires Inv(p, s) && w < |s.threads| && w < s.workers
    ensures Actor(NextOf(s, w)) == Some(w) && WorkerStep(s.workers, NextOf(s, w))
  {
    assert ThreadInv(s, w);
  }

  /** As long as a worker is live, some step brings the end nearer. */
  lemma SomeProgress<R>(p: Callbacks<R>, s: State<R>) returns (a: Action)
    requires Inv(p, s) && NullInv(s) && AllPosted(s) && !Over(s)
    ensures Enabled(s, a) && (Step(p, s, a).aborted || Total(Step(p, s, a)) < Total(s))
  {
    var w :| 0 <= w < |s.threads| && LiveWorker(s.threads[w]);
    assert ThreadInv(s, w);
    LiveWorkerMoves(p, s, w);
    var i: nat := if Enabled(s, NextOf(s, w)) then w else s.mutex.value;
    a := NextOf(s, i);
    if i < s.workers {
      NextIsWorkerStep(p, s, i);
      WorkerProgress(p, s, a);
    } else {
      OutsideProgress(p, s, i);
    }
  }

  lemma {:induction false} SomeEnd<R>(p: Callbacks<R>, s: State<R>) returns (acts: seq<Action>)
    requires Inv(p, s) && NullInv(s) && AllPosted(s)
    ensures Runs(p, s, acts) && Over(Exec(p, s, acts))
    decreases Total(s)
  {
    acts := [];
    if !Over(s) {
      var a := SomeProgress(p, s);
      var s' := Step(p, s, a);
      KeepStep(p, s, a);
      KeepNull(p, s, a);
      MeasureFalls(p, s, a);
      var rest := [];
      if !s'.aborted { rest := SomeEnd(p, s'); }
      acts := [a] + rest;
      assert acts[1..] == rest;
    }
  }

  // ---------------------------------------------------------------- what run returns

  /** An exited worker takes no further step. */
  lemma ExitedStays<R>(p: Callbacks<R>, s: State<R>, a: Action, i: nat)
    requires Inv(p, s) && Enabled(s, a) && i < |s.threads| && s.threads[i].pc.Exited?
    ensures i < |Step(p, s, a).threads| && Step(p, s, a).threads[i] == s.threads[i]
  {
    if DequeueStep(a) {
      DequeueThreads(p, s, a);
    } else {
      StepThreads(p, s, a);
      assert ThreadInv(s, i);
      match a
      case Work(w, act) => WorkActor(s, w, act);
      case _ =>
    }
  }

  lemma WorkActor<R>(s: State<R>, w: nat, act: WorkAct)
    requires WorkEnabled(s, w, act)
    ensures w < |s.threads| && !s.threads[w].pc.Exited?
  {
  }

  lemma {:induction false} FirstExceptionKept<R>(ts: seq<Thread<R>>, us: seq<Thread<R>>, n: nat)
    requires n <= |ts| && n <= |us| && forall i | 0 <= i < n :: us[i] == ts[i]
    ensures FirstException(us, n) == FirstException(ts, n)
  {
    if n > 0 {
      FirstExceptionKept(ts, us, n - 1);
    }
  }

  lemma KeepJoin<R>(p: Callbacks<R>, s: State<R>, a: Action)
    requires Inv(p, s) && Enabled(s, a) && JoinInv(s)
    ensures JoinInv(Step(p, s, a))
  {
    var s' := Step(p, s, a);
    if a.Join? || a.Wake? || a.PostNull? {
      return;
    }
    if DequeueStep(a) { DequeueThreads(p, s, a); } else { StepThreads(p, s, a); }
    forall i | 0 <= i < |s.threads| && s.threads[i].pc.Exited? ensures s'.threads[i] == s.threads[i] {
      ExitedStays(p, s, a, i);
    }
    if s.run.Finished? {
      FirstExceptionKept(s.threads, s'.threads, s.workers);
    }
  }

  /** The two invariants of this module hold in every reachable state. */
  lemma {:induction false} ShutdownRun<R>(p: Callbacks<R>, s: State<R>, acts: seq<Action>)
    requires Inv(p, s) && NullInv(s) && JoinInv(s) && Runs(p, s, acts)
    ensures NullInv(Exec(p, s, acts)) && JoinInv(Exec(p, s, acts))
    decreases |acts|
  {
    if |acts| > 0 {
      KeepNull(p, s, acts[0]);
      KeepJoin(p, s, acts[0]);
      KeepStep(p, s, acts[0]);
      ShutdownRun(p, Step(p, s, acts[0]), acts[1..]);
    }
  }

  lemma ReachableShutdown<R(!new)>(p: Callbacks<R>, s: State<R>)
    requires Reachable(p, s)
    ensures Inv(p, s) && NullInv(s) && JoinInv(s)
  {
    ReachableInv(p, s);
    var workers: nat, others: nat, acts :|
      Runs(p, Init<R>(workers, others), acts) && Exec(p, Init<R>(workers, others), acts) == s;
    InitInv(p, workers, others);
    InitNull<R>(workers, others);
    ShutdownRun(p, Init<R>(workers, others), acts);
  }

  lemma {:induction false} FirstExceptionIs<R>(ts: seq<Thread<R>>, n: nat, i: nat)
    requires i < n <= |ts| && ts[i].exc.Some? && forall j | 0 <= j < i :: ts[j].exc.None?
    ensures FirstException(ts, n) == ts[i].exc
  {
    if i < n - 1 {
      FirstExceptionIs(ts, n - 1, i);
    } else {
      FirstExceptionNone(ts, i);
    }
  }

  lemma {:induction false} FirstExceptionNone<R>(ts: seq<Thread<R>>, n: nat)
    requires n <= |ts| && forall j | 0 <= j < n :: ts[j].exc.None?
    ensures FirstException(ts, n).None?
  {
    if n > 0 {
      FirstExceptionNone(ts, n - 1);
    }
  }

  /** Worker `i` is the lowest-indexed one that did not leave through a null-key packet. */
  predicate FirstFailed<R>(s: State<R>, i: nat) {
    && i < s.workers <= |s.threads| && s.threads[i].pc == Exited(false)
    && forall j | 0 <= j < i :: s.threads[j].pc == Exited(true)
  }

  /** `run` returns no exception exactly when every worker left through a null-key packet; otherwise it returns the
      stored exception of the lowest-indexed worker that failed. */
  lemma RunResult<R(!new)>(p: Callbacks<R>, s: State<R>)
    requires Reachable(p, s) && s.run.Finished?
    ensures s.workers <= |s.threads|
    ensures s.run.result.None? <==> forall i | 0 <= i < s.workers :: s.threads[i].pc.Exited? && s.threads[i].pc.byNull
    ensures forall i: nat | FirstFailed(s, i) :: s.run.result.Some? && s.run.result == s.threads[i].exc
  {
    ReachableShutdown(p, s);
    forall i | 0 <= i < s.workers ensures s.threads[i].exc.None? <==> s.threads[i].pc.byNull {
      assert ThreadInv(s, i);
    }
    forall i: nat | FirstFailed(s, i) ensures s.run.result.Some? && s.run.result == s.threads[i].exc {
      FirstExceptionIs(s.threads, s.workers, i);
    }
    if forall i | 0 <= i < s.workers :: s.threads[i].pc.byNull {
      FirstExceptionNone(s.threads, s.workers);
    } else {
      var i := LowestFailure(s.threads, s.workers);
      FirstExceptionIs(s.threads, s.workers, i);
    }
  }

  /** The lowest index whose exception slot is filled. */
  lemma {:induction false} LowestFailure<R>(ts: seq<Thread<R>>, n: nat) returns (i: nat)
    requires n <= |ts| && exists j :: 0 <= j < n && ts[j].exc.Some?
    ensures i < n && ts[i].exc.Some? && forall j | 0 <= j < i :: ts[j].exc.None?
  {
    i := 0;
    while ts[i].exc.None?
      invariant i < n && forall j | 0 <= j < i :: ts[j].exc.None?
      decreases n - i
    {
      i := i + 1;
    }
  }

  /** The null-key packets still to come are never fewer than the live workers, in every reachable state. */
  lemma NullsSuffice<R(!new)>(p: Callbacks<R>, s: State<R>)
    requires Reachable(p, s)
    ensures Sum(s.queue, NullWeight()) + ToPost(s) >= Sum(s.threads, LiveWeight())
  {
    ReachableShutdown(p, s);
    NullsCoverLive(p, s);
  }

  /** Termination, from any reachable state in which the null-key packets are posted: a bound on the worker steps of
      every continuation; at its end every live worker can move, or waits for a mutex whose holder can; and some further
      continuation ends with every worker exited or the process aborted. */
  lemma ShutdownTerminates<R(!new)>(p: Callbacks<R>, s: State<R>, acts: seq<Action>) returns (more: seq<Action>)
    requires Reachable(p, s) && AllPosted(s) && !s.aborted && Runs(p, s, acts)
    ensures WorkerSteps(s.workers, acts) <= Measure(s) + 1
    ensures var e := Exec(p, s, acts);
            !e.aborted ==> forall w: nat | w < |e.threads| && LiveWorker(e.threads[w]) ::
                             Enabled(e, NextOf(e, w)) || HolderMoves(e, w)
    ensures Runs(p, Exec(p, s, acts), more) && Over(Exec(p, Exec(p, s, acts), more))
  {
    ReachableShutdown(p, s);
    BoundedShutdown(p, s, acts);
    KeepRun(p, s, acts);
    ShutdownRun(p, s, acts);
    PostedStays(p, s, acts);
    var e := Exec(p, s, acts);
    more := SomeEnd(p, e);
    if !e.aborted {
      forall w: nat | w < |e.threads| && LiveWorker(e.threads[w]) ensures Enabled(e, NextOf(e, w)) || HolderMoves(e, w)
      {
        LiveWorkerMoves(p, e, w);
      }
    }
  }

  lemma {:induction false} PostedStays<R>(p: Callbacks<R>, s: State<R>, acts: seq<Action>)
    requires Inv(p, s) && NullInv(s) && AllPosted(s) && Runs(p, s, acts)
    ensures AllPosted(Exec(p, s, acts))
    decreases |acts|
  {
    if |acts| > 0 {
      MeasureFalls(p, s, acts[0]);
      KeepStep(p, s, acts[0]);
      KeepNull(p, s, acts[0]);
      PostedStays(p, Step(p, s, acts[0]), acts[1..]);
    }
  }
}
