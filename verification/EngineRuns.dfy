/** Claims about whole runs: what never changes again once it has happened, and two schedules on which the code does
    not do what a caller would expect. */
module EngineRuns {
  import opened Basics
  import opened Engine
  import opened EngineInvariant
  import opened EngineSteps
  import opened EngineSafety

  // ---------------------------------------------------------------- what a step leaves alone

  /** The task whose packet a dequeue call takes off the port. */
  predicate TakesPacket<R>(s: State<R>, a: Action, t: nat) {
    a.Work? && (a.work.Dequeue? || a.work.DequeueFail?) && |s.queue| > 0 && s.queue[0] == Completion(t)
  }

  lemma WorkTasks<R>(s: State<R>, w: nat, act: WorkAct, t: nat)
    requires !s.aborted && WorkEnabled(s, w, act) && t < |s.tasks| && t !in Touched(s, Work(w, act))
    requires !TakesPacket(s, Work(w, act), t)
    ensures var s' := WorkStep(s, w, act); t < |s'.tasks| && s'.tasks[t] == s.tasks[t]
  {
  }

  lemma IssueTasks<R>(s: State<R>, i: nat, act: IssueAct, t: nat)
    requires !s.aborted && IssueEnabled(s, i, act) && t < |s.tasks| && t !in Touched(s, Issue(i, act))
    ensures var s' := IssueStep(s, i, act); t < |s'.tasks| && s'.tasks[t] == s.tasks[t]
  {
  }

  /** A step changes only the tasks it touches, or whose packet it dequeues. */
  lemma StepTasks<R>(p: Callbacks<R>, s: State<R>, a: Action, t: nat)
    requires Enabled(s, a) && t < |s.tasks| && t !in Touched(s, a) && !TakesPacket(s, a, t)
    ensures var s' := Step(p, s, a); t < |s'.tasks| && s'.tasks[t] == s.tasks[t]
  {
    match a
    case Issue(i, act) => IssueTasks(s, i, act, t);
    case Work(w, act) => WorkTasks(s, w, act, t);
    case _ =>
  }

  lemma IssueConns<R>(s: State<R>, i: nat, act: IssueAct, c: nat)
    requires IssueEnabled(s, i, act) && c < |s.conns| && ThreadInv(s, i)
    ensures var s' := IssueStep(s, i, act);
            c < |s'.conns| && (s'.conns[c] != s.conns[c] ==> s.conns[c].token == Held(i))
  {
  }

  lemma WorkConns<R>(s: State<R>, w: nat, act: WorkAct, c: nat)
    requires WorkEnabled(s, w, act) && c < |s.conns| && ThreadInv(s, w)
    requires act.MarkDone? ==> TaskInv(s, s.threads[w].pc.t)
    ensures var s' := WorkStep(s, w, act);
            c < |s'.conns| && (s'.conns[c] != s.conns[c] ==> s.conns[c].token.InFlight?)
  {
  }

  lemma CallConns<R>(p: Callbacks<R>, s: State<R>, w: nat, act: CallAct, c: nat)
    requires CallEnabled(s, w, act) && c < |s.conns| && ThreadInv(s, w)
    ensures var s' := CallStep(p, s, w, act);
            c < |s'.conns| && (s'.conns[c] != s.conns[c] ==> s.conns[c].token == Held(w))
  {
  }

  lemma WorkFacts<R>(p: Callbacks<R>, s: State<R>, w: nat, act: WorkAct)
    requires Inv(p, s) && WorkEnabled(s, w, act)
    ensures ThreadInv(s, w) && (act.MarkDone? ==> TaskInv(s, s.threads[w].pc.t))
  {
  }

  /** A step changes a connection only while a thread owns it, or when its read in flight is called back. */
  lemma StepConns<R>(p: Callbacks<R>, s: State<R>, a: Action, c: nat)
    requires Inv(p, s) && Enabled(s, a) && c < |s.conns|
    ensures var s' := Step(p, s, a);
            && c < |s'.conns|
            && (s'.conns[c] != s.conns[c] ==> s.conns[c].token.Held? || s.conns[c].token.InFlight?)
  {
    match a
    case Issue(i, act) => assert ThreadInv(s, i); IssueConns(s, i, act, c);
    case Work(w, act) => WorkFacts(p, s, w, act); WorkConns(s, w, act, c);
    case Call(w, act) => assert ThreadInv(s, w); CallConns(p, s, w, act, c);
    case _ =>
  }

  // ---------------------------------------------------------------- for the rest of the run

  /** The consumed chunks of connection `c` are the same, or one more. */
  predicate ChunksGrow<R>(s: State<R>, s': State<R>, c: nat) {
    && c < |s.conns| && c < |s'.conns|
    && s.conns[c].chunks <= s'.conns[c].chunks
  }

  lemma IssueChunks<R>(s: State<R>, i: nat, act: IssueAct, c: nat)
    requires IssueEnabled(s, i, act) && c < |s.conns|
    ensures ChunksGrow(s, IssueStep(s, i, act), c)
  {
  }

  lemma WorkChunks<R>(s: State<R>, w: nat, act: WorkAct, c: nat)
    requires WorkEnabled(s, w, act) && c < |s.conns|
    ensures ChunksGrow(s, WorkStep(s, w, act), c)
  {
  }

  lemma CallChunks<R>(p: Callbacks<R>, s: State<R>, w: nat, act: CallAct, c: nat)
    requires CallEnabled(s, w, act) && c < |s.conns|
    ensures ChunksGrow(s, CallStep(p, s, w, act), c)
  {
  }

  lemma StepChunks<R>(p: Callbacks<R>, s: State<R>, a: Action, c: nat)
    requires Enabled(s, a) && c < |s.conns|
    ensures ChunksGrow(s, Step(p, s, a), c)
  {
    match a
    case Issue(i, act) => IssueChunks(s, i, act, c);
    case Work(w, act) => WorkChunks(s, w, act, c);
    case Call(w, act) => CallChunks(p, s, w, act, c);
    case _ =>
  }

  /** Over a run, a connection's consumed chunks only grow. */
  lemma {:induction false} ChunksOnlyGrow<R>(p: Callbacks<R>, s: State<R>, acts: seq<Action>, c: nat)
    requires Runs(p, s, acts) && c < |s.conns|
    ensures ChunksGrow(s, Exec(p, s, acts), c)
    decreases |acts|
  {
    if |acts| > 0 {
      StepChunks(p, s, acts[0], c);
      ChunksOnlyGrow(p, Step(p, s, acts[0]), acts[1..], c);
    }
  }

  predicate Dead<R>(s: State<R>, t: nat) {
    t < |s.tasks| && Counted(s.tasks[t].kind) && s.tasks[t].destroyed > 0
  }

  lemma HeadAlive<R>(p: Callbacks<R>, s: State<R>, a: Action, t: nat)
    requires Inv(p, s)
    ensures TakesPacket(s, a, t) ==> !Dead(s, t)
  {
    if |s.queue| > 0 && s.queue[0] == Completion(t) {
      assert QueuedAt(s, 0);
      assert TaskInv(s, t);
    }
  }

  lemma DeadStep<R>(p: Callbacks<R>, s: State<R>, a: Action, t: nat)
    requires Inv(p, s) && Enabled(s, a) && Dead(s, t)
    ensures var s' := Step(p, s, a); t < |s'.tasks| && s'.tasks[t] == s.tasks[t]
  {
    assert TaskInv(s, t);
    if t in Touched(s, a) {
      match a
      case Issue(i, act) => IssuerTouch(p, s, i, act);
      case Work(w, act) => WorkerTouch(p, s, w);
      case Call(w, act) => WorkerTouch(p, s, w);
      case _ =>
      assert false;
    }
    HeadAlive(p, s, a, t);
    StepTasks(p, s, a, t);
  }

  /** Once a read task is destroyed it stays as it is: no continuation of the run reads, counts or destroys it again. */
  lemma {:induction false} DestructionIsFinal<R(!new)>(p: Callbacks<R>, s: State<R>, acts: seq<Action>, t: nat)
    requires Inv(p, s) && Runs(p, s, acts) && Dead(s, t)
    ensures t < |Exec(p, s, acts).tasks| && Exec(p, s, acts).tasks[t] == s.tasks[t]
    decreases |acts|
  {
    if |acts| > 0 {
      DeadStep(p, s, acts[0], t);
      KeepStep(p, s, acts[0]);
      DestructionIsFinal(p, Step(p, s, acts[0]), acts[1..], t);
    }
  }

  // ---------------------------------------------------------------- a failed start

  lemma IssueFrames<R>(s: State<R>, i: nat, act: IssueAct, j: nat)
    requires IssueEnabled(s, i, act) && j < |s.threads|
    ensures var s' := IssueStep(s, i, act);
            |s'.threads| == |s.threads| &&
            (ITask(s'.threads[j].issue).Some? ==> ITask(s'.threads[j].issue) == ITask(s.threads[j].issue))
  {
  }

  lemma WorkFrames<R>(s: State<R>, w: nat, act: WorkAct, j: nat)
    requires WorkEnabled(s, w, act) && j < |s.threads|
    ensures var s' := WorkStep(s, w, act);
            |s'.threads| == |s.threads| && s'.threads[j].issue == s.threads[j].issue
  {
  }

  lemma CallFrames<R>(p: Callbacks<R>, s: State<R>, w: nat, act: CallAct, j: nat)
    requires CallEnabled(s, w, act) && j < |s.threads|
    ensures var s' := CallStep(p, s, w, act);
            |s'.threads| == |s.threads| &&
            (s'.threads[j].issue == s.threads[j].issue || ITask(s'.threads[j].issue) == Some(|s.tasks|))
  {
  }

  /** A step opens an issue frame only on a new task. */
  lemma StepFrames<R>(p: Callbacks<R>, s: State<R>, a: Action, j: nat, t: nat)
    requires Enabled(s, a) && j < |s.threads| && t < |s.tasks| && ITask(s.threads[j].issue) != Some(t)
    ensures var s' := Step(p, s, a); |s'.threads| == |s.threads| && ITask(s'.threads[j].issue) != Some(t)
  {
    match a
    case Issue(i, act) => IssueFrames(s, i, act, j);
    case Work(w, act) => WorkFrames(s, w, act, j);
    case Call(w, act) => CallFrames(p, s, w, act, j);
    case _ =>
  }

  lemma LeakedUntouched<R>(p: Callbacks<R>, s: State<R>, a: Action, t: nat)
    requires Inv(p, s) && Enabled(s, a) && Leaked(s, t)
    ensures t !in Touched(s, a) && !TakesPacket(s, a, t)
  {
    LeakedIsHeld(p, s, t);
    match a
    case Work(w, act) =>
      assert ThreadInv(s, w);
      if |s.queue| > 0 { assert QueuedAt(s, 0); }
    case Call(w, act) => assert ThreadInv(s, w);
    case _ =>
  }

  /** A read whose start failed after its block was linked is held by that block alone and is never destroyed, whatever
      happens afterwards. */
  lemma {:induction false} FailedStartLeaks<R(!new)>(p: Callbacks<R>, s: State<R>, acts: seq<Action>, t: nat)
    requires Inv(p, s) && Runs(p, s, acts) && Leaked(s, t)
    ensures var e := Exec(p, s, acts);
            Leaked(e, t) && e.tasks[t].ovRef && e.tasks[t].rc == 1 && e.tasks[t].destroyed == 0
    decreases |acts|
  {
    if |acts| > 0 {
      var a, s' := acts[0], Step(p, s, acts[0]);
      LeakedUntouched(p, s, a, t);
      StepTasks(p, s, a, t);
      forall j | 0 <= j < |s'.threads| ensures ITask(s'.threads[j].issue) != Some(t) {
        StepFrames(p, s, a, if j < |s.threads| then j else 0, t);
      }
      KeepStep(p, s, a);
      FailedStartLeaks(p, s', acts[1..], t);
    } else {
      LeakedIsHeld(p, s, t);
    }
  }

  // ---------------------------------------------------------------- after the response

  /** No read follows a response: once a response is issued on a connection, its parser fields, its consumed chunks
      and its reads stay as they are for the rest of the run. */
  lemma {:induction false} NothingAfterResponse<R(!new)>(p: Callbacks<R>, s: State<R>, acts: seq<Action>, c: nat)
    requires Inv(p, s) && Runs(p, s, acts) && c < |s.conns| && s.conns[c].token.Responded?
    ensures c < |Exec(p, s, acts).conns| && Exec(p, s, acts).conns[c] == s.conns[c]
    decreases |acts|
  {
    if |acts| > 0 {
      StepConns(p, s, acts[0], c);
      KeepStep(p, s, acts[0]);
      NothingAfterResponse(p, Step(p, s, acts[0]), acts[1..], c);
    }
  }

  /** The packet is gone and the callback has not started. */
  predicate Missed<R>(s: State<R>, t: nat) {
    t < |s.tasks| && s.tasks[t].stage == Spent && s.tasks[t].starts == 0
  }

  /** The issuer's steps around the I/O, and those around the post. */
  predicate AroundIo(act: IssueAct) {
    act.AllocOverlapped? || act.StartIo?
  }

  lemma MissedIo<R>(s: State<R>, i: nat, act: IssueAct, t: nat)
    requires IssueEnabled(s, i, act) && Missed(s, t) && ThreadInv(s, i) && AroundIo(act)
    ensures var s' := IssueStep(s, i, act); Missed(s', t) && (t in s.current ==> t in s'.current)
  {
  }

  lemma MissedPost<R>(s: State<R>, i: nat, act: IssueAct, t: nat)
    requires IssueEnabled(s, i, act) && Missed(s, t) && ThreadInv(s, i) && !AroundIo(act) && !act.Leave?
    ensures var s' := IssueStep(s, i, act); Missed(s', t) && (t in s.current ==> t in s'.current)
  {
  }

  lemma MissedLeave<R>(s: State<R>, i: nat, t: nat)
    requires CanLeave(s, i) && Missed(s, t)
    ensures var s' := DoLeave(s, i); Missed(s', t) && s'.current == s.current
  {
  }

  lemma MissedCall<R>(p: Callbacks<R>, s: State<R>, w: nat, act: CallAct, t: nat)
    requires CallEnabled(s, w, act) && Missed(s, t) && ThreadInv(s, w)
    ensures var s' := CallStep(p, s, w, act); Missed(s', t) && (t in s.current ==> t in s'.current)
  {
  }

  lemma MissedDequeue<R>(p: Callbacks<R>, s: State<R>, w: nat, act: WorkAct, t: nat)
    requires Inv(p, s) && WorkEnabled(s, w, act) && Missed(s, t) && (act.Dequeue? || act.DequeueFail?)
    ensures var s' := WorkStep(s, w, act); Missed(s', t) && (t in s.current ==> t in s'.current)
  {
    if |s.queue| > 0 { assert QueuedAt(s, 0); }
  }

  lemma MissedWork<R>(s: State<R>, w: nat, act: WorkAct, t: nat)
    requires WorkEnabled(s, w, act) && Missed(s, t) && !act.Dequeue? && !act.DequeueFail?
    requires w < |s.threads| && ThreadInv(s, w)
    ensures var s' := WorkStep(s, w, act); Missed(s', t) && (t in s.current ==> t in s'.current)
  {
  }

  lemma MissedIssue<R>(s: State<R>, i: nat, act: IssueAct, t: nat)
    requires IssueEnabled(s, i, act) && Missed(s, t) && ThreadInv(s, i)
    ensures var s' := IssueStep(s, i, act); Missed(s', t) && (t in s.current ==> t in s'.current)
  {
    if AroundIo(act) {
      MissedIo(s, i, act, t);
    } else if act.Leave? {
      MissedLeave(s, i, t);
    } else {
      MissedPost(s, i, act, t);
    }
  }

  lemma MissedOther<R>(p: Callbacks<R>, s: State<R>, a: Action, t: nat)
    requires Enabled(s, a) && Missed(s, t) && !a.Issue? && !a.Work? && !a.Call?
    ensures var s' := Step(p, s, a); Missed(s', t) && s'.current == s.current
  {
  }

  lemma MissedStep<R>(p: Callbacks<R>, s: State<R>, a: Action, t: nat)
    requires Inv(p, s) && Enabled(s, a) && Missed(s, t)
    ensures var s' := Step(p, s, a); Missed(s', t) && (t in s.current ==> t in s'.current)
  {
    match a
    case Issue(i, act) => assert ThreadInv(s, i); MissedIssue(s, i, act, t);
    case Work(w, act) =>
      assert ThreadInv(s, w);
      if act.Dequeue? || act.DequeueFail? { MissedDequeue(p, s, w, act, t); } else { MissedWork(s, w, act, t); }
    case Call(w, act) => assert ThreadInv(s, w); MissedCall(p, s, w, act, t);
    case _ => MissedOther(p, s, a, t);
  }

  /** A completion whose packet was dropped is lost for good: its callback never starts, and once posted the task
      never leaves currentTasks. */
  lemma {:induction false} MissedForever<R(!new)>(p: Callbacks<R>, s: State<R>, acts: seq<Action>, t: nat)
    requires Inv(p, s) && Runs(p, s, acts) && Missed(s, t)
    ensures var s' := Exec(p, s, acts); Missed(s', t) && (t in s.current ==> t in s'.current)
    decreases |acts|
  {
    if |acts| > 0 {
      MissedStep(p, s, acts[0], t);
      KeepStep(p, s, acts[0]);
      MissedForever(p, Step(p, s, acts[0]), acts[1..], t);
    }
  }

  // ---------------------------------------------------------------- two schedules

  /** One worker, one other thread, one task. */
  function Small<R>(k: Task, current: bool, mutex: Option<nat>, queue: seq<Packet>, pc: WorkerPc<R>,
                    issue: IssuePc, ios: seq<nat>, conns: seq<Conn<R>>): State<R>
  {
    State([k], if current then {0} else {}, mutex, queue,
          [Thread(pc, NoIssue, None, []), Thread(NotWorker, issue, None, ios)], 1, conns, Serving, false)
  }

  ghost predicate Follows<R>(p: Callbacks<R>, s: State<R>, a: Action, s': State<R>) {
    Enabled(s, a) && Step(p, s, a) == s'
  }

  /** The states `f(n)`, `f(n + 1)`, ... follow one another along `acts[n..]`. */
  ghost predicate Chain<R>(p: Callbacks<R>, f: nat -> State<R>, acts: seq<Action>, n: nat)
    requires n <= |acts|
    decreases |acts| - n
  {
    n == |acts| || (Follows(p, f(n), acts[n], f(n + 1)) && Chain(p, f, acts, n + 1))
  }

  lemma {:induction false} ChainRun<R>(p: Callbacks<R>, f: nat -> State<R>, acts: seq<Action>, n: nat)
    requires n <= |acts| && Chain(p, f, acts, n)
    ensures Runs(p, f(n), acts[n..]) && Exec(p, f(n), acts[n..]) == f(|acts|)
    decreases |acts| - n
  {
    if n < |acts| {
      assert acts[n..][1..] == acts[n + 1..];
      ChainRun(p, f, acts, n + 1);
    }
  }

  /** The packet of a read is examined between the start of the I/O and the post. */
  const EXAMINED_EARLY := [
    External(1, Read), Issue(1, AllocOverlapped(true)), Issue(1, StartIo(true)), Complete(0, ""),
    Work(0, Dequeue), Work(0, TakeRaw), Work(0, Lock), Work(0, Check), Work(0, Unlock), Work(0, ReleaseRaw),
    Issue(1, PostLock), Issue(1, PostInsert(true)), Issue(1, PostUnlock), Issue(1, CountHandle)]

  function EarlyState<R>(p: Callbacks<R>, i: nat): State<R> {
    var k0 := NewTask(Read, 0, 1);
    var k1 := k0.(rc := 2, overlapped := true, ovRef := true);
    var k2, k3, k4 := k1.(stage := InKernel), k1.(stage := Queued), k1.(stage := AtWorker(0));
    var k5, k6 := k4.(rc := 3), k1.(stage := Spent);
    var k7 := k6.(rc := 3, posted := true);
    var held, flying := [Conn(p.initial, [], [], [], Held(1))], [Conn(p.initial, [], [], [0], InFlight(0))];
    match i
    case 0 => Init(1, 1)
    case 1 => Small(k0, false, None, [], Idle, Allocated(0), [], held)
    case 2 => Small(k1, false, None, [], Idle, Built(0), [], held)
    case 3 => Small(k2, false, None, [], Idle, Started(0), [0], flying)
    case 4 => Small(k3, false, None, [Completion(0)], Idle, Started(0), [0], flying)
    case 5 => Small(k4, false, None, [], Dequeued(0), Started(0), [0], flying)
    case 6 => Small(k5, false, None, [], WantLock(0), Started(0), [0], flying)
    case 7 => Small(k5, false, Some(0), [], Locked(0), Started(0), [0], flying)
    case 8 => Small(k5, false, Some(0), [], Unmatched(0), Started(0), [0], flying)
    case 9 => Small(k5, false, None, [], DropRaw(0, true), Started(0), [0], flying)
    case 10 => Small(k6, false, None, [], Idle, Started(0), [0], flying)
    case 11 => Small(k6, false, Some(1), [], Idle, Posting(0), [0], flying)
    case 12 => Small(k7, true, Some(1), [], Idle, PostedLocked(0), [0], flying)
    case 13 => Small(k7, true, None, [], Idle, Counting(0), [0], flying)
    case _ => Small(k7.(rc := 4, handle := true, handed := true), true, None, [], Idle, Leaving(0, true), [0], flying)
  }

  lemma Early0<R>(p: Callbacks<R>, i: nat)
    requires 0 <= i < 2
    ensures Follows(p, EarlyState(p, i), EXAMINED_EARLY[i], EarlyState(p, i + 1))
  {
  }

  lemma Early2<R>(p: Callbacks<R>, i: nat)
    requires 2 <= i < 4
    ensures Follows(p, EarlyState(p, i), EXAMINED_EARLY[i], EarlyState(p, i + 1))
  {
    assert [] + [0] == [0];
  }

  lemma Early4<R>(p: Callbacks<R>, i: nat)
    requires 4 <= i < 6
    ensures Follows(p, EarlyState(p, i), EXAMINED_EARLY[i], EarlyState(p, i + 1))
  {
  }

  lemma Early6<R>(p: Callbacks<R>, i: nat)
    requires 6 <= i < 8
    ensures Follows(p, EarlyState(p, i), EXAMINED_EARLY[i], EarlyState(p, i + 1))
  {
  }

  lemma Early8<R>(p: Callbacks<R>, i: nat)
    requires 8 <= i < 10
    ensures Follows(p, EarlyState(p, i), EXAMINED_EARLY[i], EarlyState(p, i + 1))
  {
  }

  lemma Early10<R>(p: Callbacks<R>, i: nat)
    requires 10 <= i < 12
    ensures Follows(p, EarlyState(p, i), EXAMINED_EARLY[i], EarlyState(p, i + 1))
  {
  }

  lemma Early12<R>(p: Callbacks<R>, i: nat)
    requires 12 <= i < 14
    ensures Follows(p, EarlyState(p, i), EXAMINED_EARLY[i], EarlyState(p, i + 1))
  {
  }

  lemma EarlyFollows<R>(p: Callbacks<R>, i: nat)
    requires i < |EXAMINED_EARLY|
    ensures Follows(p, EarlyState(p, i), EXAMINED_EARLY[i], EarlyState(p, i + 1))
  {
    if i < 2 { Early0(p, i); }
    else if i < 4 { Early2(p, i); }
    else if i < 6 { Early4(p, i); }
    else if i < 8 { Early6(p, i); }
    else if i < 10 { Early8(p, i); }
    else if i < 12 { Early10(p, i); }
    else { Early12(p, i); }
  }

  lemma {:induction false} EarlyChain<R>(p: Callbacks<R>, f: nat -> State<R>, acts: seq<Action>, n: nat)
    requires (forall i: nat :: f(i) == EarlyState(p, i)) && acts == EXAMINED_EARLY && n <= |acts|
    ensures Chain(p, f, acts, n)
    decreases |acts| - n
  {
    if n < |acts| {
      EarlyFollows(p, n);
      EarlyChain(p, f, acts, n + 1);
    }
  }

  lemma ChainReached<R(!new)>(p: Callbacks<R>, f: nat -> State<R>, acts: seq<Action>, workers: nat, others: nat)
    requires f(0) == Init(workers, others) && Chain(p, f, acts, 0)
    ensures Reachable(p, f(|acts|))
  {
    ChainRun(p, f, acts, 0);
    assert acts[0..] == acts;
    assert Runs(p, Init<R>(workers, others), acts) && Exec(p, Init<R>(workers, others), acts) == f(|acts|);
  }

  lemma EarlyReached<R(!new)>(p: Callbacks<R>, f: nat -> State<R>, acts: seq<Action>)
    requires (forall i: nat :: f(i) == EarlyState(p, i)) && acts == EXAMINED_EARLY
    ensures Reachable(p, f(14))
  {
    EarlyChain(p, f, acts, 0);
    ChainReached(p, f, acts, 1, 1);
  }

  lemma EarlyEnd<R>(p: Callbacks<R>)
    ensures var s := EarlyState(p, 14);
            && Missed(s, 0) && s.tasks[0].posted && s.tasks[0].handle && 0 in s.current
            && |s.threads| == 2 && s.threads[1].issue == Leaving(0, true)
  {
  }

  /** A read can be posted successfully, handed to its caller, and never be called back: a reachable state in which its
      packet has been examined between the start of the I/O and the post. */
  lemma CompletionCanBeLost<R(!new)>(p: Callbacks<R>)
    ensures var s := EarlyState(p, 14);
            && Reachable(p, s)
            && Missed(s, 0) && s.tasks[0].posted && s.tasks[0].handle && 0 in s.current
            && |s.threads| == 2 && s.threads[1].issue == Leaving(0, true)
  {
    EarlyReached(p, (i: nat) => EarlyState(p, i), EXAMINED_EARLY);
    EarlyEnd(p);
  }

  /** An accept is posted, completed and called back before acceptAsync takes the caller's reference. */
  const LATE_INCREMENT := [
    External(1, Accept), Issue(1, AllocOverlapped(true)), Issue(1, StartIo(true)), Complete(0, ""),
    Issue(1, PostLock), Issue(1, PostInsert(true)), Issue(1, PostUnlock),
    Work(0, Dequeue), Work(0, TakeRaw), Work(0, Lock), Work(0, Check), Work(0, DropOverlapped), Work(0, Unlock),
    Work(0, TakeTask), Work(0, LockAccess), Work(0, MarkDone), Call(0, Fail), Call(0, Finish(7)),
    Work(0, UnlockAccess), Work(0, ReleaseTask), Work(0, ReleaseRaw)]

  function Late<R>(k: Task, pc: WorkerPc<R>, exc: Option<nat>): State<R> {
    State([k], {}, None, [], [Thread(pc, NoIssue, exc, []), Thread(NotWorker, Counting(0), None, [0])], 1, [], Serving,
          false)
  }

  function LateState<R>(p: Callbacks<R>, i: nat): State<R> {
    var k0 := NewTask(Accept, 0, 1);
    var k1 := k0.(rc := 1, overlapped := true, ovRef := true);
    var k2, k3 := k1.(stage := InKernel), k1.(stage := Queued);
    var k4 := k3.(rc := 2, posted := true);
    var k5 := k4.(stage := AtWorker(0));
    var k6 := k5.(taken := true);
    var k7 := k6.(rc := 1, ovRef := false);
    var k8 := k7.(rc := 2);
    var k9 := k8.(access := Some(0));
    var k10 := k9.(status := Done, starts := 1);
    var k11 := k10.(access := None);
    var k12 := k11.(rc := 1);
    var k13 := k12.(rc := 0, destroyed := 1, stage := Spent);
    match i
    case 0 => Init(1, 1)
    case 1 => Small(k0, false, None, [], Idle, Allocated(0), [], [])
    case 2 => Small(k1, false, None, [], Idle, Built(0), [], [])
    case 3 => Small(k2, false, None, [], Idle, Started(0), [0], [])
    case 4 => Small(k3, false, None, [Completion(0)], Idle, Started(0), [0], [])
    case 5 => Small(k3, false, Some(1), [Completion(0)], Idle, Posting(0), [0], [])
    case 6 => Small(k4, true, Some(1), [Completion(0)], Idle, PostedLocked(0), [0], [])
    case 7 => Small(k4, true, None, [Completion(0)], Idle, Counting(0), [0], [])
    case 8 => Small(k5, true, None, [], Dequeued(0), Counting(0), [0], [])
    case 9 => Small(k5.(rc := 3), true, None, [], WantLock(0), Counting(0), [0], [])
    case 10 => Small(k5.(rc := 3), true, Some(0), [], Locked(0), Counting(0), [0], [])
    case 11 => Small(k6, false, Some(0), [], Removed(0), Counting(0), [0], [])
    case 12 => Small(k7, false, Some(0), [], Dropped(0), Counting(0), [0], [])
    case 13 => Late(k7, Dispatch(0), None)
    case 14 => Late(k8, WantAccess(0), None)
    case 15 => Late(k9, Access(0), None)
    case 16 => Late(k10, Calling(0, CbStart), None)
    case 17 => Late(k10, Calling(0, CbEnd(false)), None)
    case 18 => Late(k10, Returned(0, false), Some(7))
    case 19 => Late(k11, DropTask(0, false), Some(7))
    case 20 => Late(k12, DropRaw(0, false), Some(7))
    case _ => Late(k13, Exited(false), Some(7))
  }

  lemma Late0<R>(p: Callbacks<R>, i: nat)
    requires 0 <= i < 2
    ensures Follows(p, LateState(p, i), LATE_INCREMENT[i], LateState(p, i + 1))
  {
  }

  lemma Late2<R>(p: Callbacks<R>, i: nat)
    requires 2 <= i < 4
    ensures Follows(p, LateState(p, i), LATE_INCREMENT[i], LateState(p, i + 1))
  {
    assert [] + [0] == [0];
  }

  lemma Late4<R>(p: Callbacks<R>, i: nat)
    requires 4 <= i < 6
    ensures Follows(p, LateState(p, i), LATE_INCREMENT[i], LateState(p, i + 1))
  {
  }

  lemma Late6<R>(p: Callbacks<R>, i: nat)
    requires 6 <= i < 8
    ensures Follows(p, LateState(p, i), LATE_INCREMENT[i], LateState(p, i + 1))
  {
  }

  lemma Late8<R>(p: Callbacks<R>, i: nat)
    requires 8 <= i < 10
    ensures Follows(p, LateState(p, i), LATE_INCREMENT[i], LateState(p, i + 1))
  {
  }

  lemma Late10<R>(p: Callbacks<R>, i: nat)
    requires 10 <= i < 12
    ensures Follows(p, LateState(p, i), LATE_INCREMENT[i], LateState(p, i + 1))
  {
  }

  lemma Late12<R>(p: Callbacks<R>, i: nat)
    requires 12 <= i < 14
    ensures Follows(p, LateState(p, i), LATE_INCREMENT[i], LateState(p, i + 1))
  {
  }

  lemma Late14<R>(p: Callbacks<R>, i: nat)
    requires 14 <= i < 16
    ensures Follows(p, LateState(p, i), LATE_INCREMENT[i], LateState(p, i + 1))
  {
  }

  lemma Late16<R>(p: Callbacks<R>, i: nat)
    requires i == 16
    ensures Follows(p, LateState(p, i), LATE_INCREMENT[i], LateState(p, i + 1))
  {
  }

  lemma Late17<R>(p: Callbacks<R>, i: nat)
    requires i == 17
    ensures Follows(p, LateState(p, i), LATE_INCREMENT[i], LateState(p, i + 1))
  {
  }

  lemma Late18<R>(p: Callbacks<R>, i: nat)
    requires 18 <= i < 20
    ensures Follows(p, LateState(p, i), LATE_INCREMENT[i], LateState(p, i + 1))
  {
  }

  lemma Late20<R>(p: Callbacks<R>, i: nat)
    requires 20 <= i < 21
    ensures Follows(p, LateState(p, i), LATE_INCREMENT[i], LateState(p, i + 1))
  {
  }

  lemma LateFollows<R>(p: Callbacks<R>, i: nat)
    requires i < |LATE_INCREMENT|
    ensures Follows(p, LateState(p, i), LATE_INCREMENT[i], LateState(p, i + 1))
  {
    if i < 2 { Late0(p, i); }
    else if i < 4 { Late2(p, i); }
    else if i < 6 { Late4(p, i); }
    else if i < 8 { Late6(p, i); }
    else if i < 10 { Late8(p, i); }
    else if i < 12 { Late10(p, i); }
    else if i < 14 { Late12(p, i); }
    else if i < 16 { Late14(p, i); }
    else if i < 17 { Late16(p, i); }
    else if i < 18 { Late17(p, i); }
    else if i < 20 { Late18(p, i); }
    else { Late20(p, i); }
  }

  lemma {:induction false} LateChain<R>(p: Callbacks<R>, f: nat -> State<R>, acts: seq<Action>, n: nat)
    requires (forall i: nat :: f(i) == LateState(p, i)) && acts == LATE_INCREMENT && n <= |acts|
    ensures Chain(p, f, acts, n)
    decreases |acts| - n
  {
    if n < |acts| {
      LateFollows(p, n);
      LateChain(p, f, acts, n + 1);
    }
  }

  /** The action is possible and touches task `t`, which has been destroyed. */
  predicate TouchesDestroyed<R>(s: State<R>, a: Action, t: nat) {
    Enabled(s, a) && t < |s.tasks| && s.tasks[t].destroyed > 0 && t in Touched(s, a)
  }

  lemma LateEnd<R>(p: Callbacks<R>)
    ensures TouchesDestroyed(LateState(p, 21), Issue(1, CountHandle), 0)
  {
  }

  lemma LateReached<R(!new)>(p: Callbacks<R>, f: nat -> State<R>, acts: seq<Action>)
    requires (forall i: nat :: f(i) == LateState(p, i)) && acts == LATE_INCREMENT
    ensures Reachable(p, f(21))
  {
    LateChain(p, f, acts, 0);
    ChainReached(p, f, acts, 1, 1);
  }

  /** The late increment of acceptAsync can touch a destroyed task: NoTouchAfterDestruction cannot be extended to
      uncounted issuers. */
  lemma LateIncrementCanTouchDestroyed<R(!new)>(p: Callbacks<R>)
    ensures Reachable(p, LateState(p, 21)) && TouchesDestroyed(LateState(p, 21), Issue(1, CountHandle), 0)
  {
    LateReached(p, (i: nat) => LateState(p, i), LATE_INCREMENT);
    LateEnd(p);
  }
}
