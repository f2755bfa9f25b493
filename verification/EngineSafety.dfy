/** What the invariant gives for every reachable state, that is, after every run of every interleaving. */
module EngineSafety {
  import opened Basics
  import opened Engine
  import opened EngineInvariant
  import opened EngineSteps

  /** `s` can be reached from the start of a service with some number of workers and other threads. */
  ghost predicate Reachable<R(!new)>(p: Callbacks<R>, s: State<R>) {
    exists workers: nat, others: nat, acts ::
      Runs(p, Init<R>(workers, others), acts) && Exec(p, Init<R>(workers, others), acts) == s
  }

  lemma ReachableInv<R(!new)>(p: Callbacks<R>, s: State<R>)
    requires Reachable(p, s)
    ensures Inv(p, s)
  {
    var workers: nat, others: nat, acts :|
      Runs(p, Init<R>(workers, others), acts) && Exec(p, Init<R>(workers, others), acts) == s;
    InitInv(p, workers, others);
    KeepRun(p, Init<R>(workers, others), acts);
  }

  // ---------------------------------------------------------------- reference conservation

  /** Counted pointers a worker's frame holds on task `t`. */
  function HeldBy<R>(t: nat): Thread<R> -> nat {
    (th: Thread<R>) => if WTask(th.pc) == Some(t) then HeldRefs(th.pc) else 0
  }

  /** Local pointers of readAsync, writeAsync or acceptAsync frames on task `t`. */
  function IssuedBy<R>(t: nat): Thread<R> -> nat {
    (th: Thread<R>) => B(ITask(th.issue) == Some(t))
  }

  lemma HeldSum<R>(p: Callbacks<R>, s: State<R>, t: nat)
    requires Inv(p, s) && t < |s.tasks|
    ensures Sum(s.threads, HeldBy(t)) == WorkerRefs(s, t)
  {
    assert TaskInv(s, t);
    forall i | 0 <= i < |s.threads| && s.tasks[t].stage != AtWorker(i) ensures HeldBy<R>(t)(s.threads[i]) == 0 {
      assert ThreadInv(s, i);
    }
    match s.tasks[t].stage
    case AtWorker(w) => SumSingle(s.threads, w, HeldBy(t));
    case _ => SumZero(s.threads, HeldBy(t));
  }

  lemma IssuedSum<R>(p: Callbacks<R>, s: State<R>, t: nat)
    requires Inv(p, s) && t < |s.tasks|
    ensures Sum(s.threads, IssuedBy(t)) == B(Issuing(s, t))
  {
    assert TaskInv(s, t);
    forall i | 0 <= i < |s.threads| && i != s.tasks[t].issuer ensures IssuedBy<R>(t)(s.threads[i]) == 0 {
      assert ThreadInv(s, i);
    }
    SumSingle(s.threads, s.tasks[t].issuer, IssuedBy(t));
  }

  /** The count of a task is the number of counted pointers that exist: the block's until the explicit drop, the
      set's, the issuer's local one (reads only), the caller's handle, and the workers' locals.  A read is destroyed
      exactly when that number is zero, and then once. */
  lemma ReferenceConservation<R(!new)>(p: Callbacks<R>, s: State<R>, t: nat)
    requires Reachable(p, s) && t < |s.tasks|
    ensures var k := s.tasks[t];
            k.rc == B(k.ovRef) + B(t in s.current) + (if Counted(k.kind) then Sum(s.threads, IssuedBy(t)) else 0)
                    + B(k.handle) + Sum(s.threads, HeldBy(t))
    ensures s.tasks[t].rc <= 6
    ensures Counted(s.tasks[t].kind) ==> s.tasks[t].destroyed == B(s.tasks[t].rc == 0)
  {
    ReachableInv(p, s);
    assert TaskInv(s, t);
    HeldSum(p, s, t);
    IssuedSum(p, s, t);
  }

  // ---------------------------------------------------------------- lifetime

  /** The tasks whose object or overlapped block an action reads or writes. */
  function Touched<R>(s: State<R>, a: Action): set<nat>
    requires Enabled(s, a)
  {
    match a
    case External(_, _) => {}
    case Issue(i, act) =>
      var issue := s.threads[i].issue;
      if act.PostLock? || act.PostUnlock? || (act.Leave? && issue.ok && !Counted(s.tasks[issue.t].kind)) then {}
      else {issue.t}
    case Work(w, act) =>
      if act.Dequeue? || act.DequeueFail? || act.Lock? || act.Unlock? then {} else {s.threads[w].pc.t}
    case Call(w, _) => {s.threads[w].pc.t}
    case DropHandle(t) => {t}
    case Complete(t, _) => {t}
    case Wake => {}
    case PostNull => {}
    case Join => {}
  }

  /** The only actions that may touch a destroyed task: the late increment of writeAsync and acceptAsync, and the
      drop of the handle it hands out. */
  predicate LateTouch<R>(s: State<R>, a: Action, t: nat) {
    t < |s.tasks| && !Counted(s.tasks[t].kind) && (a == DropHandle(t) || (a.Issue? && a.issue.CountHandle?))
  }

  lemma IssuerTouch<R>(p: Callbacks<R>, s: State<R>, i: nat, act: IssueAct)
    requires Inv(p, s) && !s.aborted && Enabled(s, Issue(i, act)) && Touched(s, Issue(i, act)) != {}
    requires s.tasks[s.threads[i].issue.t].destroyed > 0
    ensures LateTouch(s, Issue(i, act), s.threads[i].issue.t)
  {
    var t := s.threads[i].issue.t;
    assert ThreadInv(s, i) && TaskInv(s, t);
  }

  lemma WorkerTouch<R>(p: Callbacks<R>, s: State<R>, w: nat)
    requires Inv(p, s) && AtWorkerPc(s, w) && WTask(s.threads[w].pc).Some?
    ensures var k := s.tasks[s.threads[w].pc.t]; k.destroyed == 0 && k.overlapped
  {
    assert ThreadInv(s, w) && TaskInv(s, s.threads[w].pc.t);
  }

  /** No step of an issuer, a worker or the kernel touches a read task, or its overlapped block, after destruction.
      What is said of writes and accepts assumes, as the guards do, that their start and their post succeed. */
  lemma NoTouchAfterDestruction<R(!new)>(p: Callbacks<R>, s: State<R>, a: Action, t: nat)
    requires Reachable(p, s) && Enabled(s, a) && t in Touched(s, a)
    ensures t < |s.tasks|
    ensures s.tasks[t].destroyed > 0 ==> LateTouch(s, a, t)
    ensures Counted(s.tasks[t].kind) ==> s.tasks[t].destroyed == 0
    ensures (a.Work? || a.Call? || a.Complete?) ==> s.tasks[t].overlapped && s.tasks[t].destroyed == 0
  {
    ReachableInv(p, s);
    match a
    case Issue(i, act) =>
      if s.tasks[t].destroyed > 0 { IssuerTouch(p, s, i, act); }
    case Work(w, act) => WorkerTouch(p, s, w);
    case Call(w, act) => WorkerTouch(p, s, w);
    case DropHandle(_) => assert TaskInv(s, t);
    case Complete(_, _) => assert TaskInv(s, t);
  }

  /** The late increment of writeAsync and acceptAsync touches a destroyed task exactly when the worker that took the
      task has already let go of it. */
  lemma LateIncrementExact<R(!new)>(p: Callbacks<R>, s: State<R>, i: nat)
    requires Reachable(p, s) && CanCountHandle(s, i) && !Counted(s.tasks[s.threads[i].issue.t].kind)
    ensures var k := s.tasks[s.threads[i].issue.t]; k.destroyed > 0 <==> k.stage == Spent && k.taken
  {
    ReachableInv(p, s);
    assert ThreadInv(s, i) && TaskInv(s, s.threads[i].issue.t);
  }

  /** No thread is in the middle of issuing task `t`. */
  predicate NoIssuer<R>(s: State<R>, t: nat) {
    forall i | 0 <= i < |s.threads| :: ITask(s.threads[i].issue) != Some(t)
  }

  /** Exactly when a read is destroyed: no thread is issuing it, its caller has dropped the handle, and either its
      packet is spent and a worker took it, or its block was never linked.  Otherwise something holds it; a spent packet
      that no worker took leaves it to its own block. */
  lemma ReadDestroyedExactly<R(!new)>(p: Callbacks<R>, s: State<R>, t: nat)
    requires Reachable(p, s) && t < |s.tasks| && s.tasks[t].kind == Read
    ensures var k := s.tasks[t];
            k.destroyed == 1 <==>
            NoIssuer(s, t) && !k.handle && ((k.stage == Spent && k.taken) || (k.stage == Unissued && !k.overlapped))
    ensures s.tasks[t].destroyed <= 1
    ensures s.tasks[t].stage == Spent && !s.tasks[t].taken ==> s.tasks[t].ovRef && s.tasks[t].destroyed == 0
  {
    ReachableInv(p, s);
    assert TaskInv(s, t);
    IssuerIsTheIssuer(p, s, t);
  }

  lemma IssuerIsTheIssuer<R>(p: Callbacks<R>, s: State<R>, t: nat)
    requires Inv(p, s) && t < |s.tasks|
    ensures NoIssuer(s, t) <==> !Issuing(s, t)
  {
    assert TaskInv(s, t);
    forall i | 0 <= i < |s.threads| && ITask(s.threads[i].issue) == Some(t) ensures Issuing(s, t) {
      assert ThreadInv(s, i);
    }
  }

  /** A read whose start failed after its block was linked. */
  predicate Leaked<R>(s: State<R>, t: nat) {
    t < |s.tasks| && s.tasks[t].kind == Read && s.tasks[t].stage == Unissued && s.tasks[t].overlapped && NoIssuer(s, t)
  }

  /** It is held by its own block alone, and not destroyed. */
  lemma LeakedIsHeld<R>(p: Callbacks<R>, s: State<R>, t: nat)
    requires Inv(p, s) && Leaked(s, t)
    ensures var k := s.tasks[t]; k.ovRef && k.rc == 1 && k.destroyed == 0 && !k.handle && t !in s.current
  {
    assert TaskInv(s, t);
  }

  // ---------------------------------------------------------------- callback accounting

  /** A callback starts at most once; a successfully posted task is in the set or taken by a worker, never both; only a
      taken task is called back; and once its packet is spent, every taken task has been. */
  lemma CallbackAccounting<R(!new)>(p: Callbacks<R>, s: State<R>, t: nat)
    requires Reachable(p, s) && t < |s.tasks|
    ensures var k := s.tasks[t];
            && k.starts <= 1
            && (k.posted ==> ((t in s.current) != k.taken))
            && (!k.posted ==> t !in s.current && !k.taken)
            && (k.starts == 1 ==> k.taken)
            && (k.stage == Spent ==> (k.taken <==> k.starts == 1))
  {
    ReachableInv(p, s);
    assert TaskInv(s, t);
  }

  /** At the membership test, the packet is matched exactly when its task has been posted by then: the only packets
      dropped there are those examined before the post, or whose post failed. */
  lemma MatchedIffPosted<R(!new)>(p: Callbacks<R>, s: State<R>, w: nat)
    requires Reachable(p, s) && CanCheck(s, w)
    ensures s.threads[w].pc.t in s.current <==> s.tasks[s.threads[w].pc.t].posted
    ensures !s.tasks[s.threads[w].pc.t].taken
  {
    ReachableInv(p, s);
    assert ThreadInv(s, w) && TaskInv(s, s.threads[w].pc.t);
  }

  /** Two workers never have the packet of the same task. */
  lemma OneWorkerPerTask<R(!new)>(p: Callbacks<R>, s: State<R>, v: nat, w: nat)
    requires Reachable(p, s) && v < |s.threads| && w < |s.threads|
    requires WTask(s.threads[v].pc).Some? && WTask(s.threads[v].pc) == WTask(s.threads[w].pc)
    ensures v == w
  {
    ReachableInv(p, s);
    assert ThreadInv(s, v) && ThreadInv(s, w);
  }

  /** During a callback its task is done, counts exactly the bytes that the kernel delivered, and is locked by the
      worker that runs the callback. */
  lemma CallbackSees<R(!new)>(p: Callbacks<R>, s: State<R>, w: nat)
    requires Reachable(p, s) && InCallback(s, w)
    ensures var k := s.tasks[s.threads[w].pc.t];
            && k.status == Done && k.starts == 1 && k.access == Some(w) && k.stage == AtWorker(w)
            && (k.kind != Accept ==> k.szRead == |k.data|)
  {
    ReachableInv(p, s);
    assert ThreadInv(s, w) && TaskInv(s, s.threads[w].pc.t);
  }

  // ---------------------------------------------------------------- locks

  /** accessMutex is never contended, and no holder of currentTasksMutex is waiting for it. */
  lemma AccessNeverContended<R(!new)>(p: Callbacks<R>, s: State<R>, w: nat)
    requires Reachable(p, s) && AtWorkerPc(s, w) && s.threads[w].pc.WantAccess?
    ensures CanLockAccess(s, w) && s.mutex != Some(w)
  {
    ReachableInv(p, s);
    assert ThreadInv(s, w) && TaskInv(s, s.threads[w].pc.t);
  }

  /** The step thread `i` takes next, if it is in the middle of something. */
  function NextOf<R>(s: State<R>, i: nat): Action
    requires i < |s.threads|
  {
    match s.threads[i].issue
    case Allocated(_) => Issue(i, AllocOverlapped(true))
    case Built(_) => Issue(i, StartIo(true))
    case Started(_) => Issue(i, PostLock)
    case Posting(_) => Issue(i, PostInsert(true))
    case PostedLocked(_) => Issue(i, PostUnlock)
    case RefusedLocked(_) => Issue(i, PostUnlock)
    case Counting(_) => Issue(i, CountHandle)
    case Leaving(_, _) => Issue(i, Leave)
    case NoIssue =>
      match s.threads[i].pc
      case NotWorker => External(i, Accept)
      case Idle => Work(i, Dequeue)
      case Exited(_) => Work(i, Dequeue)
      case Dequeued(_) => Work(i, TakeRaw)
      case WantLock(_) => Work(i, Lock)
      case Locked(_) => Work(i, Check)
      case Removed(_) => Work(i, DropOverlapped)
      case Dropped(_) => Work(i, Unlock)
      case Unmatched(_) => Work(i, Unlock)
      case Dispatch(_) => Work(i, TakeTask)
      case WantAccess(_) => Work(i, LockAccess)
      case Access(_) => Work(i, MarkDone)
      case Calling(_, cb) => Call(i, if cb.CbStart? then Enter else if cb.CbFields? then Store
                                     else if cb.CbEnd? then Finish(0) else Start)
      case Returned(_, _) => Work(i, UnlockAccess)
      case DropTask(_, _) => Work(i, ReleaseTask)
      case DropRaw(_, _) => Work(i, ReleaseRaw)
  }

  predicate Busy<R>(th: Thread<R>) {
    ITask(th.issue).Some? || WTask(th.pc).Some?
  }

  predicate WantsMutex<R>(th: Thread<R>) {
    th.issue.Started? || (th.issue.NoIssue? && th.pc.WantLock?)
  }

  lemma BusyMoves<R>(p: Callbacks<R>, s: State<R>, i: nat)
    requires Inv(p, s) && !s.aborted && i < |s.threads| && Busy(s.threads[i])
    requires WantsMutex(s.threads[i]) ==> s.mutex.None?
    ensures Enabled(s, NextOf(s, i))
  {
    if ITask(s.threads[i].issue).Some? { IssuerMoves(p, s, i); } else { WorkerMoves(p, s, i); }
  }

  lemma IssuerMoves<R>(p: Callbacks<R>, s: State<R>, i: nat)
    requires Inv(p, s) && !s.aborted && i < |s.threads| && ITask(s.threads[i].issue).Some?
    requires WantsMutex(s.threads[i]) ==> s.mutex.None?
    ensures Enabled(s, NextOf(s, i))
  {
    assert ThreadInv(s, i);
  }

  lemma WorkerMoves<R>(p: Callbacks<R>, s: State<R>, i: nat)
    requires Inv(p, s) && !s.aborted && i < |s.threads| && ITask(s.threads[i].issue).None?
    requires WTask(s.threads[i].pc).Some? && (WantsMutex(s.threads[i]) ==> s.mutex.None?)
    ensures Enabled(s, NextOf(s, i))
  {
    assert ThreadInv(s, i) && TaskInv(s, WTask(s.threads[i].pc).value);
  }

  lemma BusyOrWaiting<R>(p: Callbacks<R>, s: State<R>, i: nat)
    requires Inv(p, s) && !s.aborted && i < |s.threads| && Busy(s.threads[i])
    ensures Enabled(s, NextOf(s, i)) || HolderMoves(s, i)
  {
    if WantsMutex(s.threads[i]) && s.mutex.Some? {
      var h := s.mutex.value;
      assert ThreadInv(s, h);
      BusyMoves(p, s, h);
    } else {
      BusyMoves(p, s, i);
    }
  }

  /** Thread `i` waits for currentTasksMutex, and the thread that holds it can take its next step. */
  predicate HolderMoves<R>(s: State<R>, i: nat)
    requires i < |s.threads|
  {
    && WantsMutex(s.threads[i]) && s.mutex.Some? && s.mutex.value < |s.threads|
    && Enabled(s, NextOf(s, s.mutex.value))
  }

  /** Deadlock freedom: a thread in the middle of something can take its next step, or it waits for currentTasksMutex
      and the thread that holds it can take its own. */
  lemma NoDeadlock<R(!new)>(p: Callbacks<R>, s: State<R>, i: nat)
    requires Reachable(p, s) && !s.aborted && i < |s.threads| && Busy(s.threads[i])
    ensures Enabled(s, NextOf(s, i)) || HolderMoves(s, i)
  {
    ReachableInv(p, s);
    BusyOrWaiting(p, s, i);
  }

  // ---------------------------------------------------------------- ownership of a connection

  /** No two threads are ever both in the part of a callback that may touch one connection's parser fields. */
  lemma ExclusiveOwnership<R(!new)>(p: Callbacks<R>, s: State<R>, v: nat, w: nat)
    requires Reachable(p, s) && v < |s.threads| && w < |s.threads|
    requires Owner(s, v).Some? && Owner(s, v) == Owner(s, w)
    ensures v == w
  {
    ReachableInv(p, s);
    assert ThreadInv(s, v) && ThreadInv(s, w);
  }


  /** A read of connection `c` on its way, or a response issued on it. */
  function TaskWeight(c: nat): Task -> nat {
    (k: Task) => B(k.kind != Accept && k.conn == c && (InFlightRead(k) || (k.kind == Write && k.stage != Unissued)))
  }

  /** Threads that own `c`, counted one by one. */
  function Owners<R>(s: State<R>, c: nat, n: nat): nat
    requires n <= |s.threads|
  {
    if n == 0 then 0 else Owners(s, c, n - 1) + B(Owner(s, n - 1) == Some(c))
  }

  lemma {:induction false} OwnersOf<R>(s: State<R>, c: nat, n: nat, w: Option<nat>)
    requires n <= |s.threads|
    requires forall i | 0 <= i < n && Owner(s, i) == Some(c) :: w == Some(i)
    ensures Owners(s, c, n) <= 1
    ensures w.None? ==> Owners(s, c, n) == 0
    ensures w.Some? && w.value >= n ==> Owners(s, c, n) == 0
  {
    if n > 0 {
      OwnersOf(s, c, n - 1, w);
    }
  }

  lemma OwnersAtMostOne<R>(p: Callbacks<R>, s: State<R>, c: nat)
    requires Inv(p, s) && c < |s.conns|
    ensures Owners(s, c, |s.threads|) <= B(s.conns[c].token.Held?)
  {
    var token := s.conns[c].token;
    forall i | 0 <= i < |s.threads| && Owner(s, i) == Some(c) ensures token == Held(i) {
      assert ThreadInv(s, i);
    }
    OwnersOf(s, c, |s.threads|, if token.Held? then Some(token.thread) else None);
  }

  /** The task the token of a connection stands for. */
  function TokenTask(token: Token): Option<nat> {
    match token
    case InFlight(t) => Some(t)
    case Responded(t) => Some(t)
    case _ => None
  }

  lemma TasksAtMostOne<R>(p: Callbacks<R>, s: State<R>, c: nat)
    requires Inv(p, s) && c < |s.conns|
    ensures Sum(s.tasks, TaskWeight(c)) <= B(!s.conns[c].token.Held?)
  {
    var token := TokenTask(s.conns[c].token);
    forall t | 0 <= t < |s.tasks| && token != Some(t) ensures TaskWeight(c)(s.tasks[t]) == 0 {
      assert TaskInv(s, t);
    }
    if token.Some? && token.value < |s.tasks| {
      SumSingle(s.tasks, token.value, TaskWeight(c));
    } else {
      SumZero(s.tasks, TaskWeight(c));
    }
  }

  /** One token per connection: its reads in flight, the threads that own it, and the responses issued on it never
      exceed one together. */
  lemma OneToken<R(!new)>(p: Callbacks<R>, s: State<R>, c: nat)
    requires Reachable(p, s) && c < |s.conns|
    ensures Sum(s.tasks, TaskWeight(c)) + Owners(s, c, |s.threads|) <= 1
  {
    ReachableInv(p, s);
    OwnersAtMostOne(p, s, c);
    TasksAtMostOne(p, s, c);
  }

  /** A callback starts one new read or one response if it is a read callback, the first read and then the next accept
      if it is an accept callback, nothing if it is a write callback.  It returns without an exception exactly if all of
      these have been posted, and owns no connection any more. */
  lemma CallbackStartsOneIo<R(!new)>(p: Callbacks<R>, s: State<R>, w: nat)
    requires Reachable(p, s) && CanFinish(s, w)
    ensures var ios, ok := s.threads[w].ios, s.threads[w].pc.cb.ok;
            && (forall k | 0 <= k < |ios| :: ios[k] < |s.tasks| && s.tasks[ios[k]].issuer == w)
            && match s.tasks[s.threads[w].pc.t].kind
               case Read =>
                 && |ios| <= 1 && (|ios| == 1 ==> s.tasks[ios[0]].kind != Accept)
                 && (ok <==> |ios| == 1 && s.tasks[ios[0]].posted)
               case Write => ios == [] && ok
               case Accept =>
                 && |ios| <= 2 && (|ios| >= 1 ==> s.tasks[ios[0]].kind == Read)
                 && (|ios| == 2 ==> s.tasks[ios[1]].kind == Accept)
                 && (ok <==> |ios| == 2 && s.tasks[ios[0]].posted && s.tasks[ios[1]].posted)
    ensures Owner(s, w).None?
  {
    ReachableInv(p, s);
    assert ThreadInv(s, w);
  }

  // ---------------------------------------------------------------- what a verdict leads to

  /** Every read after the first was asked for by the verdict on the chunk before it, and a response that has been
      issued by the verdict on the last chunk. */
  lemma VerdictsDecide<R(!new)>(p: Callbacks<R>, s: State<R>, c: nat, t: nat)
    requires Reachable(p, s) && c < |s.conns| && t < |s.tasks|
    ensures var conn := s.conns[c];
            && |conn.chunks| <= |conn.started| <= |conn.chunks| + 1
            && (forall k | 0 <= k < |conn.started| - 1 :: VerdictOn(p, conn.chunks, k) == ReadMore)
            && (s.tasks[t].kind == Write && s.tasks[t].conn == c && s.tasks[t].stage != Unissued ==>
                  |conn.started| == |conn.chunks| > 0 && VerdictOn(p, conn.chunks, |conn.chunks| - 1) == Respond)
  {
    ReachableInv(p, s);
    assert TaskInv(s, t) && ConnInv(p, s, c);
    var conn := s.conns[c];
    forall k | 0 <= k < |conn.started| - 1 ensures VerdictOn(p, conn.chunks, k) == ReadMore {
      assert conn.verdicts[k] == ReadMore;
    }
  }

  /** When a read callback has succeeded, the operation it started is on its own connection, has been posted, and is a
      read exactly if the verdict on its chunk was to read more, a write exactly if it was to respond. */
  lemma OperationFollowsVerdict<R(!new)>(p: Callbacks<R>, s: State<R>, w: nat)
    requires Reachable(p, s) && CanFinish(s, w) && s.threads[w].pc.cb.ok && s.tasks[s.threads[w].pc.t].kind == Read
    ensures |s.threads[w].ios| == 1 && s.threads[w].ios[0] < |s.tasks|
    ensures var t, x := s.threads[w].pc.t, s.threads[w].ios[0];
            var c := s.tasks[t].conn;
            && c < |s.conns| && s.tasks[x].conn == c && s.tasks[x].posted
            && |s.conns[c].chunks| <= |s.conns[c].started| && t in s.conns[c].started[..|s.conns[c].chunks|]
            && forall j | 0 <= j < |s.conns[c].chunks| && s.conns[c].started[j] == t ::
                 && (s.tasks[x].kind == Read <==> VerdictOn(p, s.conns[c].chunks, j) == ReadMore)
                 && (s.tasks[x].kind == Write <==> VerdictOn(p, s.conns[c].chunks, j) == Respond)
  {
    ReachableInv(p, s);
    assert ThreadInv(s, w);
    var t, x := s.threads[w].pc.t, s.threads[w].ios[0];
    JudgedOnce(p, s, t, s.tasks[x].kind);
  }

  lemma JudgedOnce<R>(p: Callbacks<R>, s: State<R>, t: nat, op: Kind)
    requires Inv(p, s) && t < |s.tasks| && Answered(s, t, op)
    ensures var c := s.tasks[t].conn;
            && c < |s.conns| && |s.conns[c].chunks| <= |s.conns[c].started|
            && t in s.conns[c].started[..|s.conns[c].chunks|]
            && forall j | 0 <= j < |s.conns[c].chunks| && s.conns[c].started[j] == t ::
                 VerdictOn(p, s.conns[c].chunks, j) == VerdictFor(op)
  {
    var c := s.tasks[t].conn;
    var i: nat :| Judged(s, c, i, t, VerdictFor(op));
    assert ConnInv(p, s, c);
    var conn := s.conns[c];
    assert conn.started[..|conn.chunks|][i] == t;
    forall j | 0 <= j < |conn.chunks| && conn.started[j] == t
      ensures VerdictOn(p, conn.chunks, j) == VerdictFor(op)
    {
      assert j == i && conn.verdicts[i] == VerdictOn(p, conn.chunks, i);
    }
  }

  // ---------------------------------------------------------------- what the parser sees

  /** Reading the fields at the start of a callback and writing them at its end is not disturbed by any other thread,
      and the chunk is exactly what the kernel delivered. */
  lemma NoInterference<R(!new)>(p: Callbacks<R>, s: State<R>, w: nat)
    requires Reachable(p, s) && CanStore(s, w)
    ensures var Calling(t, CbFields(local, chunk)) := s.threads[w].pc;
            local == s.conns[s.tasks[t].conn].reader && chunk == s.tasks[t].data
  {
    ReachableInv(p, s);
    assert ThreadInv(s, w);
  }

  /** However the workers interleave, the parser fields of a connection are those a sequential parser has after the
      data of the connection's reads, in the order the reads were issued. */
  lemma SequentialParsing<R(!new)>(p: Callbacks<R>, s: State<R>, c: nat)
    requires Reachable(p, s) && c < |s.conns|
    ensures var conn := s.conns[c];
            && conn.reader == Fold(p, conn.chunks)
            && |conn.chunks| <= |conn.started| <= |conn.chunks| + 1
            && forall k | 0 <= k < |conn.chunks| ::
                 StartedRead(s, c, conn.started[k]) && conn.chunks[k] == s.tasks[conn.started[k]].data
  {
    ReachableInv(p, s);
    assert ConnInv(p, s, c);
    var conn := s.conns[c];
    forall k | 0 <= k < |conn.chunks|
      ensures StartedRead(s, c, conn.started[k]) && conn.chunks[k] == s.tasks[conn.started[k]].data
    {
      assert ChunkOf(s, conn.started[k], conn.chunks[k]);
    }
  }
}
