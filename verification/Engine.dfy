/** The Win32 completion engine as a system of atomic steps.

    Every step is one action of one thread (or of the kernel, or of the thread inside `run`).  A thread's program
    counter names the source line it is about to execute, so any interleaving of the real threads is a sequence of
    these steps.  Fields marked `history` record what happened; no guard below reads them. */
module Engine {
  import opened Basics

  // ---------------------------------------------------------------- tasks

  datatype Kind = Read | Write | Accept

  datatype Status = Ready | Done

  /** Where the one completion packet of an operation is. */
  datatype Stage = Unissued | InKernel | Queued | AtWorker(worker: nat) | Spent

  datatype Task = Task(
    kind: Kind,
    conn: nat,            // the connection a read or a write works on
    issuer: nat,          // the thread that runs readAsync / writeAsync / acceptAsync
    rc: nat,              // _refCount
    destroyed: nat,       // how often onRefZero has run
    overlapped: bool,     // the overlapped block has been allocated and linked
    ovRef: bool,          // the reference taken by allocOverlapped is still counted
    handle: bool,         // the reference handed to the caller is still counted
    access: Option<nat>,  // holder of accessMutex
    status: Status,
    data: string,         // what the kernel put in the buffer
    szRead: nat,
    stage: Stage,         // kept by the kernel and the port; read only by the kernel's own step
    handed: bool,         // history: the caller's reference has been taken
    posted: bool,         // history: postAsyncTask has inserted it
    taken: bool,          // history: a worker has found it in currentTasks and removed it
    starts: nat)          // history: how often its callback has been started

  function IncRef(t: Task): Task {
    t.(rc := t.rc + 1)
  }

  /** The count is a size_t: decrementing zero wraps, and onRefZero runs only on reaching zero. */
  function DecRef(t: Task): Task {
    if t.rc == 0 then t.(rc := SIZE_MAX)
    else if t.rc == 1 then t.(rc := 0, destroyed := t.destroyed + 1)
    else t.(rc := t.rc - 1)
  }

  /** readAsync keeps a counted local pointer; writeAsync and acceptAsync keep an uncounted unique_ptr. */
  predicate Counted(k: Kind) {
    k == Read
  }

  // ---------------------------------------------------------------- threads

  /** The frame of readAsync, writeAsync or acceptAsync on task `t`. */
  datatype IssuePc =
    | NoIssue
    | Allocated(t: nat)      // task constructed, about to allocate the overlapped block
    | Built(t: nat)          // block linked, about to start the I/O
    | Started(t: nat)        // I/O started, about to lock currentTasksMutex
    | Posting(t: nat)        // mutex held, about to insert
    | PostedLocked(t: nat)   // inserted, about to unlock
    | RefusedLocked(t: nat)  // insertion failed, about to unlock
    | Counting(t: nat)       // about to take the caller's reference
    | Leaving(t: nat, ok: bool) // about to drop the local pointer and return

  /** Progress inside onStatusChanged / onAccepted. */
  datatype Callback<+R> =
    | CbStart
    | CbFields(local: R, chunk: string) // the connection's parser fields have been read
    | CbIssue(conn: nat, op: Kind)      // the fields are written back; about to start `op` on the connection
    | CbWait(last: bool)                // the issue frame runs; `last` if nothing is issued after it
    | CbNextAccept                      // first read started, about to start the next accept
    | CbEnd(ok: bool)

  datatype WorkerPc<+R> =
    | NotWorker
    | Idle                    // about to call GetQueuedCompletionStatus
    | Dequeued(t: nat)        // about to copy the task pointer from the overlapped block
    | WantLock(t: nat)        // raw pointer counted, about to lock currentTasksMutex
    | Locked(t: nat)          // about to test membership
    | Removed(t: nat)         // removed from the set, about to drop the block's reference
    | Dropped(t: nat)         // dropped, about to unlock
    | Unmatched(t: nat)       // not in the set, about to unlock
    | Dispatch(t: nat)        // about to build the typed pointer from the overlapped block
    | WantAccess(t: nat)      // about to lock accessMutex
    | Access(t: nat)          // about to update the size and the status
    | Calling(t: nat, cb: Callback<R>)
    | Returned(t: nat, ok: bool) // callback returned, about to unlock accessMutex
    | DropTask(t: nat, ok: bool) // about to drop the typed pointer
    | DropRaw(t: nat, ok: bool)  // about to drop the raw pointer
    | Exited(byNull: bool)

  datatype Thread<+R> = Thread(
    pc: WorkerPc<R>,
    issue: IssuePc,
    exc: Option<nat>,   // exceptionStorage
    ios: seq<nat>)      // history: the tasks whose I/O the running callback has started

  function ITask(i: IssuePc): (r: Option<nat>) {
    match i
    case NoIssue => None
    case Allocated(t) => Some(t)
    case Built(t) => Some(t)
    case Started(t) => Some(t)
    case Posting(t) => Some(t)
    case PostedLocked(t) => Some(t)
    case RefusedLocked(t) => Some(t)
    case Counting(t) => Some(t)
    case Leaving(t, _) => Some(t)
  }

  /** The task whose packet a worker is processing. */
  function WTask<R>(pc: WorkerPc<R>): (r: Option<nat>) {
    match pc
    case NotWorker => None
    case Idle => None
    case Exited(_) => None
    case Dequeued(t) => Some(t)
    case WantLock(t) => Some(t)
    case Locked(t) => Some(t)
    case Removed(t) => Some(t)
    case Dropped(t) => Some(t)
    case Unmatched(t) => Some(t)
    case Dispatch(t) => Some(t)
    case WantAccess(t) => Some(t)
    case Access(t) => Some(t)
    case Calling(t, _) => Some(t)
    case Returned(t, _) => Some(t)
    case DropTask(t, _) => Some(t)
    case DropRaw(t, _) => Some(t)
  }

  // ---------------------------------------------------------------- connections

  /** history: who may touch a connection next. */
  datatype Token = Held(thread: nat) | InFlight(task: nat) | Responded(task: nat) | Lost

  datatype Conn<+R> = Conn(
    reader: R,             // the parser fields of the connection's read callback
    chunks: seq<string>,   // history: the chunks its callbacks have consumed
    verdicts: seq<Verdict>, // history: what they decided on each
    started: seq<nat>,     // history: the reads started on it, in order
    token: Token)          // history

  datatype Verdict = ReadMore | Respond | Abort

  datatype Outcome<+R> = Outcome(next: R, verdict: Verdict)

  /** The application plugged into the engine: a fresh parser and its reaction to one chunk. */
  datatype Callbacks<!R> = Callbacks(initial: R, onRead: (R, string) -> Outcome<R>)

  // ---------------------------------------------------------------- the system

  datatype Packet = NullKey | Completion(t: nat)

  /** The thread inside `run`. */
  datatype RunPc =
    | Serving            // asleep on the condition variable
    | PostingNull(left: nat)
    | Joining(next: nat)
    | Finished(result: Option<nat>)

  datatype State<+R> = State(
    tasks: seq<Task>,
    current: set<nat>,        // currentTasks
    mutex: Option<nat>,       // holder of currentTasksMutex
    queue: seq<Packet>,       // the completion port
    threads: seq<Thread<R>>,  // workers first, then other threads
    workers: nat,
    conns: seq<Conn<R>>,
    run: RunPc,
    aborted: bool)            // std::terminate was called

  /** One step of readAsync, writeAsync or acceptAsync; `ok` says whether the call at that step succeeds. */
  datatype IssueAct =
    | AllocOverlapped(ok: bool)
    | StartIo(ok: bool)
    | PostLock
    | PostInsert(ok: bool)
    | PostUnlock
    | CountHandle
    | Leave

  /** One step of the worker loop outside the callback. */
  datatype WorkAct =
    | Dequeue
    | DequeueFail(err: nat, consume: bool)
    | TakeRaw
    | Lock
    | Check
    | DropOverlapped
    | Unlock
    | TakeTask
    | LockAccess
    | MarkDone
    | UnlockAccess
    | ReleaseTask
    | ReleaseRaw

  /** One step inside a callback; `Finish` returns from it, with the exception `err` if it failed. */
  datatype CallAct = Enter | Store | Fail | Start | Finish(err: nat)

  datatype Action =
    | External(i: nat, kind: Kind) // a thread that is not a worker calls readAsync or acceptAsync
    | Issue(i: nat, issue: IssueAct)
    | Work(w: nat, work: WorkAct)
    | Call(w: nat, call: CallAct)
    | DropHandle(t: nat)           // the caller drops its handle
    | Complete(t: nat, data: string) // the kernel completes an operation
    | Wake
    | PostNull
    | Join

  function Init<R>(workers: nat, others: nat): State<R> {
    State([], {}, None, [],
          seq(workers, _ => Thread(Idle, NoIssue, None, [])) + seq(others, _ => Thread(NotWorker, NoIssue, None, [])),
          workers, [], Serving, false)
  }

  // ---------------------------------------------------------------- updates

  function SetPc<R>(s: State<R>, w: nat, pc: WorkerPc<R>): State<R>
    requires w < |s.threads|
  {
    s.(threads := s.threads[w := s.threads[w].(pc := pc)])
  }

  function SetIssue<R>(s: State<R>, i: nat, issue: IssuePc): State<R>
    requires i < |s.threads|
  {
    s.(threads := s.threads[i := s.threads[i].(issue := issue)])
  }

  function SetTask<R>(s: State<R>, t: nat, task: Task): State<R>
    requires t < |s.tasks|
  {
    s.(tasks := s.tasks[t := task])
  }

  function SetToken<R>(s: State<R>, c: nat, token: Token): State<R> {
    if c < |s.conns| then s.(conns := s.conns[c := s.conns[c].(token := token)]) else s
  }

  // ---------------------------------------------------------------- connection ownership

  /** The connection whose parser fields thread `i` may still touch: from the start of a read callback (or from
      accepting the connection) until the next I/O on it has been started or the callback gives up. */
  function Owner<R>(s: State<R>, i: nat): (r: Option<nat>)
    requires i < |s.threads|
  {
    var th := s.threads[i];
    match th.issue
    case Allocated(t) => IssuedConn(s, t)
    case Built(t) => IssuedConn(s, t)
    case NoIssue => CallbackConn(s, th.pc)
    case _ => None
  }

  function IssuedConn<R>(s: State<R>, t: nat): Option<nat> {
    if t < |s.tasks| && s.tasks[t].kind != Accept then Some(s.tasks[t].conn) else None
  }

  function CallbackConn<R>(s: State<R>, pc: WorkerPc<R>): Option<nat> {
    match pc
    case Calling(t, CbStart) => if t < |s.tasks| && s.tasks[t].kind == Read then Some(s.tasks[t].conn) else None
    case Calling(t, CbFields(_, _)) => if t < |s.tasks| then Some(s.tasks[t].conn) else None
    case Calling(_, CbIssue(c, _)) => Some(c)
    case _ => None
  }

  /** The owner's token is lost when its thread gives up. */
  function GiveUp<R>(s: State<R>, i: nat): State<R>
    requires i < |s.threads|
  {
    match Owner(s, i)
    case Some(c) => SetToken(s, c, Lost)
    case None => s
  }

  // ---------------------------------------------------------------- guards

  predicate AtWorkerPc<R>(s: State<R>, w: nat) {
    && w < |s.threads|
    && (WTask(s.threads[w].pc).Some? ==> WTask(s.threads[w].pc).value < |s.tasks|)
  }

  predicate AtIssuePc<R>(s: State<R>, i: nat) {
    && i < |s.threads|
    && (ITask(s.threads[i].issue).Some? ==> ITask(s.threads[i].issue).value < |s.tasks|)
  }

  predicate InCallback<R>(s: State<R>, w: nat) {
    AtWorkerPc(s, w) && s.threads[w].pc.Calling?
  }

  predicate CanExternal<R>(s: State<R>, i: nat, kind: Kind) {
    i < |s.threads| && s.threads[i].pc.NotWorker? && s.threads[i].issue.NoIssue? && kind != Write
  }

  predicate CanStart<R>(s: State<R>, w: nat) {
    InCallback(s, w) && s.threads[w].issue.NoIssue? && (s.threads[w].pc.cb.CbIssue? || s.threads[w].pc.cb.CbNextAccept?)
  }

  predicate CanAllocOverlapped<R>(s: State<R>, i: nat) {
    AtIssuePc(s, i) && s.threads[i].issue.Allocated?
  }

  predicate CanStartIo<R>(s: State<R>, i: nat, ok: bool) {
    AtIssuePc(s, i) && s.threads[i].issue.Built? && (ok || Counted(s.tasks[s.threads[i].issue.t].kind))
  }

  predicate CanPostLock<R>(s: State<R>, i: nat) {
    AtIssuePc(s, i) && s.threads[i].issue.Started? && s.mutex.None?
  }

  predicate CanPostInsert<R>(s: State<R>, i: nat, ok: bool) {
    AtIssuePc(s, i) && s.threads[i].issue.Posting? && (ok || Counted(s.tasks[s.threads[i].issue.t].kind))
  }

  predicate CanPostUnlock<R>(s: State<R>, i: nat) {
    AtIssuePc(s, i) && (s.threads[i].issue.PostedLocked? || s.threads[i].issue.RefusedLocked?)
  }

  predicate CanCountHandle<R>(s: State<R>, i: nat) {
    AtIssuePc(s, i) && s.threads[i].issue.Counting?
  }

  predicate CanLeave<R>(s: State<R>, i: nat) {
    AtIssuePc(s, i) && s.threads[i].issue.Leaving?
  }

  predicate CanDropHandle<R>(s: State<R>, t: nat) {
    t < |s.tasks| && s.tasks[t].handle
  }

  predicate CanComplete<R>(s: State<R>, t: nat) {
    t < |s.tasks| && s.tasks[t].stage == InKernel
  }

  predicate CanDequeue<R>(s: State<R>, w: nat) {
    && w < |s.threads| && s.threads[w].pc.Idle? && |s.queue| > 0
    && (s.queue[0].Completion? ==> s.queue[0].t < |s.tasks|)
  }

  predicate CanDequeueFail<R>(s: State<R>, w: nat, consume: bool) {
    && w < |s.threads| && s.threads[w].pc.Idle?
    && (consume ==> |s.queue| > 0 && s.queue[0].Completion? && s.queue[0].t < |s.tasks|)
  }

  predicate CanTakeRaw<R>(s: State<R>, w: nat) {
    AtWorkerPc(s, w) && s.threads[w].pc.Dequeued?
  }

  predicate CanLock<R>(s: State<R>, w: nat) {
    AtWorkerPc(s, w) && s.threads[w].pc.WantLock? && s.mutex.None?
  }

  predicate CanCheck<R>(s: State<R>, w: nat) {
    AtWorkerPc(s, w) && s.threads[w].pc.Locked?
  }

  predicate CanDropOverlapped<R>(s: State<R>, w: nat) {
    AtWorkerPc(s, w) && s.threads[w].pc.Removed?
  }

  predicate CanUnlock<R>(s: State<R>, w: nat) {
    AtWorkerPc(s, w) && (s.threads[w].pc.Dropped? || s.threads[w].pc.Unmatched?)
  }

  predicate CanTakeTask<R>(s: State<R>, w: nat) {
    AtWorkerPc(s, w) && s.threads[w].pc.Dispatch?
  }

  predicate CanLockAccess<R>(s: State<R>, w: nat) {
    AtWorkerPc(s, w) && s.threads[w].pc.WantAccess? && s.tasks[s.threads[w].pc.t].access.None?
  }

  predicate CanMarkDone<R>(s: State<R>, w: nat) {
    AtWorkerPc(s, w) && s.threads[w].pc.Access?
  }

  predicate CanEnter<R>(s: State<R>, w: nat) {
    && InCallback(s, w) && s.threads[w].pc.cb.CbStart?
    && (s.tasks[s.threads[w].pc.t].kind == Read ==> s.tasks[s.threads[w].pc.t].conn < |s.conns|)
  }

  predicate CanStore<R>(s: State<R>, w: nat) {
    InCallback(s, w) && s.threads[w].pc.cb.CbFields? && s.tasks[s.threads[w].pc.t].conn < |s.conns|
  }

  /** The callback of a write always succeeds. */
  predicate CanFail<R>(s: State<R>, w: nat) {
    && InCallback(s, w) && !s.threads[w].pc.cb.CbWait? && !s.threads[w].pc.cb.CbEnd?
    && s.tasks[s.threads[w].pc.t].kind != Write
  }

  predicate CanFinish<R>(s: State<R>, w: nat) {
    InCallback(s, w) && s.threads[w].pc.cb.CbEnd?
  }

  predicate CanUnlockAccess<R>(s: State<R>, w: nat) {
    AtWorkerPc(s, w) && s.threads[w].pc.Returned?
  }

  predicate CanReleaseTask<R>(s: State<R>, w: nat) {
    AtWorkerPc(s, w) && s.threads[w].pc.DropTask?
  }

  predicate CanReleaseRaw<R>(s: State<R>, w: nat) {
    AtWorkerPc(s, w) && s.threads[w].pc.DropRaw?
  }

  predicate CanWake<R>(s: State<R>) {
    s.run.Serving?
  }

  predicate CanPostNull<R>(s: State<R>) {
    s.run.PostingNull?
  }

  predicate CanJoin<R>(s: State<R>) {
    && s.run.Joining? && s.workers <= |s.threads|
    && (s.run.next < s.workers ==> s.threads[s.run.next].pc.Exited?)
  }

  predicate IssueEnabled<R>(s: State<R>, i: nat, act: IssueAct) {
    match act
    case AllocOverlapped(_) => CanAllocOverlapped(s, i)
    case StartIo(ok) => CanStartIo(s, i, ok)
    case PostLock => CanPostLock(s, i)
    case PostInsert(ok) => CanPostInsert(s, i, ok)
    case PostUnlock => CanPostUnlock(s, i)
    case CountHandle => CanCountHandle(s, i)
    case Leave => CanLeave(s, i)
  }

  predicate WorkEnabled<R>(s: State<R>, w: nat, act: WorkAct) {
    match act
    case Dequeue => CanDequeue(s, w)
    case DequeueFail(_, consume) => CanDequeueFail(s, w, consume)
    case TakeRaw => CanTakeRaw(s, w)
    case Lock => CanLock(s, w)
    case Check => CanCheck(s, w)
    case DropOverlapped => CanDropOverlapped(s, w)
    case Unlock => CanUnlock(s, w)
    case TakeTask => CanTakeTask(s, w)
    case LockAccess => CanLockAccess(s, w)
    case MarkDone => CanMarkDone(s, w)
    case UnlockAccess => CanUnlockAccess(s, w)
    case ReleaseTask => CanReleaseTask(s, w)
    case ReleaseRaw => CanReleaseRaw(s, w)
  }

  predicate CallEnabled<R>(s: State<R>, w: nat, act: CallAct) {
    match act
    case Enter => CanEnter(s, w)
    case Store => CanStore(s, w)
    case Fail => CanFail(s, w)
    case Start => CanStart(s, w)
    case Finish(_) => CanFinish(s, w)
  }

  predicate Enabled<R>(s: State<R>, a: Action) {
    !s.aborted &&
    match a
    case External(i, kind) => CanExternal(s, i, kind)
    case Issue(i, act) => IssueEnabled(s, i, act)
    case Work(w, act) => WorkEnabled(s, w, act)
    case Call(w, act) => CallEnabled(s, w, act)
    case DropHandle(t) => CanDropHandle(s, t)
    case Complete(t, _) => CanComplete(s, t)
    case Wake => CanWake(s)
    case PostNull => CanPostNull(s)
    case Join => CanJoin(s)
  }

  // ---------------------------------------------------------------- issuing: readAsync, writeAsync, acceptAsync

  function NewTask(kind: Kind, conn: nat, issuer: nat): Task {
    Task(kind, conn, issuer, if Counted(kind) then 1 else 0, 0, false, false, false, None, Ready, "", 0,
         Unissued, false, false, false, 0)
  }

  /** The read is on a connection just created by the issuer. */
  function DoExternal<R>(p: Callbacks<R>, s: State<R>, i: nat, kind: Kind): State<R>
    requires CanExternal(s, i, kind)
  {
    var s1 := if kind == Read then s.(conns := s.conns + [Conn(p.initial, [], [], [], Held(i))]) else s;
    SetIssue(s1.(tasks := s.tasks + [NewTask(kind, |s.conns|, i)]), i, Allocated(|s.tasks|))
  }

  function DoStart<R>(s: State<R>, w: nat): State<R>
    requires CanStart(s, w)
  {
    var pc := s.threads[w].pc;
    var task := if pc.cb.CbIssue? then NewTask(pc.cb.op, pc.cb.conn, w) else NewTask(Accept, |s.conns|, w);
    var last := s.tasks[pc.t].kind != Accept || pc.cb.CbNextAccept?;
    var th := s.threads[w].(pc := Calling(pc.t, CbWait(last)), issue := Allocated(|s.tasks|));
    s.(tasks := s.tasks + [task], threads := s.threads[w := th])
  }

  function DoAllocOverlapped<R>(s: State<R>, i: nat, ok: bool): State<R>
    requires CanAllocOverlapped(s, i)
  {
    var t := s.threads[i].issue.t;
    if ok then
      SetIssue(SetTask(s, t, IncRef(s.tasks[t]).(overlapped := true, ovRef := true)), i, Built(t))
    else
      SetIssue(GiveUp(s, i), i, Leaving(t, false))
  }

  function DoStartIo<R>(s: State<R>, i: nat, ok: bool): State<R>
    requires CanStartIo(s, i, ok)
  {
    var t := s.threads[i].issue.t;
    var task := s.tasks[t];
    if ok then
      var s1 := if task.kind == Accept || task.conn >= |s.conns| then s
                else if task.kind == Write then SetToken(s, task.conn, Responded(t))
                else var c := s.conns[task.conn];
                     s.(conns := s.conns[task.conn := c.(started := c.started + [t], token := InFlight(t))]);
      var th := s.threads[i].(issue := Started(t), ios := s.threads[i].ios + [t]);
      SetTask(s1, t, task.(stage := InKernel)).(threads := s.threads[i := th])
    else
      SetIssue(GiveUp(s, i), i, Leaving(t, false))
  }

  function DoPostLock<R>(s: State<R>, i: nat): State<R>
    requires CanPostLock(s, i)
  {
    SetIssue(s, i, Posting(s.threads[i].issue.t)).(mutex := Some(i))
  }

  /** The set keeps its own counted pointer; a failed insertion leaves the set as it was. */
  function DoPostInsert<R>(s: State<R>, i: nat, ok: bool): State<R>
    requires CanPostInsert(s, i, ok)
  {
    var t := s.threads[i].issue.t;
    if ok then
      SetIssue(SetTask(s, t, IncRef(s.tasks[t]).(posted := true)), i, PostedLocked(t)).(current := s.current + {t})
    else
      SetIssue(s, i, RefusedLocked(t))
  }

  function DoPostUnlock<R>(s: State<R>, i: nat): State<R>
    requires CanPostUnlock(s, i)
  {
    var t := s.threads[i].issue.t;
    SetIssue(s, i, if s.threads[i].issue.PostedLocked? then Counting(t) else Leaving(t, false)).(mutex := None)
  }

  function DoCountHandle<R>(s: State<R>, i: nat): State<R>
    requires CanCountHandle(s, i)
  {
    var t := s.threads[i].issue.t;
    SetIssue(SetTask(s, t, IncRef(s.tasks[t]).(handle := true, handed := true)), i, Leaving(t, true))
  }

  /** Leaving readAsync drops the counted pointer.  The unique_ptr of the other two has been released on success and
      destroys the task on failure. */
  function DoLeave<R>(s: State<R>, i: nat): State<R>
    requires CanLeave(s, i)
  {
    var Leaving(t, ok) := s.threads[i].issue;
    var task := s.tasks[t];
    var task' := if Counted(task.kind) then DecRef(task)
                 else if ok then task
                 else task.(destroyed := task.destroyed + 1);
    var th := s.threads[i];
    var pc := if th.pc.Calling? && th.pc.cb.CbWait?
              then Calling(th.pc.t, if !ok then CbEnd(false) else if th.pc.cb.last then CbEnd(true) else CbNextAccept)
              else th.pc;
    SetTask(s, t, task').(threads := s.threads[i := th.(pc := pc, issue := NoIssue)])
  }

  function DoDropHandle<R>(s: State<R>, t: nat): State<R>
    requires CanDropHandle(s, t)
  {
    SetTask(s, t, DecRef(s.tasks[t]).(handle := false))
  }

  function DoComplete<R>(s: State<R>, t: nat, data: string): State<R>
    requires CanComplete(s, t)
  {
    SetTask(s, t, s.tasks[t].(stage := Queued, data := data)).(queue := s.queue + [Completion(t)])
  }

  // ---------------------------------------------------------------- the worker thread

  function DoDequeue<R>(s: State<R>, w: nat): State<R>
    requires CanDequeue(s, w)
  {
    var s1 := s.(queue := s.queue[1..]);
    match s.queue[0]
    case NullKey => SetPc(s1, w, Exited(true))
    case Completion(t) => SetPc(SetTask(s1, t, s.tasks[t].(stage := AtWorker(w))), w, Dequeued(t))
  }

  /** The dequeue call fails, alone or together with the packet of a failed operation. */
  function DoDequeueFail<R>(s: State<R>, w: nat, err: nat, consume: bool): State<R>
    requires CanDequeueFail(s, w, consume)
  {
    var s1 := if consume
              then SetTask(s, s.queue[0].t, s.tasks[s.queue[0].t].(stage := Spent)).(queue := s.queue[1..])
              else s;
    s1.(threads := s.threads[w := s.threads[w].(pc := Exited(false), exc := Some(err))])
  }

  function DoTakeRaw<R>(s: State<R>, w: nat): State<R>
    requires CanTakeRaw(s, w)
  {
    var t := s.threads[w].pc.t;
    SetPc(SetTask(s, t, IncRef(s.tasks[t])), w, WantLock(t))
  }

  function DoLock<R>(s: State<R>, w: nat): State<R>
    requires CanLock(s, w)
  {
    SetPc(s, w, Locked(s.threads[w].pc.t)).(mutex := Some(w))
  }

  function DoCheck<R>(s: State<R>, w: nat): State<R>
    requires CanCheck(s, w)
  {
    var t := s.threads[w].pc.t;
    if t in s.current then
      SetPc(SetTask(s, t, DecRef(s.tasks[t]).(taken := true)), w, Removed(t)).(current := s.current - {t})
    else
      SetPc(s, w, Unmatched(t))
  }

  function DoDropOverlapped<R>(s: State<R>, w: nat): State<R>
    requires CanDropOverlapped(s, w)
  {
    var t := s.threads[w].pc.t;
    SetPc(SetTask(s, t, DecRef(s.tasks[t]).(ovRef := false)), w, Dropped(t))
  }

  function DoUnlock<R>(s: State<R>, w: nat): State<R>
    requires CanUnlock(s, w)
  {
    var t := s.threads[w].pc.t;
    SetPc(s, w, if s.threads[w].pc.Dropped? then Dispatch(t) else DropRaw(t, true)).(mutex := None)
  }

  function DoTakeTask<R>(s: State<R>, w: nat): State<R>
    requires CanTakeTask(s, w)
  {
    var t := s.threads[w].pc.t;
    SetPc(SetTask(s, t, IncRef(s.tasks[t])), w, WantAccess(t))
  }

  function DoLockAccess<R>(s: State<R>, w: nat): State<R>
    requires CanLockAccess(s, w)
  {
    var t := s.threads[w].pc.t;
    SetPc(SetTask(s, t, s.tasks[t].(access := Some(w))), w, Access(t))
  }

  /** An accept carries no byte count; the other two add the transferred size. */
  function DoMarkDone<R>(s: State<R>, w: nat): State<R>
    requires CanMarkDone(s, w)
  {
    var t := s.threads[w].pc.t;
    var task := s.tasks[t];
    var sz := if task.kind == Accept then task.szRead else task.szRead + |task.data|;
    var th := s.threads[w].(pc := Calling(t, CbStart), ios := []);
    var s1 := if task.kind == Read then SetToken(s, task.conn, Held(w)) else s;
    SetTask(s1, t, task.(szRead := sz, status := Done, starts := task.starts + 1)).(threads := s.threads[w := th])
  }

  /** Start of a callback: a read callback reads its connection's fields, an accept callback creates the connection,
      a write callback has nothing to do. */
  function DoEnter<R>(p: Callbacks<R>, s: State<R>, w: nat): State<R>
    requires CanEnter(s, w)
  {
    var t := s.threads[w].pc.t;
    var task := s.tasks[t];
    match task.kind
    case Read =>
      var chunk := if task.szRead <= |task.data| then task.data[..task.szRead] else task.data;
      SetPc(s, w, Calling(t, CbFields(s.conns[task.conn].reader, chunk)))
    case Write => SetPc(s, w, Calling(t, CbEnd(true)))
    case Accept =>
      SetPc(s, w, Calling(t, CbIssue(|s.conns|, Read))).(conns := s.conns + [Conn(p.initial, [], [], [], Held(w))])
  }

  /** The callback writes the fields computed from the values it read, then goes on as the parser decided. */
  function DoStore<R>(p: Callbacks<R>, s: State<R>, w: nat): State<R>
    requires CanStore(s, w)
  {
    var Calling(t, CbFields(local, chunk)) := s.threads[w].pc;
    var c := s.tasks[t].conn;
    var out := p.onRead(local, chunk);
    var conn := s.conns[c];
    var s1 := s.(conns := s.conns[c := conn.(reader := out.next, chunks := conn.chunks + [chunk],
                                             verdicts := conn.verdicts + [out.verdict])]);
    match out.verdict
    case Abort => s.(aborted := true)
    case ReadMore => SetPc(s1, w, Calling(t, CbIssue(c, Read)))
    case Respond => SetPc(s1, w, Calling(t, CbIssue(c, Write)))
  }

  function DoFail<R>(s: State<R>, w: nat): State<R>
    requires CanFail(s, w)
  {
    SetPc(GiveUp(s, w), w, Calling(s.threads[w].pc.t, CbEnd(false)))
  }

  function DoFinish<R>(s: State<R>, w: nat, err: nat): State<R>
    requires CanFinish(s, w)
  {
    var Calling(t, CbEnd(ok)) := s.threads[w].pc;
    s.(threads := s.threads[w := s.threads[w].(pc := Returned(t, ok), exc := if ok then None else Some(err))])
  }

  function DoUnlockAccess<R>(s: State<R>, w: nat): State<R>
    requires CanUnlockAccess(s, w)
  {
    var Returned(t, ok) := s.threads[w].pc;
    SetPc(SetTask(s, t, s.tasks[t].(access := None)), w, DropTask(t, ok))
  }

  function DoReleaseTask<R>(s: State<R>, w: nat): State<R>
    requires CanReleaseTask(s, w)
  {
    var DropTask(t, ok) := s.threads[w].pc;
    SetPc(SetTask(s, t, DecRef(s.tasks[t])), w, DropRaw(t, ok))
  }

  function DoReleaseRaw<R>(s: State<R>, w: nat): State<R>
    requires CanReleaseRaw(s, w)
  {
    var DropRaw(t, ok) := s.threads[w].pc;
    SetPc(SetTask(s, t, DecRef(s.tasks[t]).(stage := Spent)), w, if ok then Idle else Exited(false))
  }

  // ---------------------------------------------------------------- run

  /** The exception of the lowest-indexed of the first `n` threads that stored one. */
  function FirstException<R>(threads: seq<Thread<R>>, n: nat): Option<nat>
    requires n <= |threads|
  {
    if n == 0 then None
    else match FirstException(threads, n - 1)
         case Some(e) => Some(e)
         case None => threads[n - 1].exc
  }

  function DoWake<R>(s: State<R>): State<R>
    requires CanWake(s)
  {
    s.(run := PostingNull(s.workers))
  }

  function DoPostNull<R>(s: State<R>): State<R>
    requires CanPostNull(s)
  {
    if s.run.left == 0 then s.(run := Joining(0))
    else s.(run := PostingNull(s.run.left - 1), queue := s.queue + [NullKey])
  }

  function DoJoin<R>(s: State<R>): State<R>
    requires CanJoin(s)
  {
    if s.run.next < s.workers then s.(run := Joining(s.run.next + 1))
    else s.(run := Finished(FirstException(s.threads, s.workers)))
  }

  // ---------------------------------------------------------------- steps and runs

  function IssueStep<R>(s: State<R>, i: nat, act: IssueAct): State<R>
    requires IssueEnabled(s, i, act)
  {
    match act
    case AllocOverlapped(ok) => DoAllocOverlapped(s, i, ok)
    case StartIo(ok) => DoStartIo(s, i, ok)
    case PostLock => DoPostLock(s, i)
    case PostInsert(ok) => DoPostInsert(s, i, ok)
    case PostUnlock => DoPostUnlock(s, i)
    case CountHandle => DoCountHandle(s, i)
    case Leave => DoLeave(s, i)
  }

  function WorkStep<R>(s: State<R>, w: nat, act: WorkAct): State<R>
    requires WorkEnabled(s, w, act)
  {
    match act
    case Dequeue => DoDequeue(s, w)
    case DequeueFail(err, consume) => DoDequeueFail(s, w, err, consume)
    case TakeRaw => DoTakeRaw(s, w)
    case Lock => DoLock(s, w)
    case Check => DoCheck(s, w)
    case DropOverlapped => DoDropOverlapped(s, w)
    case Unlock => DoUnlock(s, w)
    case TakeTask => DoTakeTask(s, w)
    case LockAccess => DoLockAccess(s, w)
    case MarkDone => DoMarkDone(s, w)
    case UnlockAccess => DoUnlockAccess(s, w)
    case ReleaseTask => DoReleaseTask(s, w)
    case ReleaseRaw => DoReleaseRaw(s, w)
  }

  function CallStep<R>(p: Callbacks<R>, s: State<R>, w: nat, act: CallAct): State<R>
    requires CallEnabled(s, w, act)
  {
    match act
    case Enter => DoEnter(p, s, w)
    case Store => DoStore(p, s, w)
    case Fail => DoFail(s, w)
    case Start => DoStart(s, w)
    case Finish(err) => DoFinish(s, w, err)
  }

  function Step<R>(p: Callbacks<R>, s: State<R>, a: Action): State<R>
    requires Enabled(s, a)
  {
    match a
    case External(i, kind) => DoExternal(p, s, i, kind)
    case Issue(i, act) => IssueStep(s, i, act)
    case Work(w, act) => WorkStep(s, w, act)
    case Call(w, act) => CallStep(p, s, w, act)
    case DropHandle(t) => DoDropHandle(s, t)
    case Complete(t, data) => DoComplete(s, t, data)
    case Wake => DoWake(s)
    case PostNull => DoPostNull(s)
    case Join => DoJoin(s)
  }

  /** `acts` is a schedule the system can follow from `s`: each action is enabled when its turn comes. */
  predicate Runs<R>(p: Callbacks<R>, s: State<R>, acts: seq<Action>)
    decreases |acts|
  {
    |acts| == 0 || (Enabled(s, acts[0]) && Runs(p, Step(p, s, acts[0]), acts[1..]))
  }

  function Exec<R>(p: Callbacks<R>, s: State<R>, acts: seq<Action>): State<R>
    requires Runs(p, s, acts)
    decreases |acts|
  {
    if |acts| == 0 then s else Exec(p, Step(p, s, acts[0]), acts[1..])
  }
}
