/** The inductive invariant of the completion engine, and its preservation by every step of every thread. */
module EngineInvariant {
  import opened Basics
  import opened Engine

  // ---------------------------------------------------------------- who holds a counted pointer

  /** Counted pointers a worker holds on the task of its packet: the raw one, then also the typed one. */
  function HeldRefs<R>(pc: WorkerPc<R>): nat {
    match pc
    case NotWorker => 0
    case Idle => 0
    case Exited(_) => 0
    case Dequeued(_) => 0
    case WantLock(_) => 1
    case Locked(_) => 1
    case Removed(_) => 1
    case Dropped(_) => 1
    case Unmatched(_) => 1
    case Dispatch(_) => 1
    case WantAccess(_) => 2
    case Access(_) => 2
    case Calling(_, _) => 2
    case Returned(_, _) => 2
    case DropTask(_, _) => 2
    case DropRaw(_, _) => 1
  }

  predicate Issuing<R>(s: State<R>, t: nat) {
    t < |s.tasks| && s.tasks[t].issuer < |s.threads| && ITask(s.threads[s.tasks[t].issuer].issue) == Some(t)
  }

  function WorkerRefs<R>(s: State<R>, t: nat): nat
    requires t < |s.tasks|
  {
    match s.tasks[t].stage
    case AtWorker(w) => if w < |s.threads| then HeldRefs(s.threads[w].pc) else 0
    case _ => 0
  }

  // ---------------------------------------------------------------- tasks

  predicate InFlightRead(k: Task) {
    k.kind == Read && k.stage != Unissued && k.starts == 0
  }

  /** All counted references to a task: the overlapped block's, the set's, the issuer's local pointer, the caller's
      handle, and the pointers of the worker that has its packet. */
  function Refs(k: Task, current: bool, issuing: bool, held: nat): nat {
    B(k.ovRef) + B(current) + B(Counted(k.kind) && issuing) + B(k.handle) + held
  }

  /** A task by itself; `held` is the number of pointers its worker has. */
  predicate TaskCore(k: Task, current: bool, issuing: bool, held: nat) {
    && k.rc == Refs(k, current, issuing, held)
    && (Counted(k.kind) ==> k.destroyed == B(k.rc == 0))
    && (!Counted(k.kind) && k.destroyed > 0 ==>
          (k.stage == Spent && k.taken && !k.ovRef) || (k.stage == Unissued && !issuing))
    && (k.stage == Unissued ==> !k.posted)
    && (k.stage != Unissued ==> k.overlapped)
    && (k.ovRef ==> k.overlapped)
    && (k.overlapped && !k.ovRef ==> k.taken)
    && (k.stage.InKernel? || k.stage.Queued? ==> !k.taken)
    && (k.taken ==> k.posted)
    && (k.posted ==> (current <==> !k.taken))
    && (current ==> k.posted && k.ovRef)
    && k.starts <= B(k.taken)
    && (k.handle ==> k.handed) && (k.handed ==> k.posted)
    && (!Counted(k.kind) && !k.handed && k.overlapped ==> k.destroyed == B(k.rc == 0))
    && (k.stage == Spent && k.taken ==> !k.ovRef)
    && (k.access.Some? ==> k.stage == AtWorker(k.access.value))
    && (k.stage.AtWorker? ==> k.ovRef || held > 0)
    && (k.stage == Spent ==> (k.taken <==> k.starts == 1))
    && k.szRead == (if k.starts == 1 && k.kind != Accept then |k.data| else 0)
  }

  predicate TaskInv<R>(s: State<R>, t: nat)
    requires t < |s.tasks|
  {
    var k := s.tasks[t];
    && k.issuer < |s.threads|
    && TaskCore(k, t in s.current, Issuing(s, t), WorkerRefs(s, t))
    && TaskLinks(s, t)
    && TaskConnInv(s, t)
  }

  predicate TaskLinks<R>(s: State<R>, t: nat)
    requires t < |s.tasks|
  {
    var k := s.tasks[t];
    k.stage.AtWorker? ==>
      && k.stage.worker < s.workers && k.stage.worker < |s.threads|
      && WTask(s.threads[k.stage.worker].pc) == Some(t)
  }

  predicate TaskConnInv<R>(s: State<R>, t: nat)
    requires t < |s.tasks|
  {
    var k := s.tasks[t];
    k.kind != Accept ==>
      && k.conn < |s.conns|
      && var c := s.conns[k.conn];
      && (InFlightRead(k) ==> c.token == InFlight(t) && |c.started| == |c.chunks| + 1 && c.started[|c.chunks|] == t)
      && (k.kind == Write && k.stage != Unissued ==> c.token == Responded(t) && |c.started| == |c.chunks|)
  }

  predicate HoldsAccess<R>(pc: WorkerPc<R>, t: nat) {
    (pc.Access? || pc.Calling? || pc.Returned?) && pc.t == t
  }

  // ---------------------------------------------------------------- threads

  predicate HoldsMutex<R>(th: Thread<R>) {
    || th.pc.Locked? || th.pc.Removed? || th.pc.Dropped? || th.pc.Unmatched?
    || th.issue.Posting? || th.issue.PostedLocked? || th.issue.RefusedLocked?
  }

  /** What worker `w` at `pc` knows about the task of its packet. */
  predicate WorkerFacts<R>(pc: WorkerPc<R>, w: nat, t: nat, k: Task) {
    && k.stage == AtWorker(w)
    && (pc.Dequeued? || pc.WantLock? || pc.Locked? || pc.Unmatched? ==> k.ovRef && !k.taken)
    && (pc.Removed? ==> k.taken && k.ovRef)
    && (pc.Dropped? || pc.Dispatch? || pc.WantAccess? || pc.Access? || pc.Calling? || pc.Returned? || pc.DropTask? ==>
          k.taken && !k.ovRef)
    && (pc.Calling? || pc.Returned? || pc.DropTask? ==> k.starts == 1 && k.status == Done)
    && (pc.Calling? || pc.Returned? || pc.DropTask? || pc.DropRaw? || k.starts == 0)
    && (pc.DropRaw? ==> (k.taken <==> k.starts == 1))
    && (pc.DropRaw? && k.taken ==> !k.ovRef)
    && (HoldsAccess(pc, t) <==> k.access == Some(w))
  }

  /** What thread `i`, in the middle of issuing, knows about the task. */
  predicate IssueFacts(issue: IssuePc, i: nat, k: Task, current: bool) {
    && k.issuer == i
    && (!issue.Leaving? ==> !k.handed)
    && (issue.Allocated? ==> k.stage == Unissued && !k.overlapped)
    && (issue.Built? ==> k.stage == Unissued && k.ovRef)
    && (issue.Started? || issue.Posting? || issue.RefusedLocked? ==> k.stage != Unissued && !k.posted)
    && (issue.RefusedLocked? ==> Counted(k.kind))
    && (issue.PostedLocked? ==> current)
    && (issue.Counting? ==> k.posted)
    && (issue.Leaving? ==> issue.ok == k.posted && (!issue.ok && !Counted(k.kind) ==>
                                                      k.stage == Unissued && !k.overlapped))
  }

  /** The operations the running callback has started, while it is issuing: none or the first read before this one,
      then this one as soon as its I/O has been started. */
  predicate IosInv(ios: seq<nat>, base: nat, issue: IssuePc, stage: Stage) {
    match issue
    case NoIssue => true
    case Allocated(_) => |ios| == base
    case Built(_) => |ios| == base
    case Leaving(x, ok) => if stage != Unissued then |ios| == base + 1 && ios[base] == x else |ios| == base
    case _ => |ios| == base + 1 && ios[base] == issue.t
  }

  /** The verdict after which the code starts `op`. */
  function VerdictFor(op: Kind): Verdict {
    if op == Read then ReadMore else Respond
  }

  /** `op` is what the connection needs next: a first read, and then what the last verdict says. */
  predicate Due<R>(conn: Conn<R>, op: Kind) {
    if |conn.verdicts| == 0 then op == Read else conn.verdicts[|conn.verdicts| - 1] == VerdictFor(op)
  }

  /** The verdict on the data of task `t`, the `j`-th read of connection `c`, is `v`. */
  predicate Judged<R>(s: State<R>, c: nat, j: nat, t: nat, v: Verdict) {
    && c < |s.conns| && j < |s.conns[c].started| && j < |s.conns[c].verdicts|
    && s.conns[c].started[j] == t && s.conns[c].verdicts[j] == v
  }

  /** The data of read `t` has been judged, and `op` is the operation that follows. */
  ghost predicate Answered<R>(s: State<R>, t: nat, op: Kind)
    requires t < |s.tasks|
  {
    exists j: nat :: Judged(s, s.tasks[t].conn, j, t, VerdictFor(op))
  }

  /** Task `x` was issued by thread `w`, as operation `kind`. */
  predicate IssuedAs<R>(s: State<R>, w: nat, x: nat, kind: Kind) {
    x < |s.tasks| && s.tasks[x].issuer == w && s.tasks[x].kind == kind
  }

  /** Task `x` is the operation that the verdict on the data of `t` asks for, on the same connection. */
  ghost predicate Answers<R>(s: State<R>, t: nat, x: nat)
    requires t < |s.tasks| && x < |s.tasks|
  {
    s.tasks[x].kind != Accept && s.tasks[x].conn == s.tasks[t].conn && Answered(s, t, s.tasks[x].kind)
  }

  /** A callback of read `t` has started at most one operation, the one its verdict asks for, and has succeeded exactly
      if that one has been posted. */
  ghost predicate ReadEnds<R>(s: State<R>, w: nat, t: nat, ios: seq<nat>, ok: bool)
    requires t < |s.tasks|
  {
    && |ios| <= 1
    && (|ios| == 1 ==> ios[0] < |s.tasks| && s.tasks[ios[0]].issuer == w && Answers(s, t, ios[0]))
    && (ok <==> |ios| == 1 && s.tasks[ios[0]].posted)
  }

  /** A callback of an accept has started the first read of the new connection, then the next accept, and has succeeded
      exactly if both have been posted. */
  predicate AcceptEnds<R>(s: State<R>, w: nat, ios: seq<nat>, ok: bool) {
    && |ios| <= 2
    && (|ios| >= 1 ==> IssuedAs(s, w, ios[0], Read))
    && (|ios| == 2 ==> s.tasks[ios[0]].posted && IssuedAs(s, w, ios[1], Accept))
    && (ok <==> |ios| == 2 && s.tasks[ios[1]].posted)
  }

  /** A callback while it issues task `x`. */
  ghost predicate Waits<R>(s: State<R>, w: nat, t: nat, kind: Kind, last: bool, ios: seq<nat>, issue: IssuePc)
    requires t < |s.tasks| && ITask(issue).Some? && ITask(issue).value < |s.tasks|
  {
    var x := ITask(issue).value;
    && IosInv(ios, if kind == Accept && last then 1 else 0, issue, s.tasks[x].stage)
    && (kind == Read ==> Answers(s, t, x))
    && (kind == Accept ==> s.tasks[x].kind == if last then Accept else Read)
    && (kind == Accept && last ==> |ios| >= 1 && IssuedAs(s, w, ios[0], Read) && s.tasks[ios[0]].posted)
  }

  ghost predicate CallbackInv<R>(s: State<R>, w: nat)
    requires w < |s.threads| && s.threads[w].pc.Calling? && s.threads[w].pc.t < |s.tasks|
  {
    var Thread(Calling(t, cb), issue, _, ios) := s.threads[w];
    var k := s.tasks[t];
    && (issue.NoIssue? <==> !cb.CbWait?)
    && match cb
       case CbStart =>
         ios == [] && (k.kind == Read ==> PendingRead(s, k.conn, t))
       case CbFields(local, chunk) =>
         && ios == [] && k.kind == Read && PendingRead(s, k.conn, t)
         && local == s.conns[k.conn].reader && chunk == k.data
       case CbIssue(c, op) =>
         && ios == [] && op != Accept && c < |s.conns| && |s.conns[c].started| == |s.conns[c].chunks|
         && k.kind != Write && (k.kind == Accept ==> op == Read) && Due(s.conns[c], op)
         && (k.kind == Read ==> c == k.conn && Answered(s, t, op))
       case CbWait(last) =>
         && k.kind != Write && (k.kind == Read ==> last)
         && (ITask(issue).Some? && ITask(issue).value < |s.tasks| ==> Waits(s, w, t, k.kind, last, ios, issue))
       case CbNextAccept =>
         && k.kind == Accept && |ios| == 1
         && IssuedAs(s, w, ios[0], Read) && s.tasks[ios[0]].posted
       case CbEnd(ok) =>
         match k.kind
         case Read => ReadEnds(s, w, t, ios, ok)
         case Write => ok && ios == []
         case Accept => AcceptEnds(s, w, ios, ok)
  }

  /** Connection `c` has exactly one read whose chunk has not been consumed, and it is `t`. */
  predicate PendingRead<R>(s: State<R>, c: nat, t: nat) {
    && c < |s.conns|
    && |s.conns[c].started| == |s.conns[c].chunks| + 1
    && s.conns[c].started[|s.conns[c].chunks|] == t
  }

  predicate ExcInv<R>(th: Thread<R>) {
    match th.pc
    case NotWorker => th.exc.None?
    case Returned(_, ok) => th.exc.None? <==> ok
    case DropTask(_, ok) => th.exc.None? <==> ok
    case DropRaw(_, ok) => th.exc.None? <==> ok
    case Exited(byNull) => th.exc.None? <==> byNull
    case _ => th.exc.None?
  }

  ghost predicate ThreadInv<R>(s: State<R>, i: nat)
    requires i < |s.threads|
  {
    var th := s.threads[i];
    && (i < s.workers <==> !th.pc.NotWorker?)
    && (th.issue.NoIssue? || th.pc.NotWorker? || th.pc.Calling?)
    && (ITask(th.issue).Some? ==> ITask(th.issue) != WTask(th.pc))
    && (WTask(th.pc).Some? ==> 
          WTask(th.pc).value < |s.tasks| && WorkerFacts(th.pc, i, WTask(th.pc).value, s.tasks[WTask(th.pc).value]))
    && (ITask(th.issue).Some? ==> 
          var t := ITask(th.issue).value;
          t < |s.tasks| && IssueFacts(th.issue, i, s.tasks[t], t in s.current))
    && (th.pc.Calling? ==> CallbackInv(s, i))
    && OwnerInv(s, i)
    && ExcInv(th)
    && (HoldsMutex(th) <==> s.mutex == Some(i))
  }

  predicate OwnerInv<R>(s: State<R>, i: nat)
    requires i < |s.threads|
  {
    match Owner(s, i)
    case None => true
    case Some(c) =>
      && c < |s.conns| && s.conns[c].token == Held(i)
      && (!s.threads[i].issue.NoIssue? ==>
            |s.conns[c].started| == |s.conns[c].chunks| && Due(s.conns[c], s.tasks[s.threads[i].issue.t].kind))
  }

  // ---------------------------------------------------------------- connections and the port

  /** The parser state after consuming `chunks` one after the other from a fresh one. */
  function Fold<R>(p: Callbacks<R>, chunks: seq<string>): R {
    if |chunks| == 0 then p.initial else p.onRead(Fold(p, chunks[..|chunks| - 1]), chunks[|chunks| - 1]).next
  }

  /** What the code decides on the `k`-th chunk of `chunks`. */
  function VerdictOn<R>(p: Callbacks<R>, chunks: seq<string>, k: nat): Verdict
    requires k < |chunks|
  {
    p.onRead(Fold(p, chunks[..k]), chunks[k]).verdict
  }

  /** The record of a connection: its fields and verdicts are those of a sequential parser, every read after the first
      was asked for by a verdict, and so was the response. */
  ghost predicate History<R>(p: Callbacks<R>, conn: Conn<R>) {
    && conn.reader == Fold(p, conn.chunks)
    && |conn.chunks| <= |conn.started| <= |conn.chunks| + 1
    && |conn.verdicts| == |conn.chunks|
    && (forall k | 0 <= k < |conn.chunks| :: conn.verdicts[k] == VerdictOn(p, conn.chunks, k))
    && (forall k | 0 <= k < |conn.started| - 1 :: conn.verdicts[k] == ReadMore)
    && (forall j, k | 0 <= j < k < |conn.started| :: conn.started[j] != conn.started[k])
    && (conn.token.Responded? ==> |conn.verdicts| > 0 && conn.verdicts[|conn.verdicts| - 1] == Respond)
  }

  /** One more chunk has been judged. */
  lemma HistoryStore<R>(p: Callbacks<R>, conn: Conn<R>, chunk: string, conn': Conn<R>)
    requires History(p, conn) && |conn.started| == |conn.chunks| + 1 && !conn.token.Responded?
    requires var out := p.onRead(conn.reader, chunk);
             conn' == conn.(reader := out.next, chunks := conn.chunks + [chunk],
                            verdicts := conn.verdicts + [out.verdict])
    ensures History(p, conn')
  {
    var n := |conn.chunks|;
    assert conn'.chunks[..n] == conn.chunks;
    forall k | 0 <= k < n + 1 ensures conn'.verdicts[k] == VerdictOn(p, conn'.chunks, k) {
      if k < n { assert conn'.chunks[..k] == conn.chunks[..k]; }
    }
  }

  /** One more read has been started, because the last verdict asks for it. */
  lemma HistoryStart<R>(p: Callbacks<R>, conn: Conn<R>, t: nat)
    requires History(p, conn) && |conn.started| == |conn.chunks| && Due(conn, Read) && t !in conn.started
    ensures History(p, conn.(started := conn.started + [t], token := InFlight(t)))
  {
  }

  ghost predicate ConnInv<R>(p: Callbacks<R>, s: State<R>, c: nat)
    requires c < |s.conns|
  {
    var conn := s.conns[c];
    && History(p, conn)
    && (forall k | 0 <= k < |conn.started| :: StartedRead(s, c, conn.started[k]))
    && (forall k | 0 <= k < |conn.chunks| :: ChunkOf(s, conn.started[k], conn.chunks[k]))
    && (conn.token.Held? ==> conn.token.thread < |s.threads|)
  }

  predicate StartedRead<R>(s: State<R>, c: nat, t: nat) {
    t < |s.tasks| && s.tasks[t].kind == Read && s.tasks[t].conn == c && s.tasks[t].stage != Unissued
  }

  predicate ChunkOf<R>(s: State<R>, t: nat, chunk: string) {
    t < |s.tasks| && s.tasks[t].starts == 1 && s.tasks[t].data == chunk
  }

  predicate QueueInv<R>(s: State<R>) {
    && (forall k | 0 <= k < |s.queue| :: QueuedAt(s, k))
    && (forall j, k | 0 <= j < k < |s.queue| && s.queue[j].Completion? && s.queue[k].Completion? ::
          s.queue[j].t != s.queue[k].t)
    && (forall t | 0 <= t < |s.tasks| && s.tasks[t].stage == Queued :: Completion(t) in s.queue)
  }

  predicate QueuedAt<R>(s: State<R>, k: nat)
    requires k < |s.queue|
  {
    s.queue[k].Completion? ==> s.queue[k].t < |s.tasks| && s.tasks[s.queue[k].t].stage == Queued
  }

  predicate Shape<R>(s: State<R>) {
    && s.workers <= |s.threads|
    && (forall t | t in s.current :: t < |s.tasks|)
    && (s.mutex.Some? ==> s.mutex.value < |s.threads|)
  }

  ghost predicate Inv<R>(p: Callbacks<R>, s: State<R>) {
    && Shape(s)
    && (forall t: nat | t < |s.tasks| :: TaskInv(s, t))
    && (forall i: nat | i < |s.threads| :: ThreadInv(s, i))
    && (forall c: nat | c < |s.conns| :: ConnInv(p, s, c))
    && QueueInv(s)
  }

  lemma InitInv<R>(p: Callbacks<R>, workers: nat, others: nat)
    ensures Inv(p, Init<R>(workers, others))
  {
  }

  // ---------------------------------------------------------------- frames

  /** What the worker of a task relies on. */
  predicate WorkerView(k: Task, k': Task) {
    && k'.stage == k.stage && k'.ovRef == k.ovRef && k'.taken == k.taken && k'.starts == k.starts
    && k'.access == k.access && k'.status == k.status && k'.data == k.data
  }

  /** What the issuer of a task relies on. */
  predicate IssueView(k: Task, k': Task) {
    && k'.issuer == k.issuer && k'.handed == k.handed && k'.posted == k.posted && k'.overlapped == k.overlapped
    && (k'.stage == Unissued <==> k.stage == Unissued) && (k.stage == Unissued ==> k'.ovRef == k.ovRef)
  }

  /** What a connection relies on. */
  predicate ConnView(k: Task, k': Task) {
    && (k.stage != Unissued ==> k'.stage != Unissued)
    && (k.starts == 1 ==> k'.starts == 1 && k'.data == k.data)
  }

  /** A step of thread `i` on task `t0` (an existing one, or one it has just allocated). */
  ghost predicate Local<R>(s: State<R>, s': State<R>, i: nat, t0: nat) {
    && i < |s.threads| && |s'.threads| == |s.threads| && s'.workers == s.workers
    && t0 < |s'.tasks| && (|s'.tasks| == |s.tasks| || (t0 == |s.tasks| && |s'.tasks| == |s.tasks| + 1))
    && (forall t | 0 <= t < |s.tasks| && t != t0 ::
          s'.tasks[t] == s.tasks[t] && (t in s'.current <==> t in s.current))
    && (forall j | 0 <= j < |s.threads| && j != i ::
          s'.threads[j] == s.threads[j] && (s'.mutex == Some(j) <==> s.mutex == Some(j)))
    && Shape(s')
    && (t0 < |s.tasks| ==>
          var k, k' := s.tasks[t0], s'.tasks[t0];
          && k'.kind == k.kind && k'.conn == k.conn && ConnView(k, k')
          && (k.stage.AtWorker? && k.stage != AtWorker(i) ==> WorkerView(k, k'))
          && (k.issuer == i || IssueView(k, k'))
          && (t0 in s.current && t0 !in s'.current ==> s.mutex == Some(i)))
    && SameLinks(s.threads[i], s'.threads[i], t0)
    && |s.conns| <= |s'.conns|
    && (forall c | 0 <= c < |s.conns| && s'.conns[c] != s.conns[c] ::
          s.conns[c].token == Held(i) || s.conns[c].token == InFlight(t0))
  }

  /** The history of a connection is only extended. */
  predicate Grows<R>(conn: Conn<R>, conn': Conn<R>) {
    conn.chunks <= conn'.chunks && conn.started <= conn'.started && conn.verdicts <= conn'.verdicts
  }

  ghost predicate HistoriesGrow<R>(s: State<R>, s': State<R>) {
    |s.conns| <= |s'.conns| && forall c | 0 <= c < |s.conns| :: Grows(s.conns[c], s'.conns[c])
  }

  /** What has been judged stays judged. */
  lemma AnswersKept<R>(s: State<R>, s': State<R>, t: nat)
    requires t < |s.tasks| && t < |s'.tasks| && s'.tasks[t].conn == s.tasks[t].conn && HistoriesGrow(s, s')
    ensures forall op | Answered(s, t, op) :: Answered(s', t, op)
  {
    var c := s.tasks[t].conn;
    forall op | Answered(s, t, op) ensures Answered(s', t, op) {
      var j: nat :| Judged(s, c, j, t, VerdictFor(op));
      assert Grows(s.conns[c], s'.conns[c]);
      assert Judged(s', c, j, t, VerdictFor(op));
    }
  }

  /** The thread keeps its links to every task other than `t0`. */
  ghost predicate SameLinks<R>(th: Thread<R>, th': Thread<R>, t0: nat) {
    && (WTask(th.pc) != WTask(th'.pc) ==> WTask(th.pc) in {None, Some(t0)} && WTask(th'.pc) in {None, Some(t0)})
    && (WTask(th.pc) == WTask(th'.pc) && WTask(th.pc) != Some(t0) ==>
          HeldRefs(th.pc) == HeldRefs(th'.pc) && th.pc.Calling? == th'.pc.Calling?
          && (th.pc.Calling? || th.pc == th'.pc))
    && (ITask(th.issue) != ITask(th'.issue) ==>
          ITask(th.issue) in {None, Some(t0)} && ITask(th'.issue) in {None, Some(t0)})
  }

  lemma OtherTask<R>(s: State<R>, s': State<R>, i: nat, t0: nat, t: nat)
    requires Local(s, s', i, t0) && t < |s.tasks| && t != t0 && TaskInv(s, t)
    ensures TaskInv(s', t)
  {
    assert Issuing(s', t) <==> Issuing(s, t);
    assert s.tasks[t].stage.AtWorker? ==> WTask(s'.threads[s.tasks[t].stage.worker].pc) == Some(t);
    assert WorkerRefs(s', t) == WorkerRefs(s, t);
  }

  /** Thread `j` does not move, and what it relies on is kept. */
  ghost predicate Stable<R>(s: State<R>, s': State<R>, j: nat, t0: nat) {
    && j < |s.threads| && |s'.threads| == |s.threads| && s'.workers == s.workers
    && s'.threads[j] == s.threads[j] && (s'.mutex == Some(j) <==> s.mutex == Some(j))
    && |s.tasks| <= |s'.tasks|
    && (forall t | 0 <= t < |s.tasks| && t != t0 ::
          s'.tasks[t] == s.tasks[t] && (t in s'.current <==> t in s.current))
    && (t0 < |s.tasks| ==>
          var k, k' := s.tasks[t0], s'.tasks[t0];
          && k'.kind == k.kind && k'.conn == k.conn
          && (k.stage == AtWorker(j) ==> WorkerView(k, k'))
          && (k.issuer == j ==> IssueView(k, k'))
          && (t0 in s.current && t0 !in s'.current ==> s.mutex != Some(j)))
    && |s.conns| <= |s'.conns|
    && (forall c | 0 <= c < |s.conns| && s.conns[c].token == Held(j) :: s'.conns[c] == s.conns[c])
    && HistoriesGrow(s, s')
  }

  lemma OtherCallback<R>(s: State<R>, s': State<R>, j: nat, t0: nat)
    requires Stable(s, s', j, t0) && ThreadInv(s, j) && s.threads[j].pc.Calling?
    ensures s.threads[j].pc.t < |s'.tasks| && CallbackInv(s', j)
  {
    var t := s.threads[j].pc.t;
    assert s'.tasks[t].kind == s.tasks[t].kind && s'.tasks[t].conn == s.tasks[t].conn;
    assert s'.tasks[t].data == s.tasks[t].data;
    AnswersKept(s, s', t);
    assert Owner(s, j).Some? ==> s'.conns[Owner(s, j).value] == s.conns[Owner(s, j).value];
  }

  lemma OtherThread<R>(s: State<R>, s': State<R>, j: nat, t0: nat)
    requires Stable(s, s', j, t0) && ThreadInv(s, j)
    ensures ThreadInv(s', j)
  {
    if s.threads[j].pc.Calling? {
      OtherCallback(s, s', j, t0);
    }
    assert Owner(s', j) == Owner(s, j);
  }

  lemma OtherConn<R>(p: Callbacks<R>, s: State<R>, s': State<R>, i: nat, t0: nat, c: nat)
    requires Local(s, s', i, t0) && c < |s.conns| && s'.conns[c] == s.conns[c] && ConnInv(p, s, c)
    ensures ConnInv(p, s', c)
  {
    var conn := s.conns[c];
    forall k | 0 <= k < |conn.started| ensures StartedRead(s', c, conn.started[k]) {
      assert StartedRead(s, c, conn.started[k]);
    }
    forall k | 0 <= k < |conn.chunks| ensures ChunkOf(s', conn.started[k], conn.chunks[k]) {
      assert ChunkOf(s, conn.started[k], conn.chunks[k]);
    }
  }

  /** A local step keeps the invariant if it does so for the thread, the task and the connections it touches. */
  lemma LocalStep<R>(p: Callbacks<R>, s: State<R>, s': State<R>, i: nat, t0: nat)
    requires Inv(p, s) && Local(s, s', i, t0) && HistoriesGrow(s, s')
    requires TaskInv(s', t0) && ThreadInv(s', i) && QueueInv(s')
    requires forall c: nat | c < |s'.conns| && (c >= |s.conns| || s'.conns[c] != s.conns[c]) :: ConnInv(p, s', c)
    ensures Inv(p, s')
  {
    forall t: nat | t < |s'.tasks| ensures TaskInv(s', t) {
      if t != t0 { OtherTask(s, s', i, t0, t); }
    }
    forall j: nat | j < |s'.threads| ensures ThreadInv(s', j) {
      if j != i { OtherThread(s, s', j, t0); }
    }
    forall c: nat | c < |s'.conns| ensures ConnInv(p, s', c) {
      if c < |s.conns| && s'.conns[c] == s.conns[c] { OtherConn(p, s, s', i, t0, c); }
    }
  }

  /** The port is not concerned by a step that leaves it alone and queues nothing. */
  lemma QueueKept<R>(s: State<R>, s': State<R>, t0: nat)
    requires QueueInv(s) && s'.queue == s.queue && |s.tasks| <= |s'.tasks|
    requires forall t | 0 <= t < |s.tasks| && t != t0 :: s'.tasks[t] == s.tasks[t]
    requires t0 < |s.tasks| ==> (s'.tasks[t0].stage == Queued <==> s.tasks[t0].stage == Queued)
    requires forall t | |s.tasks| <= t < |s'.tasks| :: s'.tasks[t].stage == Unissued
    ensures QueueInv(s')
  {
    forall k | 0 <= k < |s'.queue| ensures QueuedAt(s', k) {
      assert QueuedAt(s, k);
    }
  }

  // ---------------------------------------------------------------- steps of a worker on the task of its packet

  /** Worker `w` goes on to `th'`, outside a callback, and changes its task to `k'`. */
  ghost predicate WorkerMove<R>(s: State<R>, s': State<R>, w: nat, t: nat, th': Thread<R>, k': Task) {
    && w < |s.threads| && t < |s.tasks| && WTask(s.threads[w].pc) == Some(t)
    && s' == s.(tasks := s.tasks[t := k'], threads := s.threads[w := th'], mutex := s'.mutex, current := s'.current)
    && s'.mutex == (if HoldsMutex(th') then Some(w) else if HoldsMutex(s.threads[w]) then None else s.mutex)
    && (HoldsMutex(th') && !HoldsMutex(s.threads[w]) ==> s.mutex.None?)
    && (s'.current == s.current || (s'.current == s.current - {t} && HoldsMutex(s.threads[w])))
    && s.threads[w].issue.NoIssue? && th'.issue.NoIssue? && !th'.pc.Calling? && !th'.pc.NotWorker?
    && WTask(th'.pc) == (if k'.stage == Spent then None else Some(t))
    && SameButCounts(s.tasks[t], k')
    && (k'.stage != Spent ==> WorkerFacts(th'.pc, w, t, k'))
    && TaskCore(k', t in s'.current, Issuing(s, t), HeldRefs(th'.pc))
    && ExcInv(th')
  }

  /** The fields a worker changes outside a callback. */
  predicate SameButCounts(k: Task, k': Task) {
    && k' == k.(rc := k'.rc, destroyed := k'.destroyed, ovRef := k'.ovRef, access := k'.access, stage := k'.stage,
                taken := k'.taken)
    && (k'.stage == k.stage || k'.stage == Spent)
  }

  lemma WorkerMoveLocal<R>(s: State<R>, s': State<R>, w: nat, t: nat, th': Thread<R>, k': Task)
    requires Shape(s) && WorkerMove(s, s', w, t, th', k') && ThreadInv(s, w)
    ensures Local(s, s', w, t)
  {
  }

  lemma WorkerMoveTask<R>(s: State<R>, s': State<R>, w: nat, t: nat, th': Thread<R>, k': Task)
    requires Shape(s) && WorkerMove(s, s', w, t, th', k') && ThreadInv(s, w) && TaskInv(s, t)
    ensures TaskInv(s', t)
  {
    assert Issuing(s', t) <==> Issuing(s, t);
    assert WorkerRefs(s', t) == HeldRefs(th'.pc);
  }

  lemma WorkerMoveThread<R>(s: State<R>, s': State<R>, w: nat, t: nat, th': Thread<R>, k': Task)
    requires Shape(s) && WorkerMove(s, s', w, t, th', k') && ThreadInv(s, w)
    ensures ThreadInv(s', w)
  {
    assert Owner(s', w) == None;
  }

  lemma KeepByWorker<R>(p: Callbacks<R>, s: State<R>, s': State<R>, w: nat, t: nat, th': Thread<R>, k': Task)
    requires Inv(p, s) && WorkerMove(s, s', w, t, th', k')
    ensures Inv(p, s')
  {
    assert ThreadInv(s, w) && TaskInv(s, t);
    WorkerMoveLocal(s, s', w, t, th', k');
    WorkerMoveTask(s, s', w, t, th', k');
    WorkerMoveThread(s, s', w, t, th', k');
    QueueKept(s, s', t);
    LocalStep(p, s, s', w, t);
  }

  ghost predicate WorkerPre<R>(s: State<R>, w: nat, t: nat) {
    && w < |s.threads| && t < |s.tasks| && WTask(s.threads[w].pc) == Some(t)
    && ThreadInv(s, w) && TaskCore(s.tasks[t], t in s.current, Issuing(s, t), HeldRefs(s.threads[w].pc))
  }

  lemma MoveTakeRaw<R>(s: State<R>, w: nat, t: nat)
    requires CanTakeRaw(s, w) && t == s.threads[w].pc.t && WorkerPre(s, w, t)
    ensures var s' := DoTakeRaw(s, w); WorkerMove(s, s', w, t, s'.threads[w], s'.tasks[t])
  {
  }

  lemma MoveLock<R>(s: State<R>, w: nat, t: nat)
    requires CanLock(s, w) && t == s.threads[w].pc.t && WorkerPre(s, w, t)
    ensures var s' := DoLock(s, w); WorkerMove(s, s', w, t, s'.threads[w], s'.tasks[t])
  {
  }

  lemma MoveCheck<R>(s: State<R>, w: nat, t: nat)
    requires CanCheck(s, w) && t == s.threads[w].pc.t && WorkerPre(s, w, t)
    ensures var s' := DoCheck(s, w); WorkerMove(s, s', w, t, s'.threads[w], s'.tasks[t])
  {
  }

  lemma MoveDropOverlapped<R>(s: State<R>, w: nat, t: nat)
    requires CanDropOverlapped(s, w) && t == s.threads[w].pc.t && WorkerPre(s, w, t)
    ensures var s' := DoDropOverlapped(s, w); WorkerMove(s, s', w, t, s'.threads[w], s'.tasks[t])
  {
  }

  lemma MoveUnlock<R>(s: State<R>, w: nat, t: nat)
    requires CanUnlock(s, w) && t == s.threads[w].pc.t && WorkerPre(s, w, t)
    ensures var s' := DoUnlock(s, w); WorkerMove(s, s', w, t, s'.threads[w], s'.tasks[t])
  {
  }

  lemma MoveTakeTask<R>(s: State<R>, w: nat, t: nat)
    requires CanTakeTask(s, w) && t == s.threads[w].pc.t && WorkerPre(s, w, t)
    ensures var s' := DoTakeTask(s, w); WorkerMove(s, s', w, t, s'.threads[w], s'.tasks[t])
  {
  }

  lemma MoveLockAccess<R>(s: State<R>, w: nat, t: nat)
    requires CanLockAccess(s, w) && t == s.threads[w].pc.t && WorkerPre(s, w, t)
    ensures var s' := DoLockAccess(s, w); WorkerMove(s, s', w, t, s'.threads[w], s'.tasks[t])
  {
  }

  lemma MoveUnlockAccess<R>(s: State<R>, w: nat, t: nat)
    requires CanUnlockAccess(s, w) && t == s.threads[w].pc.t && WorkerPre(s, w, t)
    ensures var s' := DoUnlockAccess(s, w); WorkerMove(s, s', w, t, s'.threads[w], s'.tasks[t])
  {
  }

  lemma MoveReleaseTask<R>(s: State<R>, w: nat, t: nat)
    requires CanReleaseTask(s, w) && t == s.threads[w].pc.t && WorkerPre(s, w, t)
    ensures var s' := DoReleaseTask(s, w); WorkerMove(s, s', w, t, s'.threads[w], s'.tasks[t])
  {
  }

  lemma ReleaseRawCore(k: Task, current: bool, issuing: bool)
    requires TaskCore(k, current, issuing, 1) && k.stage.AtWorker? && k.access.None? && (k.taken ==> !k.ovRef)
    requires k.taken <==> k.starts == 1
    ensures TaskCore(DecRef(k).(stage := Spent), current, issuing, 0)
  {
  }

  lemma MoveReleaseRaw<R>(s: State<R>, w: nat, t: nat)
    requires CanReleaseRaw(s, w) && t == s.threads[w].pc.t && WorkerPre(s, w, t)
    ensures var s' := DoReleaseRaw(s, w); WorkerMove(s, s', w, t, s'.threads[w], s'.tasks[t])
  {
    var th', k' := LeavesRaw(s.threads[w]), DecRef(s.tasks[t]).(stage := Spent);
    ReleaseRawShape(s, w, t, th', k');
    DecRefCounts(s.tasks[t]);
    ReleaseRawFacts(s, w, t);
    ReleaseRawThread(s, w, t);
    hide TaskCore, ThreadInv, DecRef, LeavesRaw, ExcInv, HoldsMutex, DoReleaseRaw;
  }

  /** The worker after it has dropped its last pointer. */
  function LeavesRaw<R>(th: Thread<R>): Thread<R>
    requires th.pc.DropRaw?
  {
    th.(pc := if th.pc.ok then Idle else Exited(false))
  }

  lemma ReleaseRawShape<R>(s: State<R>, w: nat, t: nat, th': Thread<R>, k': Task)
    requires CanReleaseRaw(s, w) && t == s.threads[w].pc.t
    requires th' == LeavesRaw(s.threads[w]) && k' == DecRef(s.tasks[t]).(stage := Spent)
    ensures DoReleaseRaw(s, w) == s.(tasks := s.tasks[t := k'], threads := s.threads[w := th'])
    ensures DoReleaseRaw(s, w).threads[w] == th' && DoReleaseRaw(s, w).tasks[t] == k'
  {
    hide DecRef;
  }

  lemma DecRefCounts(k: Task)
    ensures SameButCounts(k, DecRef(k).(stage := Spent))
  {
  }

  lemma ReleaseRawThread<R>(s: State<R>, w: nat, t: nat)
    requires CanReleaseRaw(s, w) && t == s.threads[w].pc.t && WorkerPre(s, w, t)
    ensures var th, th' := s.threads[w], LeavesRaw(s.threads[w]);
            && th.issue.NoIssue? && th'.issue.NoIssue? && !HoldsMutex(th) && !HoldsMutex(th')
            && !th'.pc.Calling? && !th'.pc.NotWorker? && WTask(th'.pc) == None && HeldRefs(th'.pc) == 0 && ExcInv(th')
  {
  }

  lemma ReleaseRawFacts<R>(s: State<R>, w: nat, t: nat)
    requires CanReleaseRaw(s, w) && t == s.threads[w].pc.t && WorkerPre(s, w, t)
    ensures TaskCore(DecRef(s.tasks[t]).(stage := Spent), t in s.current, Issuing(s, t), 0)
  {
    ReleaseRawCore(s.tasks[t], t in s.current, Issuing(s, t));
  }

  lemma MoveFinish<R>(s: State<R>, w: nat, err: nat, t: nat)
    requires CanFinish(s, w) && t == s.threads[w].pc.t && WorkerPre(s, w, t)
    ensures var s' := DoFinish(s, w, err); WorkerMove(s, s', w, t, s'.threads[w], s'.tasks[t])
  {
  }

  // ---------------------------------------------------------------- steps of an issuer that touch no connection

  /** Thread `i` goes on to `issue'` on the task it is issuing, and changes it to `k'`. */
  ghost predicate IssuerMove<R>(s: State<R>, s': State<R>, i: nat, t: nat, issue': IssuePc, k': Task) {
    && i < |s.threads| && t < |s.tasks|
    && var issue := s.threads[i].issue;
    && ITask(issue) == Some(t) && ITask(issue') == Some(t)
    && s' == s.(tasks := s.tasks[t := k'], threads := s.threads[i := s.threads[i].(issue := issue')],
                mutex := s'.mutex, current := s'.current)
    && s'.mutex == (if HoldsMutex(s'.threads[i]) then Some(i) else if HoldsMutex(s.threads[i]) then None else s.mutex)
    && (HoldsMutex(s'.threads[i]) && !HoldsMutex(s.threads[i]) ==> s.mutex.None?)
    && (s'.current == s.current || s'.current == s.current + {t})
    && k' == s.tasks[t].(rc := k'.rc, overlapped := k'.overlapped, ovRef := k'.ovRef, posted := k'.posted,
                         handle := k'.handle, handed := k'.handed)
    && (k'.stage != Unissued ==> k'.ovRef == s.tasks[t].ovRef)
    && TaskCore(k', t in s'.current, true, WorkerRefs(s, t))
    && IssueFacts(issue', i, k', t in s'.current)
    && ((issue.Allocated? && issue'.Built?) || (InPost(issue) && (InPost(issue') || issue'.Leaving?)))
  }

  /** From the start of the I/O to the return. */
  predicate InPost(issue: IssuePc) {
    issue.Started? || issue.Posting? || issue.PostedLocked? || issue.RefusedLocked? || issue.Counting?
  }

  lemma IssuerMoveLocal<R>(s: State<R>, s': State<R>, i: nat, t: nat, issue': IssuePc, k': Task)
    requires Shape(s) && IssuerMove(s, s', i, t, issue', k') && ThreadInv(s, i)
    ensures Local(s, s', i, t)
  {
  }

  lemma IssuerMoveTask<R>(s: State<R>, s': State<R>, i: nat, t: nat, issue': IssuePc, k': Task)
    requires Shape(s) && IssuerMove(s, s', i, t, issue', k') && ThreadInv(s, i) && TaskInv(s, t)
    ensures TaskInv(s', t)
  {
    assert Issuing(s', t) && Issuing(s, t);
    assert WorkerRefs(s', t) == WorkerRefs(s, t);
  }

  lemma IssuerMoveThread<R>(s: State<R>, s': State<R>, i: nat, t: nat, issue': IssuePc, k': Task)
    requires Shape(s) && IssuerMove(s, s', i, t, issue', k') && ThreadInv(s, i) && TaskInv(s, t)
    ensures ThreadInv(s', i)
  {
    assert Owner(s', i) == Owner(s, i);
    if s.threads[i].pc.Calling? {
      AnswersKept(s, s', s.threads[i].pc.t);
      assert CallbackInv(s', i);
    }
  }

  lemma KeepByIssuer<R>(p: Callbacks<R>, s: State<R>, s': State<R>, i: nat, t: nat, issue': IssuePc, k': Task)
    requires Inv(p, s) && IssuerMove(s, s', i, t, issue', k')
    ensures Inv(p, s')
  {
    assert ThreadInv(s, i) && TaskInv(s, t);
    IssuerMoveLocal(s, s', i, t, issue', k');
    IssuerMoveTask(s, s', i, t, issue', k');
    IssuerMoveThread(s, s', i, t, issue', k');
    QueueKept(s, s', t);
    LocalStep(p, s, s', i, t);
  }

  lemma MoveAllocOverlapped<R>(s: State<R>, i: nat, t: nat)
    requires CanAllocOverlapped(s, i) && t == s.threads[i].issue.t && Shape(s) && ThreadInv(s, i) && TaskInv(s, t)
    ensures var s' := DoAllocOverlapped(s, i, true); IssuerMove(s, s', i, t, s'.threads[i].issue, s'.tasks[t])
  {
  }

  lemma MovePostLock<R>(s: State<R>, i: nat, t: nat)
    requires CanPostLock(s, i) && t == s.threads[i].issue.t && Shape(s) && ThreadInv(s, i) && TaskInv(s, t)
    ensures var s' := DoPostLock(s, i); IssuerMove(s, s', i, t, s'.threads[i].issue, s'.tasks[t])
  {
  }

  lemma MovePostInsert<R>(s: State<R>, i: nat, ok: bool, t: nat)
    requires CanPostInsert(s, i, ok) && t == s.threads[i].issue.t && Shape(s) && ThreadInv(s, i) && TaskInv(s, t)
    ensures var s' := DoPostInsert(s, i, ok); IssuerMove(s, s', i, t, s'.threads[i].issue, s'.tasks[t])
  {
  }

  lemma MovePostUnlock<R>(s: State<R>, i: nat, t: nat)
    requires CanPostUnlock(s, i) && t == s.threads[i].issue.t && Shape(s) && ThreadInv(s, i) && TaskInv(s, t)
    ensures var s' := DoPostUnlock(s, i); IssuerMove(s, s', i, t, s'.threads[i].issue, s'.tasks[t])
  {
  }

  lemma MoveCountHandle<R>(s: State<R>, i: nat, t: nat)
    requires CanCountHandle(s, i) && t == s.threads[i].issue.t && Shape(s) && ThreadInv(s, i) && TaskInv(s, t)
    ensures var s' := DoCountHandle(s, i); IssuerMove(s, s', i, t, s'.threads[i].issue, s'.tasks[t])
  {
  }
}
