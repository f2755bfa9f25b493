/** The remaining steps of the engine, those that touch connections, callbacks or the port, and the preservation
    theorem: every enabled step keeps the invariant. */
module EngineSteps {
  import opened Basics
  import opened Engine
  import opened EngineInvariant

  ghost predicate Pre<R>(s: State<R>, i: nat, t: nat) {
    Shape(s) && i < |s.threads| && t < |s.tasks| && ThreadInv(s, i) && TaskInv(s, t)
  }

  // ---------------------------------------------------------------- connections whose history is untouched

  /** Only the token of a connection changed, and no task its history speaks of. */
  lemma TokenOnly<R>(p: Callbacks<R>, s: State<R>, s': State<R>, i: nat, t0: nat, c: nat)
    requires Local(s, s', i, t0) && c < |s.conns| && ConnInv(p, s, c)
    requires s'.conns[c] == s.conns[c].(token := s'.conns[c].token)
    requires s'.conns[c].token.Held? ==> s'.conns[c].token.thread < |s.threads|
    requires s'.conns[c].token.Responded? ==> s.conns[c].verdicts != [] && Due(s.conns[c], Write)
    ensures ConnInv(p, s', c)
  {
    var conn := s.conns[c];
    forall k | 0 <= k < |conn.started| ensures StartedRead(s', c, conn.started[k]) {
      assert StartedRead(s, c, conn.started[k]);
    }
    forall k | 0 <= k < |conn.chunks| ensures ChunkOf(s', conn.started[k], conn.chunks[k]) {
      assert ChunkOf(s, conn.started[k], conn.chunks[k]);
    }
  }

  /** A step that changes at most tokens. */
  lemma TokenStep<R>(p: Callbacks<R>, s: State<R>, s': State<R>, i: nat, t0: nat)
    requires Inv(p, s) && Local(s, s', i, t0) && TaskInv(s', t0) && ThreadInv(s', i)
    requires s'.queue == s.queue && |s'.tasks| == |s.tasks| && |s'.conns| == |s.conns|
    requires s'.tasks[t0].stage == Queued <==> s.tasks[t0].stage == Queued
    requires forall c | 0 <= c < |s.conns| && s'.conns[c] != s.conns[c] ::
               s'.conns[c] == s.conns[c].(token := s'.conns[c].token)
               && (s'.conns[c].token.Held? ==> s'.conns[c].token.thread < |s.threads|)
               && (s'.conns[c].token.Responded? ==> s.conns[c].verdicts != [] && Due(s.conns[c], Write))
    ensures Inv(p, s')
  {
    QueueKept(s, s', t0);
    forall c: nat | c < |s'.conns| && s'.conns[c] != s.conns[c] ensures ConnInv(p, s', c) {
      TokenOnly(p, s, s', i, t0, c);
    }
    LocalStep(p, s, s', i, t0);
  }

  // ---------------------------------------------------------------- giving up while issuing

  /** The allocation of the block, or the start of the I/O, fails: the token is lost and the frame is left. */
  ghost predicate QuitMove<R>(s: State<R>, s': State<R>, i: nat, t: nat) {
    && i < |s.threads| && t < |s.tasks|
    && (s.threads[i].issue == Allocated(t) || (s.threads[i].issue == Built(t) && Counted(s.tasks[t].kind)))
    && s' == SetIssue(GiveUp(s, i), i, Leaving(t, false))
  }

  lemma QuitLocal<R>(s: State<R>, s': State<R>, i: nat, t: nat)
    requires Pre(s, i, t) && QuitMove(s, s', i, t)
    ensures Local(s, s', i, t)
  {
  }

  lemma QuitTask<R>(s: State<R>, s': State<R>, i: nat, t: nat)
    requires Pre(s, i, t) && QuitMove(s, s', i, t)
    ensures TaskInv(s', t)
  {
    assert Issuing(s', t) && Issuing(s, t);
  }

  lemma QuitCallback<R>(s: State<R>, s': State<R>, i: nat, t: nat)
    requires Pre(s, i, t) && QuitMove(s, s', i, t) && s.threads[i].pc.Calling?
    ensures CallbackInv(s', i)
  {
    QuitGrows(s, s', i, t);
    AnswersKept(s, s', s.threads[i].pc.t);
    hide QuitMove, GiveUp, HistoriesGrow, TaskInv, Answered, OwnerInv;
  }

  lemma QuitGrows<R>(s: State<R>, s': State<R>, i: nat, t: nat)
    requires QuitMove(s, s', i, t)
    ensures HistoriesGrow(s, s') && s'.tasks == s.tasks && |s'.threads| == |s.threads|
    ensures s'.threads[i] == s.threads[i].(issue := Leaving(t, false)) && |s'.conns| == |s.conns|
  {
  }

  lemma QuitAllocated<R>(s: State<R>, s': State<R>, i: nat, t: nat)
    requires Pre(s, i, t) && QuitMove(s, s', i, t) && s.threads[i].issue.Allocated?
    ensures ThreadInv(s', i)
  {
    hide CallbackInv;
    if s.threads[i].pc.Calling? { QuitCallback(s, s', i, t); }
    assert Owner(s', i) == None;
  }

  lemma QuitBuilt<R>(s: State<R>, s': State<R>, i: nat, t: nat)
    requires Pre(s, i, t) && QuitMove(s, s', i, t) && s.threads[i].issue.Built?
    ensures ThreadInv(s', i)
  {
    hide CallbackInv;
    if s.threads[i].pc.Calling? { QuitCallback(s, s', i, t); }
    assert Owner(s', i) == None;
  }

  lemma QuitThread<R>(s: State<R>, s': State<R>, i: nat, t: nat)
    requires Pre(s, i, t) && QuitMove(s, s', i, t)
    ensures ThreadInv(s', i)
  {
    if s.threads[i].issue.Allocated? { QuitAllocated(s, s', i, t); } else { QuitBuilt(s, s', i, t); }
  }

  lemma KeepQuit<R>(p: Callbacks<R>, s: State<R>, s': State<R>, i: nat, t: nat)
    requires Inv(p, s) && QuitMove(s, s', i, t)
    ensures Inv(p, s')
  {
    assert Pre(s, i, t);
    QuitLocal(s, s', i, t);
    QuitTask(s, s', i, t);
    QuitThread(s, s', i, t);
    TokenStep(p, s, s', i, t);
  }

  // ---------------------------------------------------------------- starting the I/O

  lemma StartIoLocal<R>(s: State<R>, i: nat, t: nat)
    requires CanStartIo(s, i, true) && t == s.threads[i].issue.t && Pre(s, i, t)
    ensures Local(s, DoStartIo(s, i, true), i, t)
  {
  }

  lemma StartIoTask<R>(s: State<R>, i: nat, t: nat)
    requires CanStartIo(s, i, true) && t == s.threads[i].issue.t && Pre(s, i, t)
    ensures TaskInv(DoStartIo(s, i, true), t)
  {
    var s' := DoStartIo(s, i, true);
    assert Issuing(s', t) && Issuing(s, t);
  }

  lemma StartIoCallback<R>(s: State<R>, i: nat, t: nat)
    requires CanStartIo(s, i, true) && t == s.threads[i].issue.t && Pre(s, i, t) && s.threads[i].pc.Calling?
    ensures CallbackInv(DoStartIo(s, i, true), i)
  {
    AnswersKept(s, DoStartIo(s, i, true), s.threads[i].pc.t);
  }

  lemma StartIoThread<R>(s: State<R>, i: nat, t: nat)
    requires CanStartIo(s, i, true) && t == s.threads[i].issue.t && Pre(s, i, t)
    ensures ThreadInv(DoStartIo(s, i, true), i)
  {
    hide CallbackInv;
    if s.threads[i].pc.Calling? { StartIoCallback(s, i, t); }
    assert Owner(DoStartIo(s, i, true), i) == None;
  }

  lemma StartIoConn<R>(p: Callbacks<R>, s: State<R>, i: nat, t: nat)
    requires CanStartIo(s, i, true) && t == s.threads[i].issue.t && Pre(s, i, t) && s.tasks[t].kind == Read
    requires ConnInv(p, s, s.tasks[t].conn)
    ensures ConnInv(p, DoStartIo(s, i, true), s.tasks[t].conn)
  {
    var c, s' := s.tasks[t].conn, DoStartIo(s, i, true);
    var conn, conn' := s.conns[c], s'.conns[c];
    forall k | 0 <= k < |conn.started| ensures conn.started[k] != t && StartedRead(s', c, conn.started[k]) {
      assert StartedRead(s, c, conn.started[k]);
    }
    HistoryStart(p, conn, t);
    forall k | 0 <= k < |conn.chunks| ensures ChunkOf(s', conn'.started[k], conn'.chunks[k]) {
      assert ChunkOf(s, conn.started[k], conn.chunks[k]);
    }
  }

  lemma StartIoParts<R>(s: State<R>, i: nat, t: nat)
    requires CanStartIo(s, i, true) && t == s.threads[i].issue.t && Pre(s, i, t)
    ensures var s' := DoStartIo(s, i, true);
            Local(s, s', i, t) && TaskInv(s', t) && ThreadInv(s', i)
  {
    StartIoLocal(s, i, t);
    StartIoTask(s, i, t);
    StartIoThread(s, i, t);
  }

  /** Nothing else changes. */
  lemma StartIoFrame<R>(s: State<R>, i: nat, t: nat)
    requires CanStartIo(s, i, true) && t == s.threads[i].issue.t && Pre(s, i, t) && QueueInv(s)
    ensures var s' := DoStartIo(s, i, true);
            && HistoriesGrow(s, s') && QueueInv(s') && |s'.conns| == |s.conns|
            && forall c | 0 <= c < |s.conns| && s'.conns[c] != s.conns[c] :: c == s.tasks[t].conn
  {
    QueueKept(s, DoStartIo(s, i, true), t);
  }

  lemma KeepStartRead<R>(p: Callbacks<R>, s: State<R>, i: nat)
    requires Inv(p, s) && CanStartIo(s, i, true) && s.tasks[s.threads[i].issue.t].kind == Read
    ensures Inv(p, DoStartIo(s, i, true))
  {
    var t, s' := s.threads[i].issue.t, DoStartIo(s, i, true);
    assert ThreadInv(s, i) && TaskInv(s, t);
    assert TaskConnInv(s, t);
    hide ThreadInv, TaskInv, ConnInv, Local, HistoriesGrow, QueueInv, DoStartIo;
    StartIoParts(s, i, t);
    StartIoFrame(s, i, t);
    StartIoConn(p, s, i, t);
    LocalStep(p, s, s', i, t);
  }

  lemma KeepStartOther<R>(p: Callbacks<R>, s: State<R>, i: nat)
    requires Inv(p, s) && CanStartIo(s, i, true) && s.tasks[s.threads[i].issue.t].kind != Read
    ensures Inv(p, DoStartIo(s, i, true))
  {
    var t, s' := s.threads[i].issue.t, DoStartIo(s, i, true);
    assert ThreadInv(s, i) && TaskInv(s, t);
    StartOtherFrame(p, s, i, t);
    hide ThreadInv, TaskInv, ConnInv, Local, QueueInv, DoStartIo;
    StartIoParts(s, i, t);
    TokenStep(p, s, s', i, t);
  }

  /** At most the token of the connection that is answered changes. */
  lemma StartOtherFrame<R>(p: Callbacks<R>, s: State<R>, i: nat, t: nat)
    requires CanStartIo(s, i, true) && t == s.threads[i].issue.t && Pre(s, i, t) && s.tasks[t].kind != Read
    requires forall c: nat | c < |s.conns| :: ConnInv(p, s, c)
    ensures var s' := DoStartIo(s, i, true);
            && s'.queue == s.queue && |s'.tasks| == |s.tasks| && |s'.conns| == |s.conns|
            && s.tasks[t].stage == Unissued && s'.tasks[t].stage == InKernel
            && forall c | 0 <= c < |s.conns| && s'.conns[c] != s.conns[c] ::
                 && s'.conns[c] == s.conns[c].(token := Responded(t))
                 && s.conns[c].verdicts != [] && Due(s.conns[c], Write)
  {
    if s.tasks[t].kind == Write { assert ConnInv(p, s, s.tasks[t].conn); }
  }

  // ---------------------------------------------------------------- leaving, and the caller's handle

  lemma LeaveCountedLocal<R>(s: State<R>, i: nat, t: nat)
    requires CanLeave(s, i) && t == s.threads[i].issue.t && Pre(s, i, t) && Counted(s.tasks[t].kind)
    ensures Local(s, DoLeave(s, i), i, t)
  {
  }

  lemma LeaveUncountedLocal<R>(s: State<R>, i: nat, t: nat)
    requires CanLeave(s, i) && t == s.threads[i].issue.t && Pre(s, i, t) && !Counted(s.tasks[t].kind)
    ensures Local(s, DoLeave(s, i), i, t)
  {
  }

  lemma LeaveLocal<R>(s: State<R>, i: nat, t: nat)
    requires CanLeave(s, i) && t == s.threads[i].issue.t && Pre(s, i, t)
    ensures Local(s, DoLeave(s, i), i, t)
  {
    if Counted(s.tasks[t].kind) { LeaveCountedLocal(s, i, t); } else { LeaveUncountedLocal(s, i, t); }
  }

  /** Dropping a counted local pointer leaves a consistent task. */
  lemma LeaveCore(k: Task, current: bool, held: nat)
    requires TaskCore(k, current, true, held) && Counted(k.kind)
    ensures TaskCore(DecRef(k), current, false, held)
  {
  }

  lemma LeaveUncountedCore(k: Task, ok: bool, current: bool, held: nat)
    requires TaskCore(k, current, true, held) && !Counted(k.kind) && (!ok ==> k.stage == Unissued && !k.overlapped)
    ensures TaskCore(if ok then k else k.(destroyed := k.destroyed + 1), current, false, held)
  {
  }

  lemma LeaveCounted<R>(s: State<R>, i: nat, t: nat)
    requires CanLeave(s, i) && t == s.threads[i].issue.t && Pre(s, i, t) && Counted(s.tasks[t].kind)
    ensures TaskInv(DoLeave(s, i), t)
  {
    LeaveLinks(s, i, t);
    LeaveCore(s.tasks[t], t in s.current, WorkerRefs(s, t));
  }

  lemma LeaveUncounted<R>(s: State<R>, i: nat, t: nat)
    requires CanLeave(s, i) && t == s.threads[i].issue.t && Pre(s, i, t) && !Counted(s.tasks[t].kind)
    ensures TaskInv(DoLeave(s, i), t)
  {
    LeaveLinks(s, i, t);
    LeaveUncountedCore(s.tasks[t], s.threads[i].issue.ok, t in s.current, WorkerRefs(s, t));
  }

  lemma LeaveTask<R>(s: State<R>, i: nat, t: nat)
    requires CanLeave(s, i) && t == s.threads[i].issue.t && Pre(s, i, t)
    ensures TaskInv(DoLeave(s, i), t)
  {
    if Counted(s.tasks[t].kind) { LeaveCounted(s, i, t); } else { LeaveUncounted(s, i, t); }
  }

  lemma LeaveLinks<R>(s: State<R>, i: nat, t: nat)
    requires CanLeave(s, i) && t == s.threads[i].issue.t && Pre(s, i, t)
    ensures var s' := DoLeave(s, i);
            !Issuing(s', t) && Issuing(s, t) && WorkerRefs(s', t) == WorkerRefs(s, t)
  {
  }

  lemma LeaveCallback<R>(s: State<R>, i: nat, t: nat)
    requires CanLeave(s, i) && t == s.threads[i].issue.t && Pre(s, i, t) && s.threads[i].pc.Calling?
    ensures CallbackInv(DoLeave(s, i), i) && s.threads[i].pc.cb.CbWait?
  {
    AnswersKept(s, DoLeave(s, i), s.threads[i].pc.t);
  }

  lemma LeaveThread<R>(s: State<R>, i: nat, t: nat)
    requires CanLeave(s, i) && t == s.threads[i].issue.t && Pre(s, i, t)
    ensures ThreadInv(DoLeave(s, i), i)
  {
    hide CallbackInv;
    if s.threads[i].pc.Calling? { LeaveCallback(s, i, t); }
    assert Owner(DoLeave(s, i), i) == None;
  }

  lemma KeepLeave<R>(p: Callbacks<R>, s: State<R>, i: nat)
    requires Inv(p, s) && CanLeave(s, i)
    ensures Inv(p, DoLeave(s, i))
  {
    var t, s' := s.threads[i].issue.t, DoLeave(s, i);
    assert ThreadInv(s, i) && TaskInv(s, t);
    LeaveLocal(s, i, t);
    LeaveTask(s, i, t);
    LeaveThread(s, i, t);
    TokenStep(p, s, s', i, t);
  }

  lemma DropHandleCore(k: Task, current: bool, issuing: bool, held: nat)
    requires TaskCore(k, current, issuing, held) && k.handle
    ensures TaskCore(DecRef(k).(handle := false), current, issuing, held)
  {
  }

  lemma DropHandleTask<R>(s: State<R>, t: nat)
    requires CanDropHandle(s, t) && TaskInv(s, t)
    ensures TaskInv(DoDropHandle(s, t), t)
  {
    var s' := DoDropHandle(s, t);
    assert Issuing(s', t) <==> Issuing(s, t);
    assert WorkerRefs(s', t) == WorkerRefs(s, t);
    DropHandleCore(s.tasks[t], t in s.current, Issuing(s, t), WorkerRefs(s, t));
  }

  lemma DropHandleLocal<R>(s: State<R>, t: nat)
    requires CanDropHandle(s, t) && TaskInv(s, t) && Shape(s)
    ensures Local(s, DoDropHandle(s, t), s.tasks[t].issuer, t) && Stable(s, DoDropHandle(s, t), s.tasks[t].issuer, t)
  {
  }

  lemma KeepDropHandle<R>(p: Callbacks<R>, s: State<R>, t: nat)
    requires Inv(p, s) && CanDropHandle(s, t)
    ensures Inv(p, DoDropHandle(s, t))
  {
    assert TaskInv(s, t);
    var i, s' := s.tasks[t].issuer, DoDropHandle(s, t);
    assert ThreadInv(s, i);
    DropHandleLocal(s, t);
    DropHandleTask(s, t);
    OtherThread(s, s', i, t);
    TokenStep(p, s, s', i, t);
  }

  // ---------------------------------------------------------------- moves inside a callback

  /** Worker `w` goes on to `cb'` in the callback of `t`, and changes at most a connection it owns or creates. */
  ghost predicate CallMove<R>(s: State<R>, s': State<R>, w: nat, t: nat, cb': Callback<R>) {
    && w < |s.threads| && t < |s.tasks| && s.threads[w].pc.Calling? && s.threads[w].pc.t == t
    && s.threads[w].issue.NoIssue?
    && s' == s.(threads := s.threads[w := s.threads[w].(pc := Calling(t, cb'))], conns := s'.conns)
    && |s.conns| <= |s'.conns|
    && (forall c | 0 <= c < |s.conns| && s'.conns[c] != s.conns[c] :: s.conns[c].token == Held(w))
    && HistoriesGrow(s, s')
  }

  lemma CallLocal<R>(s: State<R>, s': State<R>, w: nat, t: nat, cb': Callback<R>)
    requires Pre(s, w, t) && CallMove(s, s', w, t, cb')
    ensures Local(s, s', w, t)
  {
  }

  lemma CallTask<R>(s: State<R>, s': State<R>, w: nat, t: nat, cb': Callback<R>)
    requires Pre(s, w, t) && CallMove(s, s', w, t, cb')
    ensures TaskInv(s', t)
  {
    assert Issuing(s', t) <==> Issuing(s, t);
    assert WorkerRefs(s', t) == WorkerRefs(s, t);
  }

  lemma CallThread<R>(s: State<R>, s': State<R>, w: nat, t: nat, cb': Callback<R>)
    requires Pre(s, w, t) && CallMove(s, s', w, t, cb') && CallbackInv(s', w) && OwnerInv(s', w)
    ensures ThreadInv(s', w)
  {
  }

  lemma KeepByCall<R>(p: Callbacks<R>, s: State<R>, s': State<R>, w: nat, t: nat, cb': Callback<R>)
    requires Inv(p, s) && CallMove(s, s', w, t, cb') && CallbackInv(s', w) && OwnerInv(s', w)
    requires forall c: nat | c < |s'.conns| && (c >= |s.conns| || s'.conns[c] != s.conns[c]) :: ConnInv(p, s', c)
    ensures Inv(p, s')
  {
    assert Pre(s, w, t);
    CallLocal(s, s', w, t, cb');
    CallTask(s, s', w, t, cb');
    CallThread(s, s', w, t, cb');
    QueueKept(s, s', t);
    LocalStep(p, s, s', w, t);
  }

  lemma FailFacts<R>(s: State<R>, w: nat, t: nat)
    requires CanFail(s, w) && t == s.threads[w].pc.t && Pre(s, w, t)
    ensures CallMove(s, DoFail(s, w), w, t, CbEnd(false)) && CallbackInv(DoFail(s, w), w) && OwnerInv(DoFail(s, w), w)
  {
  }

  lemma KeepFail<R>(p: Callbacks<R>, s: State<R>, w: nat)
    requires Inv(p, s) && CanFail(s, w)
    ensures Inv(p, DoFail(s, w))
  {
    var t, s' := s.threads[w].pc.t, DoFail(s, w);
    assert ThreadInv(s, w) && TaskInv(s, t);
    hide ThreadInv, TaskInv, CallbackInv, OwnerInv, HistoriesGrow;
    FailFacts(s, w, t);
    CallLocal(s, s', w, t, CbEnd(false));
    forall c: nat | c < |s'.conns| && s'.conns[c] != s.conns[c] ensures ConnInv(p, s', c) {
      TokenOnly(p, s, s', w, t, c);
    }
    KeepByCall(p, s, s', w, t, CbEnd(false));
  }

  lemma EnterFacts<R>(p: Callbacks<R>, s: State<R>, w: nat, t: nat)
    requires CanEnter(s, w) && t == s.threads[w].pc.t && Pre(s, w, t)
    ensures var s' := DoEnter(p, s, w);
            CallMove(s, s', w, t, s'.threads[w].pc.cb) && CallbackInv(s', w) && OwnerInv(s', w)
  {
    var k := s.tasks[t];
    assert k.kind == Read ==> k.data[..k.szRead] == k.data;
  }

  lemma KeepEnter<R>(p: Callbacks<R>, s: State<R>, w: nat)
    requires Inv(p, s) && CanEnter(s, w)
    ensures Inv(p, DoEnter(p, s, w))
  {
    var t, s' := s.threads[w].pc.t, DoEnter(p, s, w);
    assert ThreadInv(s, w) && TaskInv(s, t);
    EnterFacts(p, s, w, t);
    KeepByCall(p, s, s', w, t, s'.threads[w].pc.cb);
  }

  lemma StoreFacts<R>(p: Callbacks<R>, s: State<R>, w: nat, t: nat)
    requires CanStore(s, w) && t == s.threads[w].pc.t && Pre(s, w, t) && !DoStore(p, s, w).aborted && !s.aborted
    requires |s.conns[s.tasks[t].conn].verdicts| == |s.conns[s.tasks[t].conn].chunks|
    ensures var s' := DoStore(p, s, w);
            CallMove(s, s', w, t, s'.threads[w].pc.cb) && CallbackInv(s', w) && OwnerInv(s', w)
  {
    var c, s' := s.tasks[t].conn, DoStore(p, s, w);
    var op := s'.threads[w].pc.cb.op;
    assert Judged(s', c, |s.conns[c].chunks|, t, VerdictFor(op));
    assert Answered(s', t, op);
  }

  /** The stored fields are the fold over the consumed chunks, now including this one. */
  lemma StoreConn<R>(p: Callbacks<R>, s: State<R>, w: nat, t: nat, c: nat)
    requires CanStore(s, w) && t == s.threads[w].pc.t && Pre(s, w, t) && !DoStore(p, s, w).aborted && !s.aborted
    requires c == s.tasks[t].conn && ConnInv(p, s, c)
    ensures ConnInv(p, DoStore(p, s, w), c)
  {
    StoreHistory(p, s, w, t, c);
    StoreTasks(p, s, w, t, c);
  }

  lemma StoreHistory<R>(p: Callbacks<R>, s: State<R>, w: nat, t: nat, c: nat)
    requires CanStore(s, w) && t == s.threads[w].pc.t && Pre(s, w, t) && !DoStore(p, s, w).aborted && !s.aborted
    requires c == s.tasks[t].conn && ConnInv(p, s, c)
    ensures History(p, DoStore(p, s, w).conns[c])
    ensures DoStore(p, s, w).conns[c].token == s.conns[c].token && |DoStore(p, s, w).threads| == |s.threads|
  {
    HistoryStore(p, s.conns[c], s.threads[w].pc.cb.chunk, DoStore(p, s, w).conns[c]);
  }

  lemma StoreTasks<R>(p: Callbacks<R>, s: State<R>, w: nat, t: nat, c: nat)
    requires CanStore(s, w) && t == s.threads[w].pc.t && Pre(s, w, t) && !DoStore(p, s, w).aborted && !s.aborted
    requires c == s.tasks[t].conn && ConnInv(p, s, c)
    ensures var s' := DoStore(p, s, w);
            && (forall k | 0 <= k < |s'.conns[c].started| :: StartedRead(s', c, s'.conns[c].started[k]))
            && (forall k | 0 <= k < |s'.conns[c].chunks| && k < |s'.conns[c].started| ::
                  ChunkOf(s', s'.conns[c].started[k], s'.conns[c].chunks[k]))
  {
    hide Fold, VerdictOn;
    var s' := DoStore(p, s, w);
    var conn, conn' := s.conns[c], s'.conns[c];
    forall k | 0 <= k < |conn'.started| ensures StartedRead(s', c, conn'.started[k]) {
      assert StartedRead(s, c, conn.started[k]);
    }
    forall k | 0 <= k < |conn'.chunks| && k < |conn'.started|
      ensures ChunkOf(s', conn'.started[k], conn'.chunks[k])
    {
      assert k < |conn.chunks| ==> ChunkOf(s, conn.started[k], conn.chunks[k]);
    }
  }

  lemma KeepStore<R>(p: Callbacks<R>, s: State<R>, w: nat)
    requires Inv(p, s) && CanStore(s, w) && !s.aborted
    ensures Inv(p, DoStore(p, s, w))
  {
    var t, s' := s.threads[w].pc.t, DoStore(p, s, w);
    assert ThreadInv(s, w) && TaskInv(s, t);
    if s'.aborted { SameParts(p, s, s'); } else { KeepStored(p, s, w, t, s.tasks[t].conn); }
  }

  lemma KeepStored<R>(p: Callbacks<R>, s: State<R>, w: nat, t: nat, c: nat)
    requires Inv(p, s) && CanStore(s, w) && !s.aborted && !DoStore(p, s, w).aborted
    requires t == s.threads[w].pc.t && Pre(s, w, t) && c == s.tasks[t].conn
    ensures Inv(p, DoStore(p, s, w))
  {
    assert ConnInv(p, s, c);
    assert |s.conns[c].verdicts| == |s.conns[c].chunks|;
    StoreFacts(p, s, w, t);
    StoreConn(p, s, w, t, c);
    StoreFrame(p, s, w, c);
    hide ThreadInv, TaskInv, ConnInv, QueueInv, CallMove, CallbackInv, OwnerInv, DoStore;
    KeepByCall(p, s, DoStore(p, s, w), w, t, DoStore(p, s, w).threads[w].pc.cb);
  }

  lemma StoreFrame<R>(p: Callbacks<R>, s: State<R>, w: nat, c: nat)
    requires CanStore(s, w) && c == s.tasks[s.threads[w].pc.t].conn
    ensures var s' := DoStore(p, s, w);
            |s'.conns| == |s.conns| && forall d | 0 <= d < |s.conns| && s'.conns[d] != s.conns[d] :: d == c
  {
  }

  /** The invariant does not speak of the thread inside `run`, nor of the abort flag. */
  lemma SameParts<R>(p: Callbacks<R>, s: State<R>, s': State<R>)
    requires Inv(p, s) && s' == s.(run := s'.run, aborted := s'.aborted)
    ensures Inv(p, s')
  {
    forall t: nat | t < |s'.tasks| ensures TaskInv(s', t) {
      assert TaskInv(s, t);
      assert Issuing(s', t) <==> Issuing(s, t);
      assert WorkerRefs(s', t) == WorkerRefs(s, t);
    }
    forall i: nat | i < |s'.threads| ensures ThreadInv(s', i) {
      OtherThread(s, s', i, |s.tasks|);
    }
    forall c: nat | c < |s'.conns| ensures ConnInv(p, s', c) {
      SameConn(p, s, s', c);
    }
    QueueKept(s, s', |s.tasks|);
  }

  lemma SameConn<R>(p: Callbacks<R>, s: State<R>, s': State<R>, c: nat)
    requires c < |s.conns| && ConnInv(p, s, c)
    requires s'.conns == s.conns && s'.tasks == s.tasks && |s'.threads| == |s.threads|
    ensures ConnInv(p, s', c)
  {
    var conn := s.conns[c];
    forall k | 0 <= k < |conn.started| ensures StartedRead(s', c, conn.started[k]) {
      assert StartedRead(s, c, conn.started[k]);
    }
    forall k | 0 <= k < |conn.chunks| ensures ChunkOf(s', conn.started[k], conn.chunks[k]) {
      assert ChunkOf(s, conn.started[k], conn.chunks[k]);
    }
  }

  // ---------------------------------------------------------------- the callback begins

  lemma MarkDoneLocal<R>(s: State<R>, w: nat, t: nat)
    requires CanMarkDone(s, w) && t == s.threads[w].pc.t && Pre(s, w, t)
    ensures Local(s, DoMarkDone(s, w), w, t)
  {
  }

  lemma MarkDoneTask<R>(s: State<R>, w: nat, t: nat)
    requires CanMarkDone(s, w) && t == s.threads[w].pc.t && Pre(s, w, t)
    ensures TaskInv(DoMarkDone(s, w), t)
  {
    var s' := DoMarkDone(s, w);
    assert Issuing(s', t) <==> Issuing(s, t);
    assert WorkerRefs(s', t) == WorkerRefs(s, t);
  }

  lemma MarkDoneThread<R>(s: State<R>, w: nat, t: nat)
    requires CanMarkDone(s, w) && t == s.threads[w].pc.t && Pre(s, w, t)
    ensures ThreadInv(DoMarkDone(s, w), w)
  {
  }

  lemma KeepMarkDone<R>(p: Callbacks<R>, s: State<R>, w: nat)
    requires Inv(p, s) && CanMarkDone(s, w)
    ensures Inv(p, DoMarkDone(s, w))
  {
    var t, s' := s.threads[w].pc.t, DoMarkDone(s, w);
    assert ThreadInv(s, w) && TaskInv(s, t);
    MarkDoneLocal(s, w, t);
    MarkDoneTask(s, w, t);
    MarkDoneThread(s, w, t);
    TokenStep(p, s, s', w, t);
  }

  // ---------------------------------------------------------------- new tasks

  lemma StartLocal<R>(s: State<R>, w: nat)
    requires Shape(s) && CanStart(s, w) && ThreadInv(s, w)
    ensures Local(s, DoStart(s, w), w, |s.tasks|)
  {
  }

  lemma StartTask<R>(s: State<R>, w: nat)
    requires Shape(s) && CanStart(s, w) && ThreadInv(s, w)
    ensures TaskInv(DoStart(s, w), |s.tasks|)
  {
    assert Issuing(DoStart(s, w), |s.tasks|);
  }

  lemma StartThread<R>(s: State<R>, w: nat)
    requires Shape(s) && CanStart(s, w) && ThreadInv(s, w)
    ensures ThreadInv(DoStart(s, w), w)
  {
    var t := s.threads[w].pc.t;
    assert WTask(s.threads[w].pc) == Some(t) && WorkerFacts(s.threads[w].pc, w, t, s.tasks[t]);
    AnswersKept(s, DoStart(s, w), t);
    assert CallbackInv(DoStart(s, w), w);
  }

  lemma KeepStart<R>(p: Callbacks<R>, s: State<R>, w: nat)
    requires Inv(p, s) && CanStart(s, w)
    ensures Inv(p, DoStart(s, w))
  {
    assert ThreadInv(s, w);
    StartLocal(s, w);
    StartTask(s, w);
    StartThread(s, w);
    QueueKept(s, DoStart(s, w), |s.tasks|);
    LocalStep(p, s, DoStart(s, w), w, |s.tasks|);
  }

  lemma ExternalLocal<R>(p: Callbacks<R>, s: State<R>, i: nat, kind: Kind)
    requires Shape(s) && CanExternal(s, i, kind) && ThreadInv(s, i)
    ensures Local(s, DoExternal(p, s, i, kind), i, |s.tasks|)
  {
  }

  lemma ExternalTask<R>(p: Callbacks<R>, s: State<R>, i: nat, kind: Kind)
    requires Shape(s) && CanExternal(s, i, kind) && ThreadInv(s, i)
    ensures TaskInv(DoExternal(p, s, i, kind), |s.tasks|)
  {
    assert Issuing(DoExternal(p, s, i, kind), |s.tasks|);
  }

  lemma KeepExternal<R>(p: Callbacks<R>, s: State<R>, i: nat, kind: Kind)
    requires Inv(p, s) && CanExternal(s, i, kind)
    ensures Inv(p, DoExternal(p, s, i, kind))
  {
    var s' := DoExternal(p, s, i, kind);
    assert ThreadInv(s, i);
    ExternalLocal(p, s, i, kind);
    ExternalTask(p, s, i, kind);
    assert ThreadInv(s', i);
    QueueKept(s, s', |s.tasks|);
    LocalStep(p, s, s', i, |s.tasks|);
  }

  // ---------------------------------------------------------------- the port

  lemma CompleteLocal<R>(s: State<R>, t: nat, data: string)
    requires CanComplete(s, t) && TaskInv(s, t) && Shape(s)
    ensures var s' := DoComplete(s, t, data);
            Local(s, s', s.tasks[t].issuer, t) && Stable(s, s', s.tasks[t].issuer, t)
  {
  }

  lemma CompleteTask<R>(s: State<R>, t: nat, data: string)
    requires CanComplete(s, t) && TaskInv(s, t)
    ensures TaskInv(DoComplete(s, t, data), t)
  {
    assert Issuing(DoComplete(s, t, data), t) <==> Issuing(s, t);
  }

  lemma CompleteQueue<R>(s: State<R>, t: nat, data: string)
    requires CanComplete(s, t) && QueueInv(s)
    ensures QueueInv(DoComplete(s, t, data))
  {
    var s' := DoComplete(s, t, data);
    forall k | 0 <= k < |s'.queue| ensures QueuedAt(s', k) {
      if k < |s.queue| { assert QueuedAt(s, k); }
    }
    forall j, k | 0 <= j < k < |s'.queue| && s'.queue[j].Completion? && s'.queue[k].Completion?
      ensures s'.queue[j].t != s'.queue[k].t
    {
      assert QueuedAt(s, j);
    }
    assert s'.queue[|s.queue|] == Completion(t);
  }

  lemma KeepComplete<R>(p: Callbacks<R>, s: State<R>, t: nat, data: string)
    requires Inv(p, s) && CanComplete(s, t)
    ensures Inv(p, DoComplete(s, t, data))
  {
    assert TaskInv(s, t);
    var i, s' := s.tasks[t].issuer, DoComplete(s, t, data);
    assert ThreadInv(s, i);
    CompleteLocal(s, t, data);
    CompleteTask(s, t, data);
    CompleteQueue(s, t, data);
    OtherThread(s, s', i, t);
    LocalStep(p, s, s', i, t);
  }

  /** Taking the head off the port: its task, if any, is no longer queued. */
  lemma QueueTail<R>(s: State<R>, s': State<R>)
    requires QueueInv(s) && |s.queue| > 0 && s'.queue == s.queue[1..] && |s'.tasks| == |s.tasks|
    requires match s.queue[0]
             case NullKey => s'.tasks == s.tasks
             case Completion(t) => t < |s.tasks| && s'.tasks == s.tasks[t := s'.tasks[t]] && s'.tasks[t].stage != Queued
    ensures QueueInv(s')
  {
    forall k | 0 <= k < |s'.queue| ensures QueuedAt(s', k) {
      assert QueuedAt(s, k + 1);
    }
    forall t | 0 <= t < |s'.tasks| && s'.tasks[t].stage == Queued ensures Completion(t) in s'.queue {
      var k :| 0 <= k < |s.queue| && s.queue[k] == Completion(t);
      assert s'.queue[k - 1] == Completion(t);
    }
  }

  lemma DequeueLocal<R>(s: State<R>, w: nat, t: nat)
    requires Shape(s) && CanDequeue(s, w) && s.queue[0] == Completion(t) && ThreadInv(s, w)
    requires t < |s.tasks| && TaskInv(s, t) && s.tasks[t].stage == Queued
    ensures Local(s, DoDequeue(s, w), w, t)
  {
  }

  lemma DequeueTask<R>(s: State<R>, w: nat, t: nat)
    requires Shape(s) && CanDequeue(s, w) && s.queue[0] == Completion(t) && ThreadInv(s, w)
    requires t < |s.tasks| && TaskInv(s, t) && s.tasks[t].stage == Queued
    ensures TaskInv(DoDequeue(s, w), t)
  {
    assert Issuing(DoDequeue(s, w), t) <==> Issuing(s, t);
  }

  lemma DequeueThread<R>(s: State<R>, w: nat, t: nat)
    requires Shape(s) && CanDequeue(s, w) && s.queue[0] == Completion(t) && ThreadInv(s, w)
    requires t < |s.tasks| && TaskInv(s, t) && s.tasks[t].stage == Queued
    ensures ThreadInv(DoDequeue(s, w), w)
  {
  }

  lemma KeepDequeue<R>(p: Callbacks<R>, s: State<R>, w: nat)
    requires Inv(p, s) && CanDequeue(s, w)
    ensures Inv(p, DoDequeue(s, w))
  {
    var s' := DoDequeue(s, w);
    assert ThreadInv(s, w);
    assert QueuedAt(s, 0);
    QueueTail(s, s');
    match s.queue[0]
    case NullKey => KeepExit(p, s, s', w);
    case Completion(t) =>
      assert TaskInv(s, t);
      DequeueLocal(s, w, t);
      DequeueTask(s, w, t);
      DequeueThread(s, w, t);
      LocalStep(p, s, s', w, t);
  }

  /** A worker leaves its loop; no task is touched. */
  lemma KeepExit<R>(p: Callbacks<R>, s: State<R>, s': State<R>, w: nat)
    requires Inv(p, s) && w < |s.threads| && |s'.threads| == |s.threads| && s.threads[w].pc.Idle? && QueueInv(s')
    requires s' == s.(threads := s.threads[w := s'.threads[w]], queue := s'.queue)
    requires s'.threads[w].pc.Exited? && s'.threads[w].issue.NoIssue?
    requires s'.threads[w].exc.None? <==> s'.threads[w].pc.byNull
    ensures Inv(p, s')
  {
    assert ThreadInv(s, w);
    forall t: nat | t < |s'.tasks| ensures TaskInv(s', t) {
      assert TaskInv(s, t);
      assert Issuing(s', t) <==> Issuing(s, t);
      assert WorkerRefs(s', t) == WorkerRefs(s, t);
    }
    forall j: nat | j < |s'.threads| ensures ThreadInv(s', j) {
      if j != w { OtherThread(s, s', j, |s.tasks|); }
    }
    forall c: nat | c < |s'.conns| ensures ConnInv(p, s', c) {
      SameConn(p, s, s', c);
    }
  }

  lemma SpentTask<R>(s: State<R>, s': State<R>, t: nat)
    requires t < |s.tasks| && TaskInv(s, t) && s.tasks[t].stage == Queued
    requires s' == s.(tasks := s.tasks[t := s.tasks[t].(stage := Spent)], queue := s'.queue)
    ensures TaskInv(s', t)
  {
    assert Issuing(s', t) <==> Issuing(s, t);
  }

  /** The packet of a failed operation disappears with the failed dequeue call. */
  lemma KeepSpent<R>(p: Callbacks<R>, s: State<R>, s': State<R>, t: nat)
    requires Inv(p, s) && t < |s.tasks| && s.tasks[t].stage == Queued && QueueInv(s')
    requires s' == s.(tasks := s.tasks[t := s.tasks[t].(stage := Spent)], queue := s'.queue)
    ensures Inv(p, s')
  {
    assert TaskInv(s, t);
    var i := s.tasks[t].issuer;
    assert ThreadInv(s, i);
    SpentTask(s, s', t);
    assert Local(s, s', i, t);
    OtherThread(s, s', i, t);
    LocalStep(p, s, s', i, t);
  }

  lemma KeepDequeueFail<R>(p: Callbacks<R>, s: State<R>, w: nat, err: nat, consume: bool)
    requires Inv(p, s) && CanDequeueFail(s, w, consume)
    ensures Inv(p, DoDequeueFail(s, w, err, consume))
  {
    var s' := DoDequeueFail(s, w, err, consume);
    assert ThreadInv(s, w);
    if consume {
      var t := s.queue[0].t;
      assert QueuedAt(s, 0);
      var s1 := SetTask(s, t, s.tasks[t].(stage := Spent)).(queue := s.queue[1..]);
      QueueTail(s, s1);
      KeepSpent(p, s, s1, t);
      QueueKept(s1, s', |s.tasks|);
      KeepExit(p, s1, s', w);
    } else {
      QueueKept(s, s', |s.tasks|);
      KeepExit(p, s, s', w);
    }
  }

  lemma KeepPostNull<R>(p: Callbacks<R>, s: State<R>)
    requires Inv(p, s) && CanPostNull(s)
    ensures Inv(p, DoPostNull(s))
  {
    var s' := DoPostNull(s);
    var s1 := s.(run := s'.run);
    SameParts(p, s, s1);
    if s.run.left > 0 {
      assert s' == s1.(queue := s.queue + [NullKey]);
      NullQueued(p, s1, s');
    }
  }

  lemma NullQueued<R>(p: Callbacks<R>, s: State<R>, s': State<R>)
    requires Inv(p, s) && s' == s.(queue := s.queue + [NullKey])
    ensures Inv(p, s')
  {
    forall k | 0 <= k < |s'.queue| ensures QueuedAt(s', k) {
      if k < |s.queue| { assert QueuedAt(s, k); }
    }
    forall t: nat | t < |s'.tasks| ensures TaskInv(s', t) {
      assert TaskInv(s, t);
      assert Issuing(s', t) <==> Issuing(s, t);
      assert WorkerRefs(s', t) == WorkerRefs(s, t);
    }
    forall i: nat | i < |s'.threads| ensures ThreadInv(s', i) {
      OtherThread(s, s', i, |s.tasks|);
    }
    forall c: nat | c < |s'.conns| ensures ConnInv(p, s', c) {
      SameConn(p, s, s', c);
    }
  }

  // ---------------------------------------------------------------- every step, every run

  lemma KeepIo<R>(p: Callbacks<R>, s: State<R>, i: nat, act: IssueAct)
    requires Inv(p, s) && IssueEnabled(s, i, act) && (act.AllocOverlapped? || act.StartIo?)
    ensures Inv(p, IssueStep(s, i, act))
  {
    var t, s' := s.threads[i].issue.t, IssueStep(s, i, act);
    assert Shape(s) && ThreadInv(s, i) && TaskInv(s, t);
    match act
    case AllocOverlapped(ok) =>
      if ok { MoveAllocOverlapped(s, i, t); KeepByIssuer(p, s, s', i, t, s'.threads[i].issue, s'.tasks[t]); }
      else { KeepQuit(p, s, s', i, t); }
    case StartIo(ok) =>
      if !ok { KeepQuit(p, s, s', i, t); }
      else if s.tasks[t].kind == Read { KeepStartRead(p, s, i); }
      else { KeepStartOther(p, s, i); }
  }

  lemma KeepPost<R>(p: Callbacks<R>, s: State<R>, i: nat, act: IssueAct)
    requires Inv(p, s) && IssueEnabled(s, i, act) && !act.AllocOverlapped? && !act.StartIo?
    ensures Inv(p, IssueStep(s, i, act))
  {
    var t, s' := s.threads[i].issue.t, IssueStep(s, i, act);
    assert Shape(s) && ThreadInv(s, i) && TaskInv(s, t);
    match act
    case PostLock => MovePostLock(s, i, t); KeepByIssuer(p, s, s', i, t, s'.threads[i].issue, s'.tasks[t]);
    case PostInsert(ok) => MovePostInsert(s, i, ok, t); KeepByIssuer(p, s, s', i, t, s'.threads[i].issue, s'.tasks[t]);
    case PostUnlock => MovePostUnlock(s, i, t); KeepByIssuer(p, s, s', i, t, s'.threads[i].issue, s'.tasks[t]);
    case CountHandle => MoveCountHandle(s, i, t); KeepByIssuer(p, s, s', i, t, s'.threads[i].issue, s'.tasks[t]);
    case Leave => KeepLeave(p, s, i);
  }

  /** The steps of a worker on the task of its packet, outside the callback. */
  lemma WorkMove<R>(s: State<R>, w: nat, act: WorkAct, t: nat)
    requires WorkEnabled(s, w, act) && !act.Dequeue? && !act.DequeueFail? && !act.MarkDone?
    requires t == s.threads[w].pc.t && WorkerPre(s, w, t)
    ensures var s' := WorkStep(s, w, act);
            t < |s'.tasks| && w < |s'.threads| && WorkerMove(s, s', w, t, s'.threads[w], s'.tasks[t])
  {
    match act
    case TakeRaw => MoveTakeRaw(s, w, t);
    case Lock => MoveLock(s, w, t);
    case Check => MoveCheck(s, w, t);
    case DropOverlapped => MoveDropOverlapped(s, w, t);
    case Unlock => MoveUnlock(s, w, t);
    case TakeTask => MoveTakeTask(s, w, t);
    case LockAccess => MoveLockAccess(s, w, t);
    case UnlockAccess => MoveUnlockAccess(s, w, t);
    case ReleaseTask => MoveReleaseTask(s, w, t);
    case ReleaseRaw => MoveReleaseRaw(s, w, t);
  }

  lemma WorkerPreOf<R>(p: Callbacks<R>, s: State<R>, w: nat)
    requires Inv(p, s) && AtWorkerPc(s, w) && WTask(s.threads[w].pc).Some?
    ensures WorkerPre(s, w, WTask(s.threads[w].pc).value)
  {
    assert ThreadInv(s, w) && TaskInv(s, WTask(s.threads[w].pc).value);
  }

  lemma KeepWorkMove<R>(p: Callbacks<R>, s: State<R>, w: nat, act: WorkAct)
    requires Inv(p, s) && WorkEnabled(s, w, act) && !act.Dequeue? && !act.DequeueFail? && !act.MarkDone?
    ensures Inv(p, WorkStep(s, w, act))
  {
    var t, s' := s.threads[w].pc.t, WorkStep(s, w, act);
    WorkerPreOf(p, s, w);
    WorkMove(s, w, act, t);
    KeepByWorker(p, s, s', w, t, s'.threads[w], s'.tasks[t]);
  }

  lemma KeepWork<R>(p: Callbacks<R>, s: State<R>, w: nat, act: WorkAct)
    requires Inv(p, s) && WorkEnabled(s, w, act)
    ensures Inv(p, WorkStep(s, w, act))
  {
    match act
    case Dequeue => KeepDequeue(p, s, w);
    case DequeueFail(err, consume) => KeepDequeueFail(p, s, w, err, consume);
    case MarkDone => KeepMarkDone(p, s, w);
    case _ => KeepWorkMove(p, s, w, act);
  }

  lemma KeepCall<R>(p: Callbacks<R>, s: State<R>, w: nat, act: CallAct)
    requires Inv(p, s) && CallEnabled(s, w, act) && !s.aborted
    ensures Inv(p, CallStep(p, s, w, act))
  {
    match act
    case Enter => KeepEnter(p, s, w);
    case Store => KeepStore(p, s, w);
    case Fail => KeepFail(p, s, w);
    case Start => KeepStart(p, s, w);
    case Finish(err) =>
      var t, s' := s.threads[w].pc.t, CallStep(p, s, w, act);
      assert ThreadInv(s, w) && TaskInv(s, t);
      MoveFinish(s, w, err, t);
      KeepByWorker(p, s, s', w, t, s'.threads[w], s'.tasks[t]);
  }

  lemma KeepStep<R>(p: Callbacks<R>, s: State<R>, a: Action)
    requires Inv(p, s) && Enabled(s, a)
    ensures Inv(p, Step(p, s, a))
  {
    match a
    case External(i, kind) => KeepExternal(p, s, i, kind);
    case Issue(i, act) =>
      if act.AllocOverlapped? || act.StartIo? { KeepIo(p, s, i, act); } else { KeepPost(p, s, i, act); }
    case Work(w, act) => KeepWork(p, s, w, act);
    case Call(w, act) => KeepCall(p, s, w, act);
    case DropHandle(t) => KeepDropHandle(p, s, t);
    case Complete(t, data) => KeepComplete(p, s, t, data);
    case Wake => SameParts(p, s, Step(p, s, a));
    case PostNull => KeepPostNull(p, s);
    case Join => SameParts(p, s, Step(p, s, a));
  }

  lemma {:induction false} KeepRun<R>(p: Callbacks<R>, s: State<R>, acts: seq<Action>)
    requires Inv(p, s) && Runs(p, s, acts)
    ensures Inv(p, Exec(p, s, acts))
    decreases |acts|
  {
    if |acts| > 0 {
      KeepStep(p, s, acts[0]);
      KeepRun(p, Step(p, s, acts[0]), acts[1..]);
    }
  }
}
