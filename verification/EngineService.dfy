/** The engine as the mutable object it is: one method per atomic action, and a driver that follows any schedule.

    Each method makes exactly the step of the state machine, keeps the invariant, and states what the stepping thread
    can rely on: the task it works on has not been destroyed, counts do not wrap, and locks are released by their
    holders. */
module EngineService {
  import opened Basics
  import opened Engine
  import opened EngineInvariant
  import opened EngineSteps

  // ---------------------------------------------------------------- what the invariant tells the thread that steps

  lemma WorkerSees<R>(p: Callbacks<R>, s: State<R>, w: nat)
    requires Inv(p, s) && AtWorkerPc(s, w) && WTask(s.threads[w].pc).Some?
    ensures var pc, t := s.threads[w].pc, s.threads[w].pc.t;
            && s.tasks[t].destroyed == 0 && s.tasks[t].overlapped
            && WorkerFacts(pc, w, t, s.tasks[t])
            && TaskCore(s.tasks[t], t in s.current, Issuing(s, t), HeldRefs(pc))
    ensures HoldsMutex(s.threads[w]) <==> s.mutex == Some(w)
    ensures s.threads[w].issue.NoIssue? || s.threads[w].pc.Calling?
  {
    assert ThreadInv(s, w) && TaskInv(s, s.threads[w].pc.t);
  }

  lemma IssuerSees<R>(p: Callbacks<R>, s: State<R>, i: nat)
    requires Inv(p, s) && AtIssuePc(s, i) && ITask(s.threads[i].issue).Some?
    ensures var issue, t := s.threads[i].issue, s.threads[i].issue.t;
            && IssueFacts(issue, i, s.tasks[t], t in s.current)
            && TaskCore(s.tasks[t], t in s.current, true, WorkerRefs(s, t))
    ensures HoldsMutex(s.threads[i]) <==> s.mutex == Some(i)
  {
    assert ThreadInv(s, i) && TaskInv(s, s.threads[i].issue.t);
  }

  lemma IssuerOwns<R>(p: Callbacks<R>, s: State<R>, i: nat)
    requires Inv(p, s) && AtIssuePc(s, i) && s.threads[i].issue.Built? && s.tasks[s.threads[i].issue.t].kind != Accept
    ensures var c := s.tasks[s.threads[i].issue.t].conn;
            c < |s.conns| && s.conns[c].token == Held(i) && |s.conns[c].started| == |s.conns[c].chunks|
  {
    assert ThreadInv(s, i) && TaskInv(s, s.threads[i].issue.t);
  }

  lemma CallbackFields<R>(p: Callbacks<R>, s: State<R>, w: nat)
    requires Inv(p, s) && InCallback(s, w) && s.tasks[s.threads[w].pc.t].kind == Read
    requires s.threads[w].pc.cb.CbFields?
    ensures var Calling(t, CbFields(local, chunk)) := s.threads[w].pc;
            && s.tasks[t].conn < |s.conns| && chunk == s.tasks[t].data && local == s.conns[s.tasks[t].conn].reader
  {
    assert ThreadInv(s, w);
  }

  lemma OwnedConn<R>(p: Callbacks<R>, s: State<R>, w: nat)
    requires Inv(p, s) && w < |s.threads|
    ensures Owner(s, w).Some? ==> Owner(s, w).value < |s.conns|
  {
    assert ThreadInv(s, w);
  }

  lemma CallbackReads<R>(p: Callbacks<R>, s: State<R>, w: nat)
    requires Inv(p, s) && InCallback(s, w) && s.threads[w].pc.cb.CbFields?
    ensures s.tasks[s.threads[w].pc.t].kind == Read
  {
    assert ThreadInv(s, w);
  }

  lemma CallbackEnds<R>(p: Callbacks<R>, s: State<R>, w: nat)
    requires Inv(p, s) && CanFinish(s, w)
    ensures var t, ios, ok := s.threads[w].pc.t, s.threads[w].ios, s.threads[w].pc.cb.ok;
            match s.tasks[t].kind
            case Read => ReadEnds(s, w, t, ios, ok)
            case Write => ok && ios == []
            case Accept => AcceptEnds(s, w, ios, ok)
  {
    assert ThreadInv(s, w);
  }

  lemma KeepReleaseRaw<R>(p: Callbacks<R>, s: State<R>, w: nat)
    requires Inv(p, s) && !s.aborted && CanReleaseRaw(s, w)
    ensures Inv(p, DoReleaseRaw(s, w))
  {
    KeepStep(p, s, Action.Work(w, WorkAct.ReleaseRaw));
  }

  lemma TaskSees<R>(p: Callbacks<R>, s: State<R>, t: nat)
    requires Inv(p, s) && t < |s.tasks|
    ensures TaskCore(s.tasks[t], t in s.current, Issuing(s, t), WorkerRefs(s, t))
  {
    assert TaskInv(s, t);
  }

  lemma HeadSees<R>(p: Callbacks<R>, s: State<R>)
    requires Inv(p, s) && |s.queue| > 0 && s.queue[0].Completion?
    ensures s.queue[0].t < |s.tasks| && s.tasks[s.queue[0].t].stage == Queued
    ensures TaskCore(s.tasks[s.queue[0].t], s.queue[0].t in s.current, Issuing(s, s.queue[0].t), 0)
  {
    assert QueuedAt(s, 0);
    assert TaskInv(s, s.queue[0].t);
  }

  class Win32IOService<R> {
    const callbacks: Callbacks<R>
    const workers: nat
    var tasks: seq<Task>
    var currentTasks: set<nat>
    var currentTasksMutex: Option<nat>
    var port: seq<Packet>
    var threads: seq<Thread<R>>
    var conns: seq<Conn<R>>
    var running: RunPc
    var aborted: bool

    ghost function View(): State<R>
      reads this
    {
      State(tasks, currentTasks, currentTasksMutex, port, threads, workers, conns, running, aborted)
    }

    ghost predicate Valid()
      reads this
    {
      Inv(callbacks, View())
    }

    /** The task object and its overlapped block can be read and written. */
    ghost predicate Usable(t: nat)
      reads this
    {
      t < |tasks| && tasks[t].destroyed == 0 && tasks[t].overlapped
    }

    /** The task whose packet worker `w` has, and the task that thread `i` is issuing. */
    ghost function Packet(w: nat): nat
      requires w < |threads| && WTask(threads[w].pc).Some?
      reads this
    {
      threads[w].pc.t
    }

    ghost function Issued(i: nat): nat
      requires i < |threads| && ITask(threads[i].issue).Some?
      reads this
    {
      threads[i].issue.t
    }

    constructor (callbacks: Callbacks<R>, workers: nat, others: nat)
      ensures this.callbacks == callbacks && this.workers == workers
      ensures Valid() && View() == Init(workers, others)
    {
      this.callbacks, this.workers := callbacks, workers;
      tasks, currentTasks, currentTasksMutex, port, conns, running, aborted := [], {}, None, [], [], Serving, false;
      threads := seq(workers, _ => Thread(Idle, NoIssue, None, []))
               + seq(others, _ => Thread(NotWorker, NoIssue, None, []));
      new;
      InitInv(callbacks, workers, others);
    }

    // ------------------------------------------------------------ updates of single fields

    method GoTo(w: nat, pc: WorkerPc<R>)
      requires w < |threads|
      modifies this`threads
      ensures threads == old(threads)[w := old(threads)[w].(pc := pc)]
    {
      threads := threads[w := threads[w].(pc := pc)];
    }

    method GoToIssue(i: nat, issue: IssuePc)
      requires i < |threads|
      modifies this`threads
      ensures threads == old(threads)[i := old(threads)[i].(issue := issue)]
    {
      threads := threads[i := threads[i].(issue := issue)];
    }

    /** AsyncTask::incRef. */
    method AddRef(t: nat)
      requires t < |tasks|
      modifies this`tasks
      ensures tasks == old(tasks)[t := IncRef(old(tasks)[t])]
    {
      var task := tasks[t];
      tasks := tasks[t := task.(rc := task.rc + 1)];
    }

    /** AsyncTask::decRef: the object is destroyed when the count reaches zero. */
    method DropRef(t: nat)
      requires t < |tasks|
      modifies this`tasks
      ensures tasks == old(tasks)[t := DecRef(old(tasks)[t])]
    {
      var task := tasks[t];
      if task.rc == 0 {
        tasks := tasks[t := task.(rc := SIZE_MAX)];
      } else {
        tasks := tasks[t := task.(rc := task.rc - 1)];
        if task.rc == 1 {
          tasks := tasks[t := tasks[t].(destroyed := task.destroyed + 1)];
        }
      }
    }

    method LoseToken(c: nat)
      modifies this`conns
      ensures conns == if c < |old(conns)| then old(conns)[c := old(conns)[c].(token := Lost)] else old(conns)
    {
      if c < |conns| {
        conns := conns[c := conns[c].(token := Lost)];
      }
    }

    /** A copy of the fields, to call the functions of the state machine on. */
    method ViewNow() returns (s: State<R>)
      ensures s == View()
    {
      s := State(tasks, currentTasks, currentTasksMutex, port, threads, workers, conns, running, aborted);
    }

    method GiveUpOwned(i: nat)
      requires i < |threads|
      modifies this`conns
      ensures View() == GiveUp(old(View()), i)
    {
      var s := ViewNow();
      var owned := Owner(s, i);
      if owned.Some? { LoseToken(owned.value); }
    }

    // ------------------------------------------------------------ readAsync, writeAsync, acceptAsync

    method Call(i: nat, kind: Kind)
      requires Valid() && !aborted && CanExternal(View(), i, kind)
      modifies this`tasks, this`threads, this`conns
      ensures View() == DoExternal(callbacks, old(View()), i, kind) && Valid()
      ensures |tasks| == |old(tasks)| + 1 && tasks[|old(tasks)|].kind == kind && tasks[|old(tasks)|].issuer == i
      ensures threads[i].issue == Allocated(|old(tasks)|)
    {
      KeepStep(callbacks, View(), Action.External(i, kind));
      tasks := tasks + [NewTask(kind, |conns|, i)];
      if kind == Read {
        conns := conns + [Conn(callbacks.initial, [], [], [], Held(i))];
      }
      GoToIssue(i, Allocated(|tasks| - 1));
    }

    method AllocOverlapped(i: nat, ok: bool)
      requires Valid() && !aborted && CanAllocOverlapped(View(), i)
      modifies this`tasks, this`threads, this`conns
      ensures View() == DoAllocOverlapped(old(View()), i, ok) && Valid()
      ensures var k := tasks[old(Issued(i))];
              k.destroyed == 0 && k.overlapped == ok && k.rc == B(Counted(k.kind)) + B(ok)
    {
      IssuerSees(callbacks, View(), i);
      KeepStep(callbacks, View(), Action.Issue(i, IssueAct.AllocOverlapped(ok)));
      var t := threads[i].issue.t;
      if ok {
        AddRef(t);
        tasks := tasks[t := tasks[t].(overlapped := true, ovRef := true)];
        GoToIssue(i, Built(t));
      } else {
        GiveUpOwned(i);
        GoToIssue(i, Leaving(t, false));
      }
    }

    method StartIo(i: nat, ok: bool)
      requires Valid() && !aborted && CanStartIo(View(), i, ok)
      modifies this`tasks, this`threads, this`conns
      ensures View() == DoStartIo(old(View()), i, ok) && Valid()
      ensures var k := old(tasks[Issued(i)]); k.destroyed == 0 && k.overlapped && k.stage == Unissued
      ensures var k := old(tasks[Issued(i)]);
              k.kind != Accept ==> k.conn < |old(conns)| && old(conns)[k.conn].token == Held(i)
    {
      IssuerSees(callbacks, View(), i);
      if tasks[threads[i].issue.t].kind != Accept { IssuerOwns(callbacks, View(), i); }
      KeepStep(callbacks, View(), Action.Issue(i, IssueAct.StartIo(ok)));
      var t := threads[i].issue.t;
      var task := tasks[t];
      if ok {
        if task.kind != Accept && task.conn < |conns| {
          var c := conns[task.conn];
          if task.kind == Write {
            conns := conns[task.conn := c.(token := Responded(t))];
          } else {
            conns := conns[task.conn := c.(started := c.started + [t], token := InFlight(t))];
          }
        }
        tasks := tasks[t := task.(stage := InKernel)];
        threads := threads[i := threads[i].(issue := Started(t), ios := threads[i].ios + [t])];
      } else {
        GiveUpOwned(i);
        GoToIssue(i, Leaving(t, false));
      }
    }

    method PostLock(i: nat)
      requires Valid() && !aborted && CanPostLock(View(), i)
      modifies this`currentTasksMutex, this`threads
      ensures View() == DoPostLock(old(View()), i) && Valid()
    {
      KeepStep(callbacks, View(), Action.Issue(i, IssueAct.PostLock));
      currentTasksMutex := Some(i);
      GoToIssue(i, Posting(threads[i].issue.t));
    }

    method PostInsert(i: nat, ok: bool)
      requires Valid() && !aborted && CanPostInsert(View(), i, ok)
      modifies this`tasks, this`currentTasks, this`threads
      ensures View() == DoPostInsert(old(View()), i, ok) && Valid()
      ensures old(currentTasksMutex) == Some(i) && old(Issued(i) !in currentTasks && !tasks[Issued(i)].taken)
      ensures old(tasks[Issued(i)].destroyed) == 0
      ensures currentTasks == old(currentTasks) + if ok then {old(Issued(i))} else {}
    {
      IssuerSees(callbacks, View(), i);
      KeepStep(callbacks, View(), Action.Issue(i, IssueAct.PostInsert(ok)));
      var t := threads[i].issue.t;
      if ok {
        AddRef(t);
        tasks := tasks[t := tasks[t].(posted := true)];
        currentTasks := currentTasks + {t};
        GoToIssue(i, PostedLocked(t));
      } else {
        GoToIssue(i, RefusedLocked(t));
      }
    }

    method PostUnlock(i: nat)
      requires Valid() && !aborted && CanPostUnlock(View(), i)
      modifies this`currentTasksMutex, this`threads
      ensures View() == DoPostUnlock(old(View()), i) && Valid()
      ensures old(currentTasksMutex) == Some(i) && currentTasksMutex == None
    {
      IssuerSees(callbacks, View(), i);
      KeepStep(callbacks, View(), Action.Issue(i, IssueAct.PostUnlock));
      var issue := threads[i].issue;
      currentTasksMutex := None;
      if issue.PostedLocked? { GoToIssue(i, Counting(issue.t)); } else { GoToIssue(i, Leaving(issue.t, false)); }
    }

    method CountHandle(i: nat)
      requires Valid() && !aborted && CanCountHandle(View(), i)
      modifies this`tasks, this`threads
      ensures View() == DoCountHandle(old(View()), i) && Valid()
      ensures var k := old(tasks[Issued(i)]);
              if Counted(k.kind) then k.destroyed == 0 && k.rc > 0
              else k.destroyed > 0 <==> k.stage == Spent && k.taken
    {
      IssuerSees(callbacks, View(), i);
      KeepStep(callbacks, View(), Action.Issue(i, IssueAct.CountHandle));
      var t := threads[i].issue.t;
      AddRef(t);
      tasks := tasks[t := tasks[t].(handle := true, handed := true)];
      GoToIssue(i, Leaving(t, true));
    }

    method Leave(i: nat)
      requires Valid() && !aborted && CanLeave(View(), i)
      modifies this`tasks, this`threads
      ensures View() == DoLeave(old(View()), i) && Valid()
      ensures var k, k' := old(tasks[Issued(i)]), tasks[old(Issued(i))];
              Counted(k.kind) ==> k.rc > 0 && k'.rc == k.rc - 1 && k'.destroyed == B(k'.rc == 0)
    {
      IssuerSees(callbacks, View(), i);
      KeepLeave(callbacks, View(), i);
      var Leaving(t, ok) := threads[i].issue;
      if Counted(tasks[t].kind) {
        DropRef(t);
      } else if !ok {
        tasks := tasks[t := tasks[t].(destroyed := tasks[t].destroyed + 1)];
      }
      GoToIssue(i, NoIssue);
      var pc := threads[i].pc;
      if pc.Calling? && pc.cb.CbWait? {
        GoTo(i, Calling(pc.t, if !ok then CbEnd(false) else if pc.cb.last then CbEnd(true) else CbNextAccept));
      }
    }

    method ReleaseHandle(t: nat)
      requires Valid() && !aborted && CanDropHandle(View(), t)
      modifies this`tasks
      ensures View() == DoDropHandle(old(View()), t) && Valid()
      ensures Counted(tasks[t].kind) ==>
                old(tasks[t].rc) > 0 && tasks[t].rc == old(tasks[t].rc) - 1 && tasks[t].destroyed == B(tasks[t].rc == 0)
    {
      TaskSees(callbacks, View(), t);
      KeepStep(callbacks, View(), Action.DropHandle(t));
      DropRef(t);
      tasks := tasks[t := tasks[t].(handle := false)];
    }

    // ------------------------------------------------------------ the kernel

    method CompleteIo(t: nat, data: string)
      requires Valid() && !aborted && CanComplete(View(), t)
      modifies this`tasks, this`port
      ensures View() == DoComplete(old(View()), t, data) && Valid()
      ensures old(Usable(t)) && !tasks[t].taken && tasks[t].data == data
    {
      TaskSees(callbacks, View(), t);
      KeepStep(callbacks, View(), Action.Complete(t, data));
      tasks := tasks[t := tasks[t].(stage := Queued, data := data)];
      port := port + [Completion(t)];
    }

    // ------------------------------------------------------------ the worker loop

    method GetPacket(w: nat)
      requires Valid() && !aborted && CanDequeue(View(), w)
      modifies this`tasks, this`port, this`threads
      ensures View() == DoDequeue(old(View()), w) && Valid()
      ensures port == old(port)[1..]
      ensures threads[w].pc == match old(port[0]) case NullKey => Exited(true) case Completion(t) => Dequeued(t)
      ensures old(port[0]).Completion? ==> Usable(old(port[0]).t) && !tasks[old(port[0]).t].taken
    {
      if port[0].Completion? { HeadSees(callbacks, View()); }
      KeepStep(callbacks, View(), Action.Work(w, Dequeue));
      var packet := port[0];
      port := port[1..];
      match packet
      case NullKey => GoTo(w, Exited(true));
      case Completion(t) =>
        tasks := tasks[t := tasks[t].(stage := AtWorker(w))];
        GoTo(w, Dequeued(t));
    }

    method GetPacketFails(w: nat, err: nat, consume: bool)
      requires Valid() && !aborted && CanDequeueFail(View(), w, consume)
      modifies this`tasks, this`port, this`threads
      ensures View() == DoDequeueFail(old(View()), w, err, consume) && Valid()
      ensures threads[w].pc == Exited(false) && threads[w].exc == Some(err)
    {
      KeepStep(callbacks, View(), Action.Work(w, DequeueFail(err, consume)));
      if consume {
        var t := port[0].t;
        tasks := tasks[t := tasks[t].(stage := Spent)];
        port := port[1..];
      }
      threads := threads[w := threads[w].(pc := Exited(false), exc := Some(err))];
    }

    method TakeRaw(w: nat)
      requires Valid() && !aborted && CanTakeRaw(View(), w)
      modifies this`tasks, this`threads
      ensures View() == DoTakeRaw(old(View()), w) && Valid()
      ensures old(Usable(Packet(w)))
    {
      WorkerSees(callbacks, View(), w);
      KeepStep(callbacks, View(), Action.Work(w, WorkAct.TakeRaw));
      var t := threads[w].pc.t;
      AddRef(t);
      GoTo(w, WantLock(t));
    }

    method LockTasks(w: nat)
      requires Valid() && !aborted && CanLock(View(), w)
      modifies this`currentTasksMutex, this`threads
      ensures View() == DoLock(old(View()), w) && Valid()
    {
      KeepStep(callbacks, View(), Action.Work(w, Lock));
      currentTasksMutex := Some(w);
      GoTo(w, Locked(threads[w].pc.t));
    }

    method CheckMember(w: nat)
      requires Valid() && !aborted && CanCheck(View(), w)
      modifies this`tasks, this`currentTasks, this`threads
      ensures View() == DoCheck(old(View()), w) && Valid()
      ensures old(Usable(Packet(w))) && old(currentTasksMutex) == Some(w)
      ensures threads[w].pc.Removed? <==> old(tasks[Packet(w)].posted)
      ensures old(Packet(w)) !in currentTasks && tasks[old(Packet(w))].taken == old(tasks[Packet(w)].posted)
    {
      WorkerSees(callbacks, View(), w);
      KeepStep(callbacks, View(), Action.Work(w, Check));
      var t := threads[w].pc.t;
      if t in currentTasks {
        currentTasks := currentTasks - {t};
        DropRef(t);
        tasks := tasks[t := tasks[t].(taken := true)];
        GoTo(w, Removed(t));
      } else {
        GoTo(w, Unmatched(t));
      }
    }

    method DropOverlapped(w: nat)
      requires Valid() && !aborted && CanDropOverlapped(View(), w)
      modifies this`tasks, this`threads
      ensures View() == DoDropOverlapped(old(View()), w) && Valid()
      ensures old(Usable(Packet(w)))
      ensures Usable(old(Packet(w)))
      ensures tasks[old(Packet(w))].rc + 1 == old(tasks[Packet(w)].rc)
    {
      WorkerSees(callbacks, View(), w);
      KeepStep(callbacks, View(), Action.Work(w, WorkAct.DropOverlapped));
      var t := threads[w].pc.t;
      DropRef(t);
      tasks := tasks[t := tasks[t].(ovRef := false)];
      GoTo(w, Dropped(t));
    }

    method UnlockTasks(w: nat)
      requires Valid() && !aborted && CanUnlock(View(), w)
      modifies this`currentTasksMutex, this`threads
      ensures View() == DoUnlock(old(View()), w) && Valid()
      ensures old(currentTasksMutex) == Some(w) && currentTasksMutex == None
      ensures var t := old(Packet(w));
              threads[w].pc == if tasks[t].taken then Dispatch(t) else DropRaw(t, true)
    {
      WorkerSees(callbacks, View(), w);
      KeepStep(callbacks, View(), Action.Work(w, Unlock));
      var pc := threads[w].pc;
      currentTasksMutex := None;
      if pc.Dropped? { GoTo(w, Dispatch(pc.t)); } else { GoTo(w, DropRaw(pc.t, true)); }
    }

    method TakeTask(w: nat)
      requires Valid() && !aborted && CanTakeTask(View(), w)
      modifies this`tasks, this`threads
      ensures View() == DoTakeTask(old(View()), w) && Valid()
      ensures old(Usable(Packet(w)))
    {
      WorkerSees(callbacks, View(), w);
      KeepStep(callbacks, View(), Action.Work(w, WorkAct.TakeTask));
      var t := threads[w].pc.t;
      AddRef(t);
      GoTo(w, WantAccess(t));
    }

    method LockAccess(w: nat)
      requires Valid() && !aborted && AtWorkerPc(View(), w) && threads[w].pc.WantAccess?
      modifies this`tasks, this`threads
      ensures old(CanLockAccess(View(), w) && Usable(Packet(w))) && old(currentTasksMutex) != Some(w)
      ensures View() == DoLockAccess(old(View()), w) && Valid()
    {
      WorkerSees(callbacks, View(), w);
      KeepStep(callbacks, View(), Action.Work(w, WorkAct.LockAccess));
      var t := threads[w].pc.t;
      tasks := tasks[t := tasks[t].(access := Some(w))];
      GoTo(w, Access(t));
    }

    method MarkDone(w: nat)
      requires Valid() && !aborted && CanMarkDone(View(), w)
      modifies this`tasks, this`threads, this`conns
      ensures View() == DoMarkDone(old(View()), w) && Valid()
      ensures old(Usable(Packet(w))) && old(tasks[Packet(w)].starts) == 0 && old(tasks[Packet(w)].access) == Some(w)
      ensures var k := tasks[old(Packet(w))];
              k.status == Done && k.starts == 1 && (k.kind != Accept ==> k.szRead == |k.data|)
    {
      WorkerSees(callbacks, View(), w);
      KeepStep(callbacks, View(), Action.Work(w, WorkAct.MarkDone));
      var t := threads[w].pc.t;
      var task := tasks[t];
      var sz := if task.kind == Accept then task.szRead else task.szRead + |task.data|;
      tasks := tasks[t := task.(szRead := sz, status := Done, starts := task.starts + 1)];
      if task.kind == Read && task.conn < |conns| {
        conns := conns[task.conn := conns[task.conn].(token := Held(w))];
      }
      threads := threads[w := threads[w].(pc := Calling(t, CbStart), ios := [])];
    }

    method UnlockAccess(w: nat)
      requires Valid() && !aborted && CanUnlockAccess(View(), w)
      modifies this`tasks, this`threads
      ensures View() == DoUnlockAccess(old(View()), w) && Valid()
      ensures old(Usable(Packet(w))) && old(tasks[Packet(w)].access) == Some(w)
    {
      WorkerSees(callbacks, View(), w);
      KeepStep(callbacks, View(), Action.Work(w, WorkAct.UnlockAccess));
      var Returned(t, ok) := threads[w].pc;
      tasks := tasks[t := tasks[t].(access := None)];
      GoTo(w, DropTask(t, ok));
    }

    method ReleaseTyped(w: nat)
      requires Valid() && !aborted && CanReleaseTask(View(), w)
      modifies this`tasks, this`threads
      ensures View() == DoReleaseTask(old(View()), w) && Valid()
      ensures old(Usable(Packet(w)))
      ensures Usable(old(Packet(w)))
      ensures tasks[old(Packet(w))].rc + 1 == old(tasks[Packet(w)].rc)
    {
      WorkerSees(callbacks, View(), w);
      KeepStep(callbacks, View(), Action.Work(w, WorkAct.ReleaseTask));
      var DropTask(t, ok) := threads[w].pc;
      DropRef(t);
      GoTo(w, DropRaw(t, ok));
    }

    method ReleaseRawPointer(w: nat)
      requires Valid() && !aborted && CanReleaseRaw(View(), w)
      modifies this`tasks, this`threads
      ensures View() == DoReleaseRaw(old(View()), w) && Valid()
      ensures old(Usable(Packet(w))) && tasks[old(Packet(w))].rc + 1 == old(tasks[Packet(w)].rc)
      ensures tasks[old(Packet(w))].destroyed == B(tasks[old(Packet(w))].rc == 0)
    {
      WorkerSees(callbacks, View(), w);
      KeepReleaseRaw(callbacks, View(), w);
      var DropRaw(t, ok) := threads[w].pc;
      DropRef(t);
      tasks := tasks[t := tasks[t].(stage := Spent)];
      GoTo(w, if ok then Idle else Exited(false));
    }

    // ------------------------------------------------------------ the callbacks

    method EnterCallback(w: nat)
      requires Valid() && !aborted && CanEnter(View(), w)
      modifies this`threads, this`conns
      ensures View() == DoEnter(callbacks, old(View()), w) && Valid()
      ensures var t := old(Packet(w));
              tasks[t].kind == Read ==>
                threads[w].pc == Calling(t, CbFields(conns[tasks[t].conn].reader, tasks[t].data))
    {
      WorkerSees(callbacks, View(), w);
      KeepStep(callbacks, View(), Action.Call(w, Enter));
      var t := threads[w].pc.t;
      var task := tasks[t];
      match task.kind
      case Read =>
        var chunk := if task.szRead <= |task.data| then task.data[..task.szRead] else task.data;
        assert task.data[..|task.data|] == task.data;
        GoTo(w, Calling(t, CbFields(conns[task.conn].reader, chunk)));
      case Write => GoTo(w, Calling(t, CbEnd(true)));
      case Accept =>
        conns := conns + [Conn(callbacks.initial, [], [], [], Held(w))];
        GoTo(w, Calling(t, CbIssue(|conns| - 1, Read)));
    }

    method StoreFields(w: nat)
      requires Valid() && !aborted && CanStore(View(), w)
      modifies this`threads, this`conns, this`aborted
      ensures View() == DoStore(callbacks, old(View()), w) && Valid()
      ensures var t := old(Packet(w));
              var out := callbacks.onRead(old(conns[tasks[Packet(w)].conn].reader), tasks[t].data);
              && (aborted <==> out.verdict == Abort)
              && (!aborted ==>
                    && conns[tasks[t].conn].reader == out.next
                    && threads[w].pc.cb == CbIssue(tasks[t].conn, if out.verdict == Respond then Write else Read))
    {
      CallbackReads(callbacks, View(), w);
      CallbackFields(callbacks, View(), w);
      KeepStep(callbacks, View(), Action.Call(w, Store));
      var Calling(t, CbFields(local, chunk)) := threads[w].pc;
      var c := tasks[t].conn;
      var out := callbacks.onRead(local, chunk);
      if out.verdict == Abort {
        aborted := true;
      } else {
        conns := conns[c := conns[c].(reader := out.next, chunks := conns[c].chunks + [chunk],
                                      verdicts := conns[c].verdicts + [out.verdict])];
        GoTo(w, Calling(t, CbIssue(c, if out.verdict == ReadMore then Read else Write)));
      }
    }

    method FailCallback(w: nat)
      requires Valid() && !aborted && CanFail(View(), w)
      modifies this`threads, this`conns
      ensures View() == DoFail(old(View()), w) && Valid()
      ensures forall c | old(Owner(View(), w)) == Some(c) :: c < |conns| && conns[c].token == Lost
    {
      OwnedConn(callbacks, View(), w);
      KeepStep(callbacks, View(), Action.Call(w, Fail));
      GiveUpOwned(w);
      GoTo(w, Calling(threads[w].pc.t, CbEnd(false)));
    }

    method StartNext(w: nat)
      requires Valid() && !aborted && CanStart(View(), w)
      modifies this`tasks, this`threads
      ensures View() == DoStart(old(View()), w) && Valid()
      ensures |tasks| == |old(tasks)| + 1 && threads[w].issue == Allocated(|old(tasks)|)
      ensures var k, cb := tasks[|old(tasks)|], old(threads[w].pc.cb);
              k.issuer == w && if cb.CbIssue? then k.kind == cb.op && k.conn == cb.conn else k.kind == Accept
    {
      KeepStep(callbacks, View(), Action.Call(w, Start));
      var pc := threads[w].pc;
      var last := tasks[pc.t].kind != Accept || pc.cb.CbNextAccept?;
      var task := if pc.cb.CbIssue? then NewTask(pc.cb.op, pc.cb.conn, w) else NewTask(Accept, |conns|, w);
      tasks := tasks + [task];
      threads := threads[w := threads[w].(pc := Calling(pc.t, CbWait(last)), issue := Allocated(|tasks| - 1))];
    }

    method ReturnFromCallback(w: nat, err: nat)
      requires Valid() && !aborted && CanFinish(View(), w)
      modifies this`threads
      ensures View() == DoFinish(old(View()), w, err) && Valid()
      ensures var k, ok := tasks[old(Packet(w))].kind, old(threads[w].pc.cb.ok);
              && (threads[w].exc == if ok then None else Some(err))
              && (ok ==> |threads[w].ios| == match k case Read => 1 case Write => 0 case Accept => 2)
              && (forall x | x in threads[w].ios :: x < |tasks| && tasks[x].issuer == w && (ok ==> tasks[x].posted))
    {
      CallbackEnds(callbacks, View(), w);
      KeepStep(callbacks, View(), Action.Call(w, Finish(err)));
      var Calling(t, CbEnd(ok)) := threads[w].pc;
      threads := threads[w := threads[w].(pc := Returned(t, ok), exc := if ok then None else Some(err))];
    }

    // ------------------------------------------------------------ run

    method WakeRun()
      requires Valid() && !aborted && CanWake(View())
      modifies this`running
      ensures View() == DoWake(old(View())) && Valid()
    {
      KeepStep(callbacks, View(), Action.Wake);
      running := PostingNull(workers);
    }

    method PostNullKey()
      requires Valid() && !aborted && CanPostNull(View())
      modifies this`running, this`port
      ensures View() == DoPostNull(old(View())) && Valid()
    {
      KeepStep(callbacks, View(), Action.PostNull);
      if running.left == 0 {
        running := Joining(0);
      } else {
        running := PostingNull(running.left - 1);
        port := port + [NullKey];
      }
    }

    /** The last loop of `run`: the first stored exception, in the order of the workers. */
    method FirstStored() returns (r: Option<nat>)
      requires workers <= |threads|
      ensures r == FirstException(threads, workers)
    {
      r := None;
      var i := 0;
      while i < workers && r.None?
        invariant i <= workers
        invariant r == FirstException(threads, i)
        invariant i > 0 ==> FirstException(threads, i - 1).None?
      {
        r := threads[i].exc;
        i := i + 1;
      }
      LaterIgnored(threads, i, workers);
    }

    static lemma {:induction false} LaterIgnored(ts: seq<Thread<R>>, i: nat, n: nat)
      requires i <= n <= |ts| && (i == n || FirstException(ts, i).Some?)
      ensures FirstException(ts, n) == FirstException(ts, i)
    {
      if i < n {
        LaterIgnored(ts, i, n - 1);
      }
    }

    method JoinNext()
      requires Valid() && !aborted && CanJoin(View())
      modifies this`running
      ensures View() == DoJoin(old(View())) && Valid()
    {
      KeepStep(callbacks, View(), Action.Join);
      if running.next < workers {
        running := Joining(running.next + 1);
      } else {
        var r := FirstStored();
        running := Finished(r);
      }
    }

    // ------------------------------------------------------------ following a schedule

    method IssueAction(i: nat, act: IssueAct)
      requires Valid() && !aborted && IssueEnabled(View(), i, act)
      modifies this
      ensures View() == IssueStep(old(View()), i, act) && Valid()
    {
      match act
      case AllocOverlapped(ok) => AllocOverlapped(i, ok);
      case StartIo(ok) => StartIo(i, ok);
      case PostLock => PostLock(i);
      case PostInsert(ok) => PostInsert(i, ok);
      case PostUnlock => PostUnlock(i);
      case CountHandle => CountHandle(i);
      case Leave => Leave(i);
    }

    method WorkAction(w: nat, act: WorkAct)
      requires Valid() && !aborted && WorkEnabled(View(), w, act)
      modifies this
      ensures View() == WorkStep(old(View()), w, act) && Valid()
    {
      match act
      case Dequeue => GetPacket(w);
      case DequeueFail(err, consume) => GetPacketFails(w, err, consume);
      case TakeRaw => TakeRaw(w);
      case Lock => LockTasks(w);
      case Check => CheckMember(w);
      case DropOverlapped => DropOverlapped(w);
      case Unlock => UnlockTasks(w);
      case TakeTask => TakeTask(w);
      case LockAccess => LockAccess(w);
      case MarkDone => MarkDone(w);
      case UnlockAccess => UnlockAccess(w);
      case ReleaseTask => ReleaseTyped(w);
      case ReleaseRaw => ReleaseRawPointer(w);
    }

    method CallAction(w: nat, act: CallAct)
      requires Valid() && !aborted && CallEnabled(View(), w, act)
      modifies this
      ensures View() == CallStep(callbacks, old(View()), w, act) && Valid()
    {
      match act
      case Enter => EnterCallback(w);
      case Store => StoreFields(w);
      case Fail => FailCallback(w);
      case Start => StartNext(w);
      case Finish(err) => ReturnFromCallback(w, err);
    }

    method Act(a: Action)
      requires Valid() && Enabled(View(), a)
      modifies this
      ensures View() == Step(callbacks, old(View()), a) && Valid()
    {
      match a
      case External(i, kind) => Call(i, kind);
      case Issue(i, act) => IssueAction(i, act);
      case Work(w, act) => WorkAction(w, act);
      case Call(w, act) => CallAction(w, act);
      case DropHandle(t) => ReleaseHandle(t);
      case Complete(t, data) => CompleteIo(t, data);
      case Wake => WakeRun();
      case PostNull => PostNullKey();
      case Join => JoinNext();
    }

    /** Any schedule the state machine allows can be followed on the object, ends in the state the machine computes, and
        keeps the invariant. */
    method Drive(acts: seq<Action>)
      requires Valid() && Runs(callbacks, View(), acts)
      modifies this
      ensures Valid() && View() == Exec(callbacks, old(View()), acts)
    {
      var n := 0;
      while n < |acts|
        invariant n <= |acts| && Valid()
        invariant Runs(callbacks, View(), acts[n..])
        invariant Exec(callbacks, View(), acts[n..]) == Exec(callbacks, old(View()), acts)
      {
        assert acts[n..][1..] == acts[n + 1..];
        Act(acts[n]);
        n := n + 1;
      }
    }
  }
}
