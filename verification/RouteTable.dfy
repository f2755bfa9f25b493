/** The two-level route table, its registration with rollback, and the flat map it refines. */
module RouteTable {
  import opened Basics

  datatype Handler = Handler(methodName: string, id: nat)

  /** handlerRegistries: for each path, a registry from method names to handlers. */
  type Table = map<string, map<string, Handler>>

  /** What the table stands for: one handler for each registered pair of path and method. */
  type Routes = map<(string, string), Handler>

  /** One call of registerHandler; the flags say which of its allocations would succeed. */
  datatype Attempt = Attempt(path: string, handler: Handler, buildOk: bool, reserveOk: bool, insertOk: bool)

  // ---------------------------------------------------------------- the flat machine

  ghost predicate HasPath(f: Routes, path: string) {
    exists m :: (path, m) in f
  }

  /** A registration needs its insertion to succeed and, for a new path, the reservation of a registry before it. */
  ghost predicate Succeeds(f: Routes, a: Attempt) {
    a.insertOk && (HasPath(f, a.path) || (a.buildOk && a.reserveOk))
  }

  /** A failed call changes nothing; a pair that is already there keeps its handler. */
  ghost function Registered(f: Routes, a: Attempt): Routes {
    var key := (a.path, a.handler.methodName);
    if Succeeds(f, a) && key !in f then f[key := a.handler] else f
  }

  ghost function AllRegistered(attempts: seq<Attempt>): Routes {
    if |attempts| == 0 then map[]
    else Registered(AllRegistered(attempts[..|attempts| - 1]), attempts[|attempts| - 1])
  }

  // ---------------------------------------------------------------- what the calls amount to

  /** The `k`-th call succeeds: its insertion does, and so did a call for its path before it or its own reservation. */
  ghost predicate SucceedsAt(attempts: seq<Attempt>, k: nat)
    requires k < |attempts|
    decreases k
  {
    var a := attempts[k];
    a.insertOk && ((a.buildOk && a.reserveOk) ||
                   exists j: nat | j < k :: attempts[j].path == a.path && SucceedsAt(attempts, j))
  }

  predicate For(a: Attempt, path: string, m: string) {
    a.path == path && a.handler.methodName == m
  }

  /** The `k`-th call is the first that succeeds for the pair. */
  ghost predicate FirstSuccess(attempts: seq<Attempt>, k: nat, path: string, m: string) {
    && k < |attempts| && For(attempts[k], path, m) && SucceedsAt(attempts, k)
    && forall j: nat | j < k && For(attempts[j], path, m) :: !SucceedsAt(attempts, j)
  }

  /** Some call for the path succeeds. */
  ghost predicate Served(attempts: seq<Attempt>, path: string) {
    exists k: nat | k < |attempts| :: attempts[k].path == path && SucceedsAt(attempts, k)
  }

  lemma {:induction false} SucceedsBefore(attempts: seq<Attempt>, n: nat, k: nat)
    requires k < n <= |attempts|
    ensures SucceedsAt(attempts[..n], k) <==> SucceedsAt(attempts, k)
    decreases k
  {
    forall j: nat | j < k ensures SucceedsAt(attempts[..n], j) <==> SucceedsAt(attempts, j) {
      SucceedsBefore(attempts, n, j);
    }
  }

  lemma ServedBefore(attempts: seq<Attempt>, n: nat, path: string)
    requires n <= |attempts|
    ensures Served(attempts[..n], path) <==>
            exists k: nat | k < n :: attempts[k].path == path && SucceedsAt(attempts, k)
  {
    forall k: nat | k < n ensures SucceedsAt(attempts[..n], k) <==> SucceedsAt(attempts, k) {
      SucceedsBefore(attempts, n, k);
    }
  }

  /** The flat map has the paths that some call registered, and a call succeeds on it exactly if it does in the
      sequence of calls. */
  lemma {:induction false} PathsServed(attempts: seq<Attempt>, path: string)
    ensures HasPath(AllRegistered(attempts), path) <==> Served(attempts, path)
    decreases |attempts|, 0
  {
    if |attempts| > 0 {
      var n := |attempts| - 1;
      PathsServed(attempts[..n], path);
      ServedBefore(attempts, n, path);
      LastSucceeds(attempts);
      PathsKept(AllRegistered(attempts[..n]), attempts[n], path);
    }
  }

  lemma {:induction false} LastSucceeds(attempts: seq<Attempt>)
    requires |attempts| > 0
    ensures Succeeds(AllRegistered(attempts[..|attempts| - 1]), attempts[|attempts| - 1])
       <==> SucceedsAt(attempts, |attempts| - 1)
    decreases |attempts| - 1, 1
  {
    var n := |attempts| - 1;
    PathsServed(attempts[..n], attempts[n].path);
    ServedBefore(attempts, n, attempts[n].path);
  }

  lemma PathsKept(f: Routes, a: Attempt, path: string)
    ensures HasPath(Registered(f, a), path) <==> HasPath(f, path) || (Succeeds(f, a) && a.path == path)
  {
    var f', key := Registered(f, a), (a.path, a.handler.methodName);
    if HasPath(f, path) {
      var m :| (path, m) in f;
      assert (path, m) in f';
    }
    if Succeeds(f, a) { assert key in f'; }
  }

  /** What one call does to one pair. */
  lemma OnePair(f: Routes, a: Attempt, path: string, m: string)
    ensures var f' := Registered(f, a);
            && ((path, m) in f' <==> (path, m) in f || (For(a, path, m) && Succeeds(f, a)))
            && ((path, m) in f ==> (path, m) in f' && f'[(path, m)] == f[(path, m)])
            && ((path, m) in f' && (path, m) !in f ==> f'[(path, m)] == a.handler)
  {
  }

  lemma FirstBefore(attempts: seq<Attempt>, n: nat, k: nat, path: string, m: string)
    requires n <= |attempts|
    ensures FirstSuccess(attempts[..n], k, path, m) <==> k < n && FirstSuccess(attempts, k, path, m)
  {
    forall j: nat | j < n ensures SucceedsAt(attempts[..n], j) <==> SucceedsAt(attempts, j) {
      SucceedsBefore(attempts, n, j);
    }
  }

  lemma {:induction false} EarliestSuccess(attempts: seq<Attempt>, j: nat, path: string, m: string)
    requires j < |attempts| && For(attempts[j], path, m) && SucceedsAt(attempts, j)
    ensures exists k: nat | k <= j :: FirstSuccess(attempts, k, path, m)
  {
    if i: nat :| i < j && For(attempts[i], path, m) && SucceedsAt(attempts, i) {
      EarliestSuccess(attempts, i, path, m);
    } else {
      assert FirstSuccess(attempts, j, path, m);
    }
  }

  /** The flat map holds, for each pair, the handler of the first call that succeeded for it. */
  lemma FirstRegistered(attempts: seq<Attempt>, path: string, m: string)
    ensures (path, m) in AllRegistered(attempts) <==> exists k: nat :: FirstSuccess(attempts, k, path, m)
    ensures forall k: nat :: FirstSuccess(attempts, k, path, m) ==>
              (path, m) in AllRegistered(attempts) && AllRegistered(attempts)[(path, m)] == attempts[k].handler
  {
    if (path, m) in AllRegistered(attempts) {
      RegisteredOnce(attempts, path, m);
    }
    forall k: nat | FirstSuccess(attempts, k, path, m)
      ensures (path, m) in AllRegistered(attempts) && AllRegistered(attempts)[(path, m)] == attempts[k].handler
    {
      FirstStays(attempts, k, path, m);
    }
  }

  lemma {:induction false} RegisteredOnce(attempts: seq<Attempt>, path: string, m: string)
    requires (path, m) in AllRegistered(attempts)
    ensures exists k: nat :: FirstSuccess(attempts, k, path, m)
  {
    hide SucceedsAt, FirstSuccess, Succeeds, Registered;
    var n := |attempts| - 1;
    OnePair(AllRegistered(attempts[..n]), attempts[n], path, m);
    if (path, m) in AllRegistered(attempts[..n]) {
      RegisteredOnce(attempts[..n], path, m);
      var k: nat :| FirstSuccess(attempts[..n], k, path, m);
      FirstBefore(attempts, n, k, path, m);
    } else {
      LastSucceeds(attempts);
      EarliestSuccess(attempts, n, path, m);
    }
  }

  lemma {:induction false} FirstStays(attempts: seq<Attempt>, k: nat, path: string, m: string)
    requires FirstSuccess(attempts, k, path, m)
    ensures (path, m) in AllRegistered(attempts) && AllRegistered(attempts)[(path, m)] == attempts[k].handler
  {
    hide SucceedsAt, Succeeds, Registered;
    var n := |attempts| - 1;
    OnePair(AllRegistered(attempts[..n]), attempts[n], path, m);
    FirstBefore(attempts, n, k, path, m);
    if k < n {
      FirstStays(attempts[..n], k, path, m);
    } else {
      LastSucceeds(attempts);
      if (path, m) in AllRegistered(attempts[..n]) {
        RegisteredOnce(attempts[..n], path, m);
        var j: nat :| FirstSuccess(attempts[..n], j, path, m);
        FirstBefore(attempts, n, j, path, m);
      }
    }
  }

  // ---------------------------------------------------------------- dispatch

  datatype Reply = Handled(handler: Handler) | MethodNotAllowed | NotFound

  ghost function ReplyOf(f: Routes, path: string, m: string): Reply {
    if (path, m) in f then Handled(f[(path, m)])
    else if HasPath(f, path) then MethodNotAllowed
    else NotFound
  }

  lemma ServedIffFirst(history: seq<Attempt>, path: string)
    ensures Served(history, path) <==> exists k: nat, m :: FirstSuccess(history, k, path, m)
  {
    if Served(history, path) {
      var k: nat :| k < |history| && history[k].path == path && SucceedsAt(history, k);
      EarliestSuccess(history, k, path, history[k].handler.methodName);
    }
  }

  /** What a lookup answers, in terms of the calls of registerHandler alone: the handler of the first successful call
      for the pair; 405 if there is none, but one for the path and another method; 404 if there is none for the path. */
  lemma ReplyMeans(history: seq<Attempt>, path: string, m: string)
    ensures var r := ReplyOf(AllRegistered(history), path, m);
            && (forall h :: r == Handled(h) <==>
                              exists k: nat :: FirstSuccess(history, k, path, m) && history[k].handler == h)
            && (r.MethodNotAllowed? <==>
                  && (forall k: nat :: !FirstSuccess(history, k, path, m))
                  && exists k: nat, m' :: FirstSuccess(history, k, path, m'))
            && (r.NotFound? <==> forall k: nat, m' :: !FirstSuccess(history, k, path, m'))
  {
    FirstRegistered(history, path, m);
    PathsServed(history, path);
    ServedIffFirst(history, path);
  }

  // ---------------------------------------------------------------- the table

  /** The table holds the pairs of `f`, and no path has an empty registry. */
  ghost predicate Represents(t: Table, f: Routes) {
    && (forall p, m :: (p, m) in f <==> p in t && m in t[p])
    && (forall p, m :: p in t && m in t[p] ==> f[(p, m)] == t[p][m])
    && (forall p :: p in t ==> t[p] != map[])
  }

  lemma PathOfTable(t: Table, f: Routes, path: string)
    requires Represents(t, f)
    ensures path in t <==> HasPath(f, path)
  {
    if path in t {
      var m :| m in t[path];
      assert (path, m) in f;
    }
  }

  /** HashMap::insert: an entry that is already there stays. */
  function Extended(registry: map<string, Handler>, handler: Handler): map<string, Handler> {
    if handler.methodName in registry then registry else registry[handler.methodName := handler]
  }

  function WithHandler(t: Table, a: Attempt): Table {
    t[a.path := Extended(if a.path in t then t[a.path] else map[], a.handler)]
  }

  lemma InsertedAt(t: Table, f: Routes, a: Attempt, p: string, m: string)
    requires Represents(t, f) && Succeeds(f, a)
    ensures var t', f' := WithHandler(t, a), Registered(f, a);
            && ((p, m) in f' <==> p in t' && m in t'[p])
            && ((p, m) in f' ==> f'[(p, m)] == t'[p][m])
  {
    assert (p, m) in f <==> p in t && m in t[p];
    var key := (a.path, a.handler.methodName);
    assert key in f <==> key.0 in t && key.1 in t[key.0];
  }

  lemma Inserted(t: Table, f: Routes, a: Attempt)
    requires Represents(t, f) && Succeeds(f, a)
    ensures Represents(WithHandler(t, a), Registered(f, a))
  {
    var t', f' := WithHandler(t, a), Registered(f, a);
    forall p, m
      ensures (p, m) in f' <==> p in t' && m in t'[p]
      ensures (p, m) in f' ==> f'[(p, m)] == t'[p][m]
    {
      InsertedAt(t, f, a, p, m);
    }
    assert a.handler.methodName in t'[a.path];
  }

  lemma Recorded(history: seq<Attempt>, a: Attempt)
    ensures AllRegistered(history + [a]) == Registered(AllRegistered(history), a)
  {
    assert (history + [a])[..|history|] == history;
  }

  class HttpServer {
    var handlerRegistries: Table
    ghost var history: seq<Attempt>

    ghost predicate Valid()
      reads this
    {
      Represents(handlerRegistries, AllRegistered(history))
    }

    constructor ()
      ensures Valid() && history == []
    {
      handlerRegistries := map[];
      history := [];
    }

    method ReserveHandlerRegistry(name: string, buildOk: bool, insertOk: bool) returns (ok: bool)
      modifies this`handlerRegistries
      ensures ok == (buildOk && insertOk)
      ensures handlerRegistries
           == if ok && name !in old(handlerRegistries) then old(handlerRegistries)[name := map[]]
              else old(handlerRegistries)
    {
      if !buildOk { return false; }
      if !insertOk { return false; }
      if name !in handlerRegistries {
        handlerRegistries := handlerRegistries[name := map[]];
      }
      ok := true;
    }

    /** Plain removal: the assertion in the source does not hold when the guard runs after a failed reservation. */
    method RemoveHandlerRegistry(name: string)
      modifies this`handlerRegistries
      ensures handlerRegistries == old(handlerRegistries) - {name}
    {
      handlerRegistries := handlerRegistries - {name};
    }

    method InsertHandler(path: string, handler: Handler, insertOk: bool) returns (ok: bool)
      requires path in handlerRegistries
      modifies this`handlerRegistries
      ensures ok == insertOk
      ensures handlerRegistries
           == if ok then old(handlerRegistries)[path := Extended(old(handlerRegistries)[path], handler)]
              else old(handlerRegistries)
    {
      if !insertOk { return false; }
      handlerRegistries := handlerRegistries[path := Extended(handlerRegistries[path], handler)];
      ok := true;
    }

    /** After any history of calls: a failed call leaves the table as it was, no path has an empty registry, and the
        table holds what the flat map of successful calls holds.  The scope guard runs on both failing paths unless it
        has been released. */
    method RegisterHandler(a: Attempt) returns (ok: bool)
      requires Valid()
      modifies this
      ensures Valid() && history == old(history) + [a]
      ensures ok <==> SucceedsAt(history, |old(history)|)
      ensures !ok ==> handlerRegistries == old(handlerRegistries)
    {
      Recorded(history, a);
      PathOfTable(handlerRegistries, AllRegistered(history), a.path);
      ok := InsertOrRollBack(a);
      if ok { Inserted(old(handlerRegistries), AllRegistered(history), a); }
      history := history + [a];
      assert history[..|old(history)|] == old(history);
      LastSucceeds(history);
    }

    method InsertOrRollBack(a: Attempt) returns (ok: bool)
      modifies this`handlerRegistries
      ensures ok <==> a.insertOk && (a.path in old(handlerRegistries) || (a.buildOk && a.reserveOk))
      ensures handlerRegistries == if ok then WithHandler(old(handlerRegistries), a) else old(handlerRegistries)
    {
      var guarded := true;
      if a.path !in handlerRegistries {
        var reserved := ReserveHandlerRegistry(a.path, a.buildOk, a.reserveOk);
        if !reserved {
          RemoveHandlerRegistry(a.path);
          return false;
        }
      } else {
        guarded := false;
      }
      ok := InsertHandler(a.path, a.handler, a.insertOk);
      if !ok && guarded {
        RemoveHandlerRegistry(a.path);
      }
    }

    /** The two lookups of onStatusChanged. */
    method Dispatch(path: string, m: string) returns (r: Reply)
      requires Valid()
      ensures r == ReplyOf(AllRegistered(history), path, m)
      ensures forall h :: r == Handled(h) <==>
                            exists k: nat :: FirstSuccess(history, k, path, m) && history[k].handler == h
      ensures r.MethodNotAllowed? <==>
              && (forall k: nat :: !FirstSuccess(history, k, path, m))
              && exists k: nat, m' :: FirstSuccess(history, k, path, m')
      ensures r.NotFound? <==> forall k: nat, m' :: !FirstSuccess(history, k, path, m')
    {
      ReplyMeans(history, path, m);
      PathOfTable(handlerRegistries, AllRegistered(history), path);
      if path in handlerRegistries {
        var handlers := handlerRegistries[path];
        r := if m in handlers then Handled(handlers[m]) else MethodNotAllowed;
      } else {
        r := NotFound;
      }
    }
  }
}
