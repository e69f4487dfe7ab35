/** What starting and shutting down the components of all providers does, in whatever order they come. */
module Lifecycle {
  import opened Wrappers
  import opened Ids
  import opened Building
  import opened Resolving

  /** A component by the ids of its provider and its exporter. */
  datatype Key = Key(pid: Id, cid: Id)

  datatype Event = StartCalled(key: Key) | ShutdownCalled(key: Key)

  datatype LifecycleError = LifecycleError(key: Key, cause: string)

  predicate Has(ps: map<Id, Provider>, k: Key) {
    k.pid in ps && k.cid in ps[k.pid].components
  }

  function ComponentOf(ps: map<Id, Provider>, k: Key): Component
    requires Has(ps, k)
  {
    ps[k.pid].components[k.cid]
  }

  predicate CanStart(ps: map<Id, Provider>, k: Key) { Has(ps, k) && ComponentOf(ps, k).canStart }

  predicate CanShutdown(ps: map<Id, Provider>, k: Key) { Has(ps, k) && ComponentOf(ps, k).canShutdown }

  function Starts(order: seq<Key>): seq<Event> {
    seq(|order|, i requires 0 <= i < |order| => StartCalled(order[i]))
  }

  /** Shutdown of those that support it, in the order given. */
  function Stops(ps: map<Id, Provider>, order: seq<Key>): seq<Event> {
    if order == [] then []
    else
      var last := order[|order| - 1];
      Stops(ps, order[..|order| - 1]) + (if CanShutdown(ps, last) then [ShutdownCalled(last)] else [])
  }

  /** The components that have been started and stay so: all but the last when that one failed. */
  function Survivors(order: seq<Key>, err: Option<LifecycleError>): seq<Key> {
    if err.Some? && order != [] then order[..|order| - 1] else order
  }

  /**
   A start-up that called Start in this order: each component that supports it at most once, all of
   them if none failed, and otherwise up to the first that did.
   */
  ghost predicate StartedUp(ps: map<Id, Provider>, startErr: Key -> Option<string>, order: seq<Key>,
                            err: Option<LifecycleError>)
  {
    && Distinct(order)
    && (forall k <- order :: CanStart(ps, k))
    && (forall k <- Survivors(order, err) :: startErr(k).None?)
    && match err
       case None => forall k | CanStart(ps, k) :: k in order
       case Some(e) => order != [] && e.key == order[|order| - 1] && startErr(e.key) == Some(e.cause)
  }

  function StartUpEvents(ps: map<Id, Provider>, order: seq<Key>, err: Option<LifecycleError>): seq<Event> {
    Starts(order) + (if err.Some? then Stops(ps, Survivors(order, err)) else [])
  }

  /** Start-up succeeds exactly when no component that it would start fails, in every order. */
  lemma StartUpSucceedsIff(ps: map<Id, Provider>, startErr: Key -> Option<string>, order: seq<Key>,
                           err: Option<LifecycleError>)
    requires StartedUp(ps, startErr, order, err)
    ensures err.None? <==> forall k | CanStart(ps, k) :: startErr(k).None?
  {
  }

  function Times(events: seq<Event>, e: Event): nat {
    multiset(events)[e]
  }

  lemma {:induction false} StartsOnce(order: seq<Key>, k: Key)
    requires Distinct(order)
    ensures Times(Starts(order), StartCalled(k)) == if k in order then 1 else 0
    ensures Times(Starts(order), ShutdownCalled(k)) == 0
  {
    if order == [] {
    } else {
      var n := |order| - 1;
      StartsOnce(order[..n], k);
      assert Starts(order) == Starts(order[..n]) + [StartCalled(order[n])];
      assert order == order[..n] + [order[n]];
    }
  }

  lemma {:induction false} StopsOnce(ps: map<Id, Provider>, order: seq<Key>, k: Key)
    requires Distinct(order)
    ensures Times(Stops(ps, order), ShutdownCalled(k)) == if k in order && CanShutdown(ps, k) then 1 else 0
    ensures Times(Stops(ps, order), StartCalled(k)) == 0
  {
    if order == [] {
    } else {
      var n := |order| - 1;
      StopsOnce(ps, order[..n], k);
      assert order == order[..n] + [order[n]];
    }
  }

  /**
   After a failed start-up exactly the components that started and support Shutdown were shut down,
   once each; the failing one and those never reached were not, and nothing was after a success.
   */
  lemma RollbackIsExact(ps: map<Id, Provider>, startErr: Key -> Option<string>, order: seq<Key>,
                        err: Option<LifecycleError>, k: Key)
    requires StartedUp(ps, startErr, order, err)
    ensures var events := StartUpEvents(ps, order, err);
            && Times(events, StartCalled(k)) == (if k in order then 1 else 0)
            && Times(events, ShutdownCalled(k))
               == (if err.Some? && k in order && k != err.value.key && CanShutdown(ps, k) then 1 else 0)
  {
    var survivors := Survivors(order, err);
    StartsOnce(order, k);
    StopsOnce(ps, survivors, k);
    if err.Some? {
      assert order == survivors + [err.value.key];
    }
  }

  /** Rollback keeps the order in which components started. */
  lemma {:induction false} StopsKeepOrder(ps: map<Id, Provider>, order: seq<Key>, i: nat, j: nat)
    requires i < j < |order| && CanShutdown(ps, order[i]) && CanShutdown(ps, order[j])
    ensures exists m, n | 0 <= m < n < |Stops(ps, order)| ::
              Stops(ps, order)[m] == ShutdownCalled(order[i]) && Stops(ps, order)[n] == ShutdownCalled(order[j])
  {
    var last := |order| - 1;
    var before := Stops(ps, order[..last]);
    if j == last {
      var m := StopsHold(ps, order[..last], i);
      assert Stops(ps, order)[m] == before[m] && Stops(ps, order)[|before|] == ShutdownCalled(order[j]);
    } else {
      StopsKeepOrder(ps, order[..last], i, j);
      var m, n :| 0 <= m < n < |before|
                  && before[m] == ShutdownCalled(order[i]) && before[n] == ShutdownCalled(order[j]);
      assert Stops(ps, order)[m] == before[m] && Stops(ps, order)[n] == before[n];
    }
  }

  lemma {:induction false} StopsHold(ps: map<Id, Provider>, order: seq<Key>, i: nat) returns (m: nat)
    requires i < |order| && CanShutdown(ps, order[i])
    ensures m < |Stops(ps, order)| && Stops(ps, order)[m] == ShutdownCalled(order[i])
  {
    var last := |order| - 1;
    if i == last {
      m := |Stops(ps, order[..last])|;
    } else {
      m := StopsHold(ps, order[..last], i);
    }
  }

  // ----- shutting everything down

  /** Shutdown was called in this order, and these were the failures. */
  ghost predicate ShutDown(ps: map<Id, Provider>, shutErr: Key -> Option<string>, order: seq<Key>,
                           errs: seq<LifecycleError>)
  {
    && Distinct(order) && (forall k :: k in order <==> CanShutdown(ps, k))
    && Distinct(errs)
    && (forall e :: e in errs <==> CanShutdown(ps, e.key) && shutErr(e.key) == Some(e.cause))
  }

  lemma SameElements<T>(a: seq<T>, b: seq<T>)
    requires Distinct(a) && Distinct(b) && forall x :: x in a <==> x in b
    ensures multiset(a) == multiset(b)
  {
    forall x
      ensures multiset(a)[x] == multiset(b)[x]
    {
      CountsOnce(a, x);
      CountsOnce(b, x);
    }
  }

  lemma {:induction false} CountsOnce<T>(s: seq<T>, x: T)
    requires Distinct(s)
    ensures multiset(s)[x] == if x in s then 1 else 0
  {
    if s == [] {
    } else {
      var n := |s| - 1;
      CountsOnce(s[..n], x);
      assert s == s[..n] + [s[n]];
    }
  }

  /**
   Shutdown visits every component that supports it exactly once; it reports nothing exactly when
   none failed, and the collection of errors is the same for every order.
   */
  lemma ShutdownIsOrderFree(ps: map<Id, Provider>, shutErr: Key -> Option<string>,
                            order: seq<Key>, errs: seq<LifecycleError>, order': seq<Key>, errs': seq<LifecycleError>)
    requires ShutDown(ps, shutErr, order, errs) && ShutDown(ps, shutErr, order', errs')
    ensures multiset(errs) == multiset(errs') && multiset(order) == multiset(order')
    ensures errs == [] <==> forall k | CanShutdown(ps, k) :: shutErr(k).None?
  {
    SameElements(errs, errs');
    SameElements(order, order');
    if k :| CanShutdown(ps, k) && shutErr(k).Some? {
      assert LifecycleError(k, shutErr(k).value) in errs;
    }
    if errs != [] {
      assert errs[0] in errs;
    }
  }

  // ----- progress of the two walks: all keys of `pids`, and of `pid` those in `cids`, are still to come

  predicate ToCome(pids: set<Id>, pid: Id, cids: set<Id>, k: Key) {
    k.pid in pids || (k.pid == pid && k.cid in cids)
  }

  ghost predicate StartedBut(ps: map<Id, Provider>, startErr: Key -> Option<string>, started: seq<Key>,
                             pids: set<Id>, pid: Id, cids: set<Id>)
  {
    && Distinct(started)
    && (forall k <- started :: CanStart(ps, k) && startErr(k).None?)
    && (forall k | CanStart(ps, k) :: k in started <==> !ToCome(pids, pid, cids, k))
  }

  lemma StartsEnter(ps: map<Id, Provider>, startErr: Key -> Option<string>, started: seq<Key>,
                    pids: set<Id>, any: Id, pid: Id)
    requires StartedBut(ps, startErr, started, pids, any, {}) && pid in pids && pid in ps
    ensures StartedBut(ps, startErr, started, pids - {pid}, pid, ps[pid].components.Keys)
  {
    assert forall k | CanStart(ps, k) ::
        ToCome(pids, any, {}, k) <==> ToCome(pids - {pid}, pid, ps[pid].components.Keys, k);
  }

  lemma StartsSkip(ps: map<Id, Provider>, startErr: Key -> Option<string>, started: seq<Key>,
                   pids: set<Id>, pid: Id, cids: set<Id>, cid: Id)
    requires StartedBut(ps, startErr, started, pids, pid, cids) && !CanStart(ps, Key(pid, cid))
    ensures StartedBut(ps, startErr, started, pids, pid, cids - {cid})
  {
    assert forall k | CanStart(ps, k) :: ToCome(pids, pid, cids, k) <==> ToCome(pids, pid, cids - {cid}, k);
  }

  lemma StartsTake(ps: map<Id, Provider>, startErr: Key -> Option<string>, started: seq<Key>,
                   pids: set<Id>, pid: Id, cids: set<Id>, cid: Id)
    requires StartedBut(ps, startErr, started, pids, pid, cids) && CanStart(ps, Key(pid, cid))
    requires cid in cids && pid !in pids
    ensures startErr(Key(pid, cid)).None? ==>
              StartedBut(ps, startErr, started + [Key(pid, cid)], pids, pid, cids - {cid})
    ensures match startErr(Key(pid, cid))
            case None => true
            case Some(cause) =>
              StartedUp(ps, startErr, started + [Key(pid, cid)], Some(LifecycleError(Key(pid, cid), cause)))
  {
    var key := Key(pid, cid);
    assert key !in started;
    assert forall k | CanStart(ps, k) && k != key ::
        ToCome(pids, pid, cids, k) <==> ToCome(pids, pid, cids - {cid}, k);
    assert (started + [key])[..|started|] == started;
  }

  ghost predicate ShutBut(ps: map<Id, Provider>, shutErr: Key -> Option<string>, order: seq<Key>,
                          errs: seq<LifecycleError>, pids: set<Id>, pid: Id, cids: set<Id>)
  {
    && Distinct(order) && Distinct(errs)
    && (forall k :: k in order <==> CanShutdown(ps, k) && !ToCome(pids, pid, cids, k))
    && (forall e :: e in errs <==> e.key in order && shutErr(e.key) == Some(e.cause))
  }

  lemma StopsEnter(ps: map<Id, Provider>, shutErr: Key -> Option<string>, order: seq<Key>, errs: seq<LifecycleError>,
                   pids: set<Id>, any: Id, pid: Id)
    requires ShutBut(ps, shutErr, order, errs, pids, any, {}) && pid in pids && pid in ps
    ensures ShutBut(ps, shutErr, order, errs, pids - {pid}, pid, ps[pid].components.Keys)
  {
    assert forall k | CanShutdown(ps, k) ::
        ToCome(pids, any, {}, k) <==> ToCome(pids - {pid}, pid, ps[pid].components.Keys, k);
  }

  lemma StopsLeave(ps: map<Id, Provider>, shutErr: Key -> Option<string>, order: seq<Key>, errs: seq<LifecycleError>,
                   pids: set<Id>, pid: Id)
    requires ShutBut(ps, shutErr, order, errs, pids, pid, {})
    ensures ShutBut(ps, shutErr, order, errs, pids, "", {})
  {
    assert forall k | CanShutdown(ps, k) :: ToCome(pids, pid, {}, k) <==> ToCome(pids, "", {}, k);
  }

  lemma StopsSkip(ps: map<Id, Provider>, shutErr: Key -> Option<string>, order: seq<Key>, errs: seq<LifecycleError>,
                  pids: set<Id>, pid: Id, cids: set<Id>, cid: Id)
    requires ShutBut(ps, shutErr, order, errs, pids, pid, cids) && !CanShutdown(ps, Key(pid, cid))
    ensures ShutBut(ps, shutErr, order, errs, pids, pid, cids - {cid})
  {
    assert forall k | CanShutdown(ps, k) :: ToCome(pids, pid, cids, k) <==> ToCome(pids, pid, cids - {cid}, k);
  }

  lemma StopsTake(ps: map<Id, Provider>, shutErr: Key -> Option<string>, order: seq<Key>, errs: seq<LifecycleError>,
                  pids: set<Id>, pid: Id, cids: set<Id>, cid: Id)
    requires ShutBut(ps, shutErr, order, errs, pids, pid, cids) && CanShutdown(ps, Key(pid, cid))
    requires cid in cids && pid !in pids
    ensures var key := Key(pid, cid);
            var errs' := if shutErr(key).Some? then errs + [LifecycleError(key, shutErr(key).value)] else errs;
            ShutBut(ps, shutErr, order + [key], errs', pids, pid, cids - {cid})
  {
    var key := Key(pid, cid);
    assert key !in order;
    assert forall k | k != key :: ToCome(pids, pid, cids, k) <==> ToCome(pids, pid, cids - {cid}, k);
  }
}
