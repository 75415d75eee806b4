/** The connection table and the waiter map (registry.py).

The pure functions are the bodies under the lock; the class methods are proved against them, and the
step relation of module Relay uses the same functions, one lock body a step. */
module Registry {

  import opened Wrappers

  datatype Connection = Connection(name: string, sessionId: string, lastHeartbeat: real)

  type Table = map<string, Connection>

  /** A pending request: the node it was sent to and its correlation id. */
  datatype Key = Key(node: string, id: string)

  function Lookup(t: Table, name: string): Option<Connection> {
    if name in t then Some(t[name]) else None
  }

  /** The guard of `unregister`: something is there, and it is the session the caller means. */
  predicate Removable(t: Table, name: string, expected: Option<string>) {
    name in t && (expected.Some? ==> t[name].sessionId == expected.value)
  }

  function Touched(t: Table, name: string, at: real): Table {
    if name in t then t[name := t[name].(lastHeartbeat := at)] else t
  }

  function StaleOf(t: Table, cutoff: real): set<string> {
    set n | n in t && t[n].lastHeartbeat < cutoff
  }

  function KeysOf<V>(waiters: map<Key, V>, name: string): set<Key> {
    set k | k in waiters && k.node == name
  }

  /** Why waiters are woken: "connection_replaced" and "node_disconnected". */
  datatype Reason = ConnectionReplaced | NodeDisconnected

  datatype FutureState<+P> = Pending | Result(payload: P) | WaiterCancelled(reason: Reason) | TimedOut

  class Future<P(0)> {
    var state: FutureState<P>

    constructor ()
      ensures state == Pending
    {
      state := Pending;
    }
  }

  class NodeRegistry<P(0)> {
    var connections: Table
    var waiters: map<Key, Future<P>>

    /** No future is pending under two keys. */
    ghost predicate Valid()
      reads this
    {
      forall k, l :: k in waiters && l in waiters && k != l ==> waiters[k] != waiters[l]
    }

    ghost function FuturesOf(name: string): set<Future<P>>
      reads this
    {
      set k | k in waiters && k.node == name :: waiters[k]
    }

    constructor ()
      ensures Valid() && connections == map[] && waiters == map[]
    {
      connections, waiters := map[], map[];
    }

    /** Installs `conn`; a displaced connection is handed back and its node's waiters are woken, unless
    it is the very object that is installed, which `again` says. */
    method Register(conn: Connection, again: bool) returns (previous: Option<Connection>)
      requires Valid() && (again ==> Lookup(connections, conn.name) == Some(conn))
      modifies this, FuturesOf(conn.name)
      ensures Valid() && connections == old(connections)[conn.name := conn]
      ensures previous == Lookup(old(connections), conn.name)
      ensures
        if previous.Some? && !again then Woken(old(waiters), conn.name, ConnectionReplaced)
        else waiters == old(waiters) && forall f :: f in old(FuturesOf(conn.name)) ==> f.state == old(f.state)
    {
      previous := Lookup(connections, conn.name);
      connections := connections[conn.name := conn];
      if previous.Some? && !again {
        var _ := FailNodeWaiters(conn.name, ConnectionReplaced);
      }
    }

    /** Removes the entry of `name` if it is the expected session, and wakes the node's waiters; a
    guarded no-op touches nothing. */
    method Unregister(name: string, expected: Option<string>) returns (removed: Option<Connection>)
      requires Valid()
      modifies this, FuturesOf(name)
      ensures Valid()
      ensures
        if Removable(old(connections), name, expected) then
          && removed == Some(old(connections)[name])
          && connections == old(connections) - {name}
          && Woken(old(waiters), name, NodeDisconnected)
        else
          && removed == None && connections == old(connections) && waiters == old(waiters)
          && forall f :: f in old(FuturesOf(name)) ==> f.state == old(f.state)
    {
      if name !in connections || (expected.Some? && connections[name].sessionId != expected.value) {
        return None;
      }
      removed := Some(connections[name]);
      connections := connections - {name};
      var _ := FailNodeWaiters(name, NodeDisconnected);
    }

    /** Every pending future of `name` is failed with `reason`, done ones keep their outcome, and no
    key of `name` is left; the other nodes' keys stay. */
    twostate predicate Woken(was: map<Key, Future<P>>, name: string, reason: Reason)
      reads this, set k | k in was && k.node == name :: was[k]
    {
      && waiters == was - KeysOf(was, name)
      && forall k :: k in was && k.node == name ==>
           was[k].state == if old(was[k].state).Pending? then WaiterCancelled(reason) else old(was[k].state)
    }

    method TouchHeartbeat(name: string, at: real) returns (found: bool)
      modifies this`connections
      ensures connections == Touched(old(connections), name, at) && found == (name in old(connections))
      ensures connections.Keys == old(connections).Keys
      ensures forall n :: n in connections ==> connections[n].sessionId == old(connections)[n].sessionId
    {
      found := name in connections;
      if found {
        connections := connections[name := connections[name].(lastHeartbeat := at)];
      }
    }

    /** A fresh pending future under `(name, id)`. */
    method RegisterWaiter(name: string, id: string) returns (future: Future<P>)
      requires Valid() && forall k :: k in waiters ==> allocated(waiters[k])
      modifies this`waiters
      ensures Valid() && fresh(future) && future.state == Pending
      ensures waiters == old(waiters)[Key(name, id) := future]
    {
      future := new Future();
      waiters := waiters[Key(name, id) := future];
    }

    /** The first reply for a key resolves its future; any later one finds no key. */
    method CompleteWaiter(name: string, id: string, payload: P) returns (resolved: bool)
      requires Valid()
      modifies this`waiters, if Key(name, id) in waiters then {waiters[Key(name, id)]} else {}
      ensures Valid() && waiters == old(waiters) - {Key(name, id)}
      ensures resolved <==> Key(name, id) in old(waiters) && old(waiters[Key(name, id)].state).Pending?
      ensures Key(name, id) in old(waiters) ==>
        old(waiters)[Key(name, id)].state
        == if resolved then Result(payload) else old(waiters[Key(name, id)].state)
    {
      var key := Key(name, id);
      if key !in waiters {
        assert waiters - {key} == waiters;
        return false;
      }
      var future := waiters[key];
      waiters := waiters - {key};
      if !future.state.Pending? {
        return false;
      }
      future.state := Result(payload);
      resolved := true;
    }

    method UnregisterWaiter(name: string, id: string)
      requires Valid()
      modifies this`waiters
      ensures Valid() && waiters == old(waiters) - {Key(name, id)}
    {
      waiters := waiters - {Key(name, id)};
    }

    /** Snapshot and pop every key of `name`, then settle the futures that are still pending;
    returns how many were. */
    method FailNodeWaiters(name: string, reason: Reason) returns (woken: nat)
      requires Valid()
      modifies this`waiters, FuturesOf(name)
      ensures Valid() && Woken(old(waiters), name, reason)
      ensures woken == |set f | f in old(FuturesOf(name)) && old(f.state).Pending?|
    {
      var futures := PopWaiters(name);
      label Popped:
      woken := WakeAll(futures, reason);
      assert (set f | f in futures && old@Popped(f.state).Pending?)
        == (set f | f in old(FuturesOf(name)) && old(f.state).Pending?);
    }

    /** The locked phase. */
    method PopWaiters(name: string) returns (futures: seq<Future<P>>)
      requires Valid()
      modifies this`waiters
      ensures Valid() && waiters == old(waiters) - KeysOf(old(waiters), name)
      ensures forall f :: f in futures <==> f in old(FuturesOf(name))
      ensures forall i, j :: 0 <= i < j < |futures| ==> futures[i] != futures[j]
    {
      futures := [];
      var keys := KeysOf(waiters, name);
      ghost var all, popped: seq<Key> := keys, [];
      while keys != {}
        invariant keys <= all && waiters == old(waiters) - (all - keys)
        invariant |popped| == |futures| && forall k :: k in popped <==> k in all - keys
        invariant forall i :: 0 <= i < |popped| ==> popped[i] in all
        invariant forall i :: 0 <= i < |popped| ==> futures[i] == old(waiters)[popped[i]]
        invariant forall i, j :: 0 <= i < j < |popped| ==> popped[i] != popped[j]
        decreases keys
      {
        var k :| k in keys;
        assert k in waiters && waiters[k] == old(waiters)[k];
        assert all - (keys - {k}) == (all - keys) + {k};
        futures, popped := futures + [waiters[k]], popped + [k];
        waiters := waiters - {k};
        keys := keys - {k};
      }
      assert all - keys == all;
      forall f | f in old(FuturesOf(name)) ensures f in futures {
        var k :| k in old(waiters) && k.node == name && old(waiters)[k] == f;
        assert k in popped;
      }
      forall f | f in futures ensures f in old(FuturesOf(name)) {
        var i :| 0 <= i < |futures| && futures[i] == f;
        assert popped[i] in old(waiters) && popped[i].node == name;
      }
      forall i, j | 0 <= i < j < |futures| ensures futures[i] != futures[j] {
        assert popped[i] != popped[j] && popped[i] in old(waiters) && popped[j] in old(waiters);
      }
    }
  }

  /** The members of `pending` among the first `n` futures. */
  ghost function Among<F>(pending: set<F>, futures: seq<F>, n: nat): set<F>
    requires n <= |futures|
  {
    set f | f in futures[..n] && f in pending
  }

  lemma AmongSnoc<F>(pending: set<F>, futures: seq<F>, n: nat)
    requires n < |futures| && forall i :: 0 <= i < n ==> futures[i] != futures[n]
    ensures
      var more := if futures[n] in pending then 1 else 0;
      |Among(pending, futures, n + 1)| == |Among(pending, futures, n)| + more
  {
    var one := if futures[n] in pending then {futures[n]} else {};
    assert futures[..n + 1] == futures[..n] + [futures[n]];
    assert Among(pending, futures, n + 1) == Among(pending, futures, n) + one;
  }

  /** The second phase: a future settled meanwhile is passed over. */
  method WakeAll<P(0)>(futures: seq<Future<P>>, reason: Reason) returns (woken: nat)
    requires forall i, j :: 0 <= i < j < |futures| ==> futures[i] != futures[j]
    modifies futures
    ensures forall f :: f in futures ==>
      f.state == if old(f.state).Pending? then WaiterCancelled(reason) else old(f.state)
    ensures woken == |set f | f in futures && old(f.state).Pending?|
  {
    woken := 0;
    ghost var pending: set<Future<P>> := set f | f in futures && f.state.Pending?;
    for i := 0 to |futures|
      invariant forall j :: 0 <= j < i ==>
        futures[j].state == if old(futures[j].state).Pending? then WaiterCancelled(reason) else old(futures[j].state)
      invariant forall j :: i <= j < |futures| ==> futures[j].state == old(futures[j].state)
      invariant woken == |Among(pending, futures, i)|
    {
      AmongSnoc(pending, futures, i);
      assert futures[i] in pending <==> futures[i].state.Pending?;
      if futures[i].state.Pending? {
        futures[i].state := WaiterCancelled(reason);
        woken := woken + 1;
      }
    }
    assert Among(pending, futures, |futures|) == pending;
  }
}
