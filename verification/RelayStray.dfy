/** What the two lock bodies of `unregister` would allow if other tasks ran between them: the old session
pops its entry, the node reconnects, a caller registers its waiter over the new connection, and only
then does the old session take its snapshot, which fails the call although its connection is live.
asyncio never schedules this run, since it takes a free lock without a pause; module RelayGaps proves
that without such a pause no run does it. */
module RelayStray {
  import opened Registry
  import opened Relay
  import opened RelayRuns

  /** A session in the table drops and pops its own entry; its snapshot is still to come. */
  function Left(st: State, s: Sid, n: string): State {
    var d := st.desk;
    st.(desk := Desk(d.table - {n}, d.phases[s := SnapGone], d.past.(removed := d.past.removed + {s})))
  }

  lemma LeaveRun(front: seq<Action>, s: Sid, n: string, cfg: Config) returns (actions: seq<Action>)
    requires
      var d := Run(front, cfg).desk;
      && Named(d, s) && d.past.authed[s] == n && d.phases[s].Holding?
      && n in d.table && d.table[n].sessionId == s
    ensures Run(actions, cfg) == Left(Run(front, cfg), s, n)
  {
    var st := Run(front, cfg);
    actions := Extend(front, Drop(s), cfg);
    assert Run(actions, cfg) == st.(desk := st.desk.(phases := st.desk.phases[s := Leaving]));
    actions := Extend(actions, Unregister(s), cfg);
    assert st.desk.phases[s := Leaving][s := SnapGone] == st.desk.phases[s := SnapGone];
  }

  /** A caller gets the connection of `n` and registers its waiter. */
  function Waiting(st: State, c: Req, n: string, via: Sid): State {
    st.(mail := st.mail.(
      waiters := st.mail.waiters[Key(n, c) := c],
      calls := st.mail.calls[c := Call(n, Http, Sending, via, Promise.Pending, 0, Gap(st.desk, n))]))
  }

  function Called(st: State, c: Req, call: Call): State {
    st.(mail := st.mail.(calls := st.mail.calls[c := call]))
  }

  lemma BeginStep(st: State, c: Req, n: string, cfg: Config)
    requires c != "" && c !in st.mail.calls
    ensures Step(st, Begin(c, n, Http, false), cfg) == Called(st, c, Call(n, Http, Looking, "", Promise.Pending, 0, {}))
  {}

  lemma LookStep(st: State, c: Req, n: string, cfg: Config)
    requires n in st.desk.table
    ensures
      var looking := Call(n, Http, Looking, "", Promise.Pending, 0, {});
      Step(Called(st, c, looking), Look(c), cfg)
      == Called(st, c, looking.(stage := Found, via := st.desk.table[n].sessionId))
  {
    var looking := Call(n, Http, Looking, "", Promise.Pending, 0, {});
    var found := looking.(stage := Found, via := st.desk.table[n].sessionId);
    assert st.mail.calls[c := looking][c := found] == st.mail.calls[c := found];
  }

  lemma RegisterStep(st: State, c: Req, n: string, via: Sid, cfg: Config)
    ensures
      Step(Called(st, c, Call(n, Http, Found, via, Promise.Pending, 0, {})), RegisterWaiter(c), cfg)
      == Waiting(st, c, n, via)
  {
    var found := Call(n, Http, Found, via, Promise.Pending, 0, {});
    var waiting := found.(stage := Sending, gap := Gap(st.desk, n));
    assert st.mail.calls[c := found][c := waiting] == st.mail.calls[c := waiting];
  }

  lemma CallRun(front: seq<Action>, c: Req, n: string, cfg: Config) returns (actions: seq<Action>)
    requires c != "" && c !in Run(front, cfg).mail.calls && n in Run(front, cfg).desk.table
    ensures Run(actions, cfg) == Waiting(Run(front, cfg), c, n, Run(front, cfg).desk.table[n].sessionId)
  {
    var st := Run(front, cfg);
    BeginStep(st, c, n, cfg);
    LookStep(st, c, n, cfg);
    RegisterStep(st, c, n, st.desk.table[n].sessionId, cfg);
    actions := Extend(front, Begin(c, n, Http, false), cfg);
    actions := Extend(actions, Look(c), cfg);
    actions := Extend(actions, RegisterWaiter(c), cfg);
  }

  /** The snapshot takes the waiter and the future is failed. */
  lemma WakeRun(front: seq<Action>, s: Sid, c: Req, n: string, cfg: Config) returns (actions: seq<Action>)
    requires
      var st := Run(front, cfg);
      && Named(st.desk, s) && st.desk.past.authed[s] == n && st.desk.phases[s].SnapGone?
      && st.mail.waiters == map[Key(n, c) := c] && st.mail.hand == map[]
      && c in st.mail.calls && st.mail.calls[c].future.Pending?
    ensures
      var st, st' := Run(front, cfg), Run(actions, cfg);
      && st'.desk.table == st.desk.table && st'.desk.past == st.desk.past
      && c in st'.mail.calls
      && st'.mail.calls[c]
           == st.mail.calls[c].(future := Failed(NodeDisconnected, s), settles := st.mail.calls[c].settles + 1)
  {
    var st := Run(front, cfg);
    actions := Extend(front, Snapshot(s), cfg);
    var taken := Run(actions, cfg);
    assert taken == DoSnapshot(st, s, NodeDisconnected, WakeGone);
    var key := Key(n, c);
    assert key in KeysOf(st.mail.waiters, n) && key.id == c;
    assert c in taken.mail.hand && taken.mail.hand[c] == Hold(s, Fail(NodeDisconnected));
    actions := Extend(actions, Settle(s, c), cfg);
  }

  /** The wake-up: call `c` was made on the connection of `b`, which is in the table and was registered
  after `a`, and is failed by the unregister of `a`. */
  lemma StrayWakeHappens(cfg: Config, a: Sid, b: Sid, c: Req, n: string) returns (actions: seq<Action>)
    requires a != b && c != ""
    ensures
      var st := Run(actions, cfg);
      && c in st.mail.calls && st.mail.calls[c].stage.Sending? && st.mail.calls[c].via == b
      && st.mail.calls[c].future == Failed(NodeDisconnected, a)
      && n in st.desk.table && st.desk.table[n].sessionId == b
      && a in st.desk.past.order && b in st.desk.past.order && st.desk.past.order[a] < st.desk.past.order[b]
  {
    actions := JoinRun([], a, n, cfg);
    actions := LeaveRun(actions, a, n, cfg);
    actions := JoinRun(actions, b, n, cfg);
    actions := CallRun(actions, c, n, cfg);
    actions := WakeRun(actions, a, c, n, cfg);
  }
}
