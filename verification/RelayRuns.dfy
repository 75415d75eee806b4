/** Runs of the relay built action by action. */
module RelayRuns {
  import opened Registry
  import opened Relay

  lemma RunSnoc(actions: seq<Action>, a: Action, cfg: Config)
    ensures Run(actions + [a], cfg) == Step(Run(actions, cfg), a, cfg)
  {
    assert (actions + [a])[..|actions|] == actions;
  }

  lemma Extend(actions: seq<Action>, a: Action, cfg: Config) returns (more: seq<Action>)
    ensures more == actions + [a] && Run(more, cfg) == Step(Run(actions, cfg), a, cfg)
  {
    more := actions + [a];
    RunSnoc(actions, a, cfg);
  }

  /** A new session of a name nobody holds gets through its handshake and registers. */
  function Joined(st: State, s: Sid, n: string): State {
    var d := st.desk;
    st.(desk := Desk(
      d.table[n := Connection(n, s, st.now)],
      d.phases[s := Holding],
      d.past.(authed := d.past.authed[s := n], order := d.past.order[s := d.past.installs],
              installs := d.past.installs + 1)))
  }

  lemma Join(st: State, s: Sid, n: string, cfg: Config)
    requires s !in st.desk.phases && n !in st.desk.table
    ensures Step(Step(Step(Step(st, Connect(s), cfg), Hello(s, n, true), cfg), Auth(s, n, true), cfg), Install(s), cfg)
      == Joined(st, s, n)
  {
    var d := st.desk;
    var authed := d.past.(authed := d.past.authed[s := n]);
    var st1 := Step(st, Connect(s), cfg);
    assert st1 == st.(desk := Desk(d.table, d.phases[s := AwaitHello], d.past));
    var st2 := Step(st1, Hello(s, n, true), cfg);
    assert st2 == st.(desk := Desk(d.table, d.phases[s := AwaitAuth(n)], d.past)) by {
      assert d.phases[s := AwaitHello][s := AwaitAuth(n)] == d.phases[s := AwaitAuth(n)];
    }
    var st3 := Step(st2, Auth(s, n, true), cfg);
    assert st3 == st.(desk := Desk(d.table, d.phases[s := Authenticated], authed)) by {
      assert d.phases[s := AwaitAuth(n)][s := Authenticated] == d.phases[s := Authenticated];
    }
    assert d.phases[s := Authenticated][s := Holding] == d.phases[s := Holding];
  }

  lemma JoinRun(front: seq<Action>, s: Sid, n: string, cfg: Config) returns (actions: seq<Action>)
    requires s !in Run(front, cfg).desk.phases && n !in Run(front, cfg).desk.table
    ensures Run(actions, cfg) == Joined(Run(front, cfg), s, n)
  {
    Join(Run(front, cfg), s, n, cfg);
    actions := Extend(front, Connect(s), cfg);
    actions := Extend(actions, Hello(s, n, true), cfg);
    actions := Extend(actions, Auth(s, n, true), cfg);
    actions := Extend(actions, Install(s), cfg);
  }
}
