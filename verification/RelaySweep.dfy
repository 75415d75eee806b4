/** Heartbeats and the stale sweep over every run of the relay: the sweep closes only what a scan found
silent since the cutoff. It closes one socket after another, so a node may be heard between the scan and
its close, and is closed all the same. */
module RelaySweep {
  import opened Registry
  import opened Wrappers
  import opened Relay
  import opened RelayRuns
  import RelayTable

  /** The action registers a session of `n`, or receives a message from one. */
  predicate Hears(st: State, a: Action, n: string) {
    && (a.Install? || a.Receive?) && Named(st.desk, a.s) && st.desk.past.authed[a.s] == n
    && (if a.Install? then st.desk.phases[a.s].Authenticated? else st.desk.phases[a.s].Holding?)
  }

  /** When `n` was last heard, by registration or by a message. */
  function Heard(actions: seq<Action>, cfg: Config, n: string): Option<real> {
    if actions == [] then None
    else
      var front, a := actions[..|actions| - 1], actions[|actions| - 1];
      if Hears(Run(front, cfg), a, n) then Some(Run(front, cfg).now) else Heard(front, cfg, n)
  }

  lemma DeskStepHeartbeat(d: Desk, s: Sid, a: Action, now: real, n: string)
    requires Named(d, s) && IsSessionAction(a) && a.s == s && n in DeskStep(d, s, a, now).table
    ensures
      var hears := (a.Install? && d.phases[s].Authenticated?) || (a.Receive? && d.phases[s].Holding?);
      if hears && d.past.authed[s] == n then DeskStep(d, s, a, now).table[n].lastHeartbeat == now
      else n in d.table && DeskStep(d, s, a, now).table[n].lastHeartbeat == d.table[n].lastHeartbeat
  {}

  lemma StepHeartbeat(st: State, a: Action, cfg: Config, n: string)
    requires n in Step(st, a, cfg).desk.table
    ensures
      var table' := Step(st, a, cfg).desk.table;
      if Hears(st, a, n) then table'[n].lastHeartbeat == st.now
      else n in st.desk.table && table'[n].lastHeartbeat == st.desk.table[n].lastHeartbeat
  {
    if IsSessionAction(a) {
      if Named(st.desk, a.s) {
        SessionStepHeartbeat(st, a.s, a, cfg, n);
      }
    }
  }

  lemma SessionStepHeartbeat(st: State, s: Sid, a: Action, cfg: Config, n: string)
    requires Named(st.desk, s) && IsSessionAction(a) && a.s == s && n in SessionStep(st, s, a, cfg).desk.table
    ensures
      var table' := SessionStep(st, s, a, cfg).desk.table;
      if Hears(st, a, n) then table'[n].lastHeartbeat == st.now
      else n in st.desk.table && table'[n].lastHeartbeat == st.desk.table[n].lastHeartbeat
  {
    if a.Install? || a.Receive? {
      QuietSteps(st, s, a, cfg);
    }
    RelayTable.SessionStepFrame(st, s, a, cfg);
    if n in DeskStep(st.desk, s, a, st.now).table {
      DeskStepHeartbeat(st.desk, s, a, st.now, n);
    }
  }

  /** A registration and a message are steps of the desk. */
  lemma QuietSteps(st: State, s: Sid, a: Action, cfg: Config)
    requires Named(st.desk, s) && (a.Install? || a.Receive?)
    ensures SessionStep(st, s, a, cfg).desk == DeskStep(st.desk, s, a, st.now)
  {}

  // ---------------------------------------------------------------------
  // Main results

  /** The heartbeat of an entry is the last time its name was heard: no other session's message, no
  sweep and no unregister moves it. */
  lemma {:induction false} HeartbeatIsLastHeard(actions: seq<Action>, cfg: Config, n: string)
    requires n in Run(actions, cfg).desk.table
    ensures Heard(actions, cfg, n) == Some(Run(actions, cfg).desk.table[n].lastHeartbeat)
  {
    if actions != [] {
      var front, a := actions[..|actions| - 1], actions[|actions| - 1];
      StepHeartbeat(Run(front, cfg), a, cfg, n);
      if !Hears(Run(front, cfg), a, n) {
        HeartbeatIsLastHeard(front, cfg, n);
      }
    }
  }

  /** A scan picks exactly the sessions in the table whose name was last heard before the cutoff. */
  lemma ScanPicksExactlyTheSilent(actions: seq<Action>, cfg: Config, cutoff: real, s: Sid)
    ensures
      var table := Run(actions, cfg).desk.table;
      s in Run(actions + [SweepScan(cutoff)], cfg).stale
      <==> exists n :: n in table && table[n].sessionId == s
             && Heard(actions, cfg, n).Some? && Heard(actions, cfg, n).value < cutoff
  {
    var st := Run(actions, cfg);
    assert (actions + [SweepScan(cutoff)])[..|actions|] == actions;
    forall n | n in st.desk.table ensures Heard(actions, cfg, n) == Some(st.desk.table[n].lastHeartbeat) {
      HeartbeatIsLastHeard(actions, cfg, n);
    }
  }

  /** A socket is asked to close from outside only by the registrant that displaced it, or by the sweep
  after a scan picked it. */
  lemma ClosesHaveCause(st: State, a: Action, cfg: Config, s: Sid)
    requires s in Step(st, a, cfg).desk.past.closeAsked && s !in st.desk.past.closeAsked
    ensures
      || (a == SweepClose(s) && s in st.stale)
      || (a.CloseReplaced? && Named(st.desk, a.s) && st.desk.phases[a.s] == ClosePrevious(s))
  {
    if IsSessionAction(a) && Named(st.desk, a.s) {
      RelayTable.SessionStepFrame(st, a.s, a, cfg);
    }
  }

  /** Action `i` is a scan that picked `s`: it was in the table and its name was last heard before the
  cutoff. */
  ghost predicate Picked(actions: seq<Action>, cfg: Config, i: nat, s: Sid)
    requires i < |actions|
  {
    var front := actions[..i];
    && actions[i].SweepScan?
    && exists n :: n in Run(front, cfg).desk.table && Run(front, cfg).desk.table[n].sessionId == s
         && Heard(front, cfg, n).Some? && Heard(front, cfg, n).value < actions[i].cutoff
  }

  lemma PickedBefore(actions: seq<Action>, cfg: Config, i: nat, s: Sid)
    requires i < |actions| - 1 && Picked(actions[..|actions| - 1], cfg, i, s)
    ensures Picked(actions, cfg, i, s)
  {
    assert actions[..|actions| - 1][..i] == actions[..i];
  }

  /** What the sweep is about to close, an earlier scan picked. */
  lemma {:induction false} StaleWasPicked(actions: seq<Action>, cfg: Config, s: Sid)
    requires s in Run(actions, cfg).stale
    ensures exists i :: 0 <= i < |actions| && Picked(actions, cfg, i, s)
  {
    if actions != [] {
      var n := |actions| - 1;
      var front, a := actions[..n], actions[n];
      StaleGrows(Run(front, cfg), a, cfg, s);
      if a.SweepScan? {
        ScanPicksExactlyTheSilent(front, cfg, a.cutoff, s);
        assert front + [a] == actions;
        assert Picked(actions, cfg, n, s);
      } else {
        StaleWasPicked(front, cfg, s);
        var i :| 0 <= i < |front| && Picked(front, cfg, i, s);
        PickedBefore(actions, cfg, i, s);
      }
    }
  }

  lemma StaleGrows(st: State, a: Action, cfg: Config, s: Sid)
    requires s in Step(st, a, cfg).stale
    ensures a.SweepScan? || s in st.stale
  {}

  /** Over every run, a socket somebody asked to close belongs to a displaced session, or to one that an
  earlier scan picked. */
  lemma {:induction false} ClosedWereDisplacedOrPicked(actions: seq<Action>, cfg: Config, s: Sid)
    requires s in Run(actions, cfg).desk.past.closeAsked
    ensures s in Run(actions, cfg).desk.past.displaced
      || exists i :: 0 <= i < |actions| && Picked(actions, cfg, i, s)
  {
    if actions != [] {
      var n := |actions| - 1;
      var front, a := actions[..n], actions[n];
      var st := Run(front, cfg);
      RelayTable.RunKeepsTable(front, cfg);
      RelayTable.StepGrows(st, a, cfg);
      if s in st.desk.past.closeAsked {
        ClosedWereDisplacedOrPicked(front, cfg, s);
        if s !in st.desk.past.displaced {
          var i :| 0 <= i < |front| && Picked(front, cfg, i, s);
          PickedBefore(actions, cfg, i, s);
        }
      } else {
        ClosesHaveCause(st, a, cfg, s);
        if a == SweepClose(s) {
          StaleWasPicked(front, cfg, s);
          var i :| 0 <= i < |front| && Picked(front, cfg, i, s);
          PickedBefore(actions, cfg, i, s);
        } else {
          DebtorsDisplace(st.desk, a.s, s);
        }
      }
    }
  }

  lemma DebtorsDisplace(d: Desk, t: Sid, s: Sid)
    requires RelayTable.TableInv(d) && Named(d, t) && d.phases[t] == ClosePrevious(s)
    ensures s in d.past.displaced
  {
    var p := d.past;
    assert RelayTable.PhaseOk(d.phases[t], t, p.order, p.authed, p.displaced, p.removed);
  }

  /** The action at `j` is no word from `n`. */
  predicate QuietAt(actions: seq<Action>, cfg: Config, n: string, j: nat)
    requires j < |actions|
  {
    !Hears(Run(actions[..j], cfg), actions[j], n)
  }

  lemma {:induction false} ClockNeverRunsBack(actions: seq<Action>, cfg: Config, i: nat)
    requires i <= |actions|
    ensures Run(actions[..i], cfg).now <= Run(actions, cfg).now
  {
    if i < |actions| {
      var front := actions[..|actions| - 1];
      ClockNeverRunsBack(front, cfg, i);
      assert front[..i] == actions[..i];
      StepClock(Run(front, cfg), actions[|actions| - 1], cfg);
    } else {
      assert actions[..i] == actions;
    }
  }

  lemma StepClock(st: State, a: Action, cfg: Config)
    ensures st.now <= Step(st, a, cfg).now
  {}

  /** Whether a name that a scan found silent is still silent when the sweep gets to it: exactly if
  nothing was heard of it in between. */
  lemma {:induction false} StillSilentExactly(actions: seq<Action>, cfg: Config, i: nat, n: string, cutoff: real)
    requires i < |actions| && cutoff <= Run(actions[..i], cfg).now
    requires Heard(actions[..i], cfg, n).Some? && Heard(actions[..i], cfg, n).value < cutoff
    requires actions[i] == SweepScan(cutoff)
    ensures Heard(actions, cfg, n).Some?
    ensures Heard(actions, cfg, n).value < cutoff <==> forall j :: i < j < |actions| ==> QuietAt(actions, cfg, n, j)
  {
    var m := |actions| - 1;
    var front := actions[..m];
    HeardUnfolds(actions, cfg, n);
    if m > i {
      assert front[..i] == actions[..i];
      StillSilentExactly(front, cfg, i, n, cutoff);
      ClockNeverRunsBack(front, cfg, i);
      SilenceGoesOn(actions, front, cfg, i, n, m);
    } else {
      assert actions[..i] == front;
    }
  }

  lemma HeardUnfolds(actions: seq<Action>, cfg: Config, n: string)
    requires actions != []
    ensures
      var m := |actions| - 1;
      Heard(actions, cfg, n)
      == if QuietAt(actions, cfg, n, m) then Heard(actions[..m], cfg, n) else Some(Run(actions[..m], cfg).now)
  {}

  lemma SilenceGoesOn(actions: seq<Action>, front: seq<Action>, cfg: Config, i: nat, n: string, m: nat)
    requires m == |actions| - 1 && i < m && front == actions[..m]
    ensures (forall j :: i < j < |actions| ==> QuietAt(actions, cfg, n, j))
      <==> QuietAt(actions, cfg, n, m) && forall j :: i < j < m ==> QuietAt(front, cfg, n, j)
  {
    forall j | i < j < m ensures QuietAt(front, cfg, n, j) == QuietAt(actions, cfg, n, j) {
      assert front[..j] == actions[..j] && front[j] == actions[j];
    }
  }

  /** It takes two stale sockets: while the sweep closes the first, the second is heard, and it is asked
  to close all the same. */
  lemma SweptThoughHeard(cfg: Config, s: Sid, n: string, t: Sid, m: string, msg: Wire.Json)
    returns (actions: seq<Action>)
    requires s != t && n != m
    ensures
      var st := Run(actions, cfg);
      && t in st.desk.past.closeAsked && m in st.desk.table && st.desk.table[m].sessionId == t
      && st.desk.table[m].lastHeartbeat == st.now == 10.0
    ensures |actions| >= 4
    ensures actions[|actions| - 4..] == [SweepScan(5.0), SweepClose(s), Receive(t, msg), SweepClose(t)]
  {
    var front := TwoSilent(cfg, s, n, t, m);
    ScanPicks(Run(front, cfg), n, m, cfg);
    actions := Extend(front, SweepScan(5.0), cfg);
    actions := CloseHearClose(actions, s, t, m, msg, cfg);
    assert actions == front + [SweepScan(5.0), SweepClose(s), Receive(t, msg), SweepClose(t)];
  }

  /** Two nodes connect and fall silent. */
  lemma TwoSilent(cfg: Config, s: Sid, n: string, t: Sid, m: string) returns (actions: seq<Action>)
    requires s != t && n != m
    ensures
      var st := Run(actions, cfg);
      && st.now == 10.0 && st.desk.table == map[n := Connection(n, s, 0.0), m := Connection(m, t, 0.0)]
      && Named(st.desk, t) && st.desk.past.authed[t] == m && st.desk.phases[t].Holding?
  {
    actions := JoinRun([], s, n, cfg);
    actions := JoinRun(actions, t, m, cfg);
    var joined := Run(actions, cfg);
    assert joined.desk.table == map[n := Connection(n, s, 0.0), m := Connection(m, t, 0.0)];
    actions := Extend(actions, Tick(10.0), cfg);
    assert Run(actions, cfg) == joined.(now := 10.0);
  }

  lemma CloseHearClose(front: seq<Action>, s: Sid, t: Sid, m: string, msg: Wire.Json, cfg: Config)
    returns (actions: seq<Action>)
    requires
      var st := Run(front, cfg);
      && s != t && s in st.stale && t in st.stale
      && Named(st.desk, t) && st.desk.past.authed[t] == m && st.desk.phases[t].Holding?
      && m in st.desk.table && st.desk.table[m].sessionId == t
    ensures actions == front + [SweepClose(s), Receive(t, msg), SweepClose(t)]
    ensures
      var st, st' := Run(front, cfg), Run(actions, cfg);
      && st'.now == st.now && t in st'.desk.past.closeAsked
      && m in st'.desk.table && st'.desk.table[m].sessionId == t && st'.desk.table[m].lastHeartbeat == st.now
  {
    CloseIsAsked(Run(front, cfg), s, cfg);
    actions := Extend(front, SweepClose(s), cfg);
    ReceiveIsHeard(Run(actions, cfg), t, m, msg, cfg);
    actions := Extend(actions, Receive(t, msg), cfg);
    CloseIsAsked(Run(actions, cfg), t, cfg);
    actions := Extend(actions, SweepClose(t), cfg);
  }

  lemma ScanPicks(st: State, n: string, m: string, cfg: Config)
    requires st.desk.table.Keys == {n, m}
    requires st.desk.table[n].lastHeartbeat == st.desk.table[m].lastHeartbeat == 0.0
    ensures Step(st, SweepScan(5.0), cfg)
      == st.(stale := {st.desk.table[n].sessionId, st.desk.table[m].sessionId})
  {
    assert StaleOf(st.desk.table, 5.0) == {n, m};
  }

  lemma ReceiveIsHeard(st: State, s: Sid, n: string, msg: Wire.Json, cfg: Config)
    requires Named(st.desk, s) && st.desk.past.authed[s] == n && st.desk.phases[s].Holding?
    requires n in st.desk.table && st.desk.table[n].sessionId == s
    ensures
      var st' := Step(st, Receive(s, msg), cfg);
      && st'.stale == st.stale && st'.now == st.now
      && n in st'.desk.table && st'.desk.table[n].sessionId == s && st'.desk.table[n].lastHeartbeat == st.now
  {}

  lemma CloseIsAsked(st: State, s: Sid, cfg: Config)
    requires s in st.stale
    ensures Step(st, SweepClose(s), cfg) == st.(stale := st.stale - {s}, desk := AskClose(st.desk, s))
  {}
}
