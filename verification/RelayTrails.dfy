/** What the actions of a run say about the state it ends in: the steps every session, call and outcome
must have gone through, in order. */
module RelayTrails {
  import opened Registry
  import opened Wrappers
  import opened Handlers
  import opened Relay
  import opened RelayTable
  import opened RelayMail
  import opened RelayReplies
  import opened RelayDelivery
  import Environment

  /** The actions of `trail` occur among `actions`, in this order. */
  predicate Follows(trail: seq<Action>, actions: seq<Action>) {
    trail == []
    || (actions != []
        && var front, a := actions[..|actions| - 1], actions[|actions| - 1];
           Follows(trail, front) || (trail[|trail| - 1] == a && Follows(trail[..|trail| - 1], front)))
  }

  /** `at` picks the actions of `trail`, one after another. */
  predicate Picks(at: seq<nat>, trail: seq<Action>, actions: seq<Action>) {
    && |at| == |trail|
    && (forall i :: 0 <= i < |at| ==> at[i] < |actions| && actions[at[i]] == trail[i])
    && (forall i, j :: 0 <= i < j < |at| ==> at[i] < at[j])
  }

  lemma {:induction false} FollowsPicks(trail: seq<Action>, actions: seq<Action>) returns (at: seq<nat>)
    requires Follows(trail, actions)
    ensures Picks(at, trail, actions)
  {
    if trail == [] {
      at := [];
    } else {
      var n := |actions| - 1;
      var front := actions[..n];
      if Follows(trail, front) {
        at := FollowsPicks(trail, front);
      } else {
        at := FollowsPicks(trail[..|trail| - 1], front);
        at := at + [n];
      }
    }
  }

  lemma FollowsMeans(trail: seq<Action>, actions: seq<Action>)
    requires Follows(trail, actions)
    ensures exists at :: Picks(at, trail, actions)
  {
    var at := FollowsPicks(trail, actions);
  }

  /** One action more: a trail stays, and may go on with that action. */
  lemma Later(trail: seq<Action>, front: seq<Action>, a: Action)
    requires Follows(trail, front)
    ensures Follows(trail, front + [a]) && Follows(trail + [a], front + [a])
  {
    assert (front + [a])[..|front|] == front && (trail + [a])[..|trail|] == trail;
  }

  // ---------------------------------------------------------------------
  // Sessions

  function Connected(s: Sid): seq<Action> {
    [Connect(s)]
  }

  function Greeted(s: Sid, n: string): seq<Action> {
    Connected(s) + [Hello(s, n, true)]
  }

  function Admitted(s: Sid, n: string): seq<Action> {
    Greeted(s, n) + [Auth(s, n, true)]
  }

  function Entered(s: Sid, n: string): seq<Action> {
    Admitted(s, n) + [Install(s)]
  }

  function Left(s: Sid, n: string): seq<Action> {
    Entered(s, n) + [Unregister(s)]
  }

  function Heard(s: Sid, n: string, msg: Wire.Json): seq<Action> {
    Entered(s, n) + [Receive(s, msg)]
  }

  function Checked(s: Sid, n: string, msg: Wire.Json): seq<Action> {
    Heard(s, n, msg) + [Check(s)]
  }

  /** How a session came to hold a future with this verdict. */
  function Held(s: Sid, n: string, verdict: Verdict): seq<Action> {
    if verdict.Deliver? then Checked(s, n, verdict.msg) + [Route(s)]
    else if verdict.reason.ConnectionReplaced? then Entered(s, n) + [Snapshot(s)]
    else Left(s, n) + [Snapshot(s)]
  }

  /** The trail of a session that is at `phase`. */
  predicate PhaseTrailed(phase: Phase, s: Sid, n: string, actions: seq<Action>) {
    && (phase.Received? ==> Follows(Heard(s, n, phase.msg), actions))
    && (phase.Routing? ==> Follows(Checked(s, n, phase.msg), actions))
  }

  predicate SessionTrailed(d: Desk, s: Sid, actions: seq<Action>) {
    var p := d.past;
    && (s in d.phases ==> Follows(Connected(s), actions))
    && (s in d.phases && d.phases[s].AwaitAuth? ==> Follows(Greeted(s, d.phases[s].hello), actions))
    && (s in p.authed ==> Follows(Admitted(s, p.authed[s]), actions))
    && (s in p.authed && s in p.order ==> Follows(Entered(s, p.authed[s]), actions))
    && (s in p.authed && s in p.removed ==> Follows(Left(s, p.authed[s]), actions))
    && (Named(d, s) ==> PhaseTrailed(d.phases[s], s, p.authed[s], actions))
  }

  ghost predicate SessionsTrailed(d: Desk, actions: seq<Action>) {
    forall s :: SessionTrailed(d, s, actions)
  }

  /** What an action may do to the position of `s`. */
  predicate PhaseMoved(d: Desk, d': Desk, a: Action, s: Sid) {
    s in d'.phases ==>
      var to := d'.phases[s];
      if s !in d.phases then a == Connect(s) && to.AwaitHello?
      else
        var from := d.phases[s];
        || to == from
        || (if to.AwaitAuth? then a == Hello(s, to.hello, true)
            else if to.Received? then a == Receive(s, to.msg) && from.Holding?
            else if to.Routing? then a == Check(s) && from == Received(to.msg)
            else true)
  }

  /** What an action may do to the name, the registration and the removal of `s`. */
  predicate PastMoved(d: Desk, d': Desk, a: Action, s: Sid) {
    var p, p' := d.past, d'.past;
    && (s in p'.authed && s in p.authed ==> p'.authed[s] == p.authed[s])
    && (s in p'.authed && s !in p.authed ==>
          a == Auth(s, p'.authed[s], true) && s in d.phases && d.phases[s] == AwaitAuth(p'.authed[s]))
    && (s in p'.order && s !in p.order ==> a == Install(s) && Named(d, s))
    && (s in p'.removed && s !in p.removed ==> a == Unregister(s) && Named(d, s) && d.phases[s].Leaving?)
  }

  predicate Moved(d: Desk, d': Desk, a: Action, s: Sid) {
    PhaseMoved(d, d', a, s) && PastMoved(d, d', a, s)
  }

  lemma HandshakeMoves(d: Desk, a: Action, s: Sid)
    requires IsHandshakeAction(a) && a.s in d.phases && Ready(d, a.s)
    ensures Moved(d, HandshakeStep(d, a.s, a), a, s)
  {}

  lemma DeskStepPhase(d: Desk, a: Action, now: real, s: Sid)
    requires IsSessionAction(a) && Named(d, a.s)
    ensures PhaseMoved(d, DeskStep(d, a.s, a, now), a, s)
  {}

  lemma DeskStepPast(d: Desk, a: Action, now: real, s: Sid)
    requires IsSessionAction(a) && Named(d, a.s)
    ensures PastMoved(d, DeskStep(d, a.s, a, now), a, s)
  {}

  lemma SessionPhase(st: State, a: Action, cfg: Config, s: Sid)
    requires IsSessionAction(a) && Named(st.desk, a.s)
    ensures PhaseMoved(st.desk, SessionStep(st, a.s, a, cfg).desk, a, s)
  {
    DeskStepPhase(st.desk, a, st.now, s);
  }

  lemma SessionMoves(st: State, a: Action, cfg: Config, s: Sid)
    requires IsSessionAction(a) && Named(st.desk, a.s)
    ensures Moved(st.desk, SessionStep(st, a.s, a, cfg).desk, a, s)
  {
    SessionPhase(st, a, cfg, s);
    SessionStepFrame(st, a.s, a, cfg);
    DeskStepPast(st.desk, a, st.now, s);
  }

  lemma StepMoves(st: State, a: Action, cfg: Config, s: Sid)
    requires IsHandshakeAction(a) ==> Ready(st.desk, a.s)
    ensures Moved(st.desk, Step(st, a, cfg).desk, a, s)
  {
    if IsHandshakeAction(a) {
      if a.s in st.desk.phases {
        HandshakeMoves(st.desk, a, s);
      }
    } else if IsSessionAction(a) {
      if Named(st.desk, a.s) {
        SessionMoves(st, a, cfg, s);
      }
    }
  }

  /** Registered sessions have a name and have entered; removed ones were registered. */
  predicate Grounded(d: Desk, s: Sid) {
    && (s in d.past.order ==> s in d.past.authed)
    && (s in d.past.removed ==> s in d.past.order)
    && (Named(d, s) && (d.phases[s].Holding? || d.phases[s].Leaving?) ==> s in d.past.order)
    && (s in d.past.authed ==> s in d.phases)
  }

  lemma TableGrounds(d: Desk, s: Sid)
    requires TableInv(d)
    ensures Grounded(d, s)
  {
    if Named(d, s) {
      assert PhaseOk(d.phases[s], s, d.past.order, d.past.authed, d.past.displaced, d.past.removed);
    }
  }

  lemma MovedKeepsPast(d: Desk, d': Desk, a: Action, s: Sid, front: seq<Action>)
    requires Moved(d, d', a, s) && Grounded(d, s) && Grounded(d', s) && SessionTrailed(d, s, front)
    ensures
      var p', actions := d'.past, front + [a];
      && (s in p'.authed ==> Follows(Admitted(s, p'.authed[s]), actions))
      && (s in p'.authed && s in p'.order ==> Follows(Entered(s, p'.authed[s]), actions))
      && (s in p'.authed && s in p'.removed ==> Follows(Left(s, p'.authed[s]), actions))
  {
    if s in d'.past.authed {
      var n := d'.past.authed[s];
      if s !in d.past.authed {
        Later(Greeted(s, n), front, a);
      } else {
        Later(Admitted(s, n), front, a);
        if s in d.past.order {
          Later(Entered(s, n), front, a);
        }
        if s in d.past.removed {
          Later(Left(s, n), front, a);
        }
      }
    }
  }

  lemma MovedKeepsPhase(d: Desk, d': Desk, a: Action, s: Sid, front: seq<Action>)
    requires Moved(d, d', a, s) && Grounded(d, s) && SessionTrailed(d, s, front)
    requires s in d'.phases
    ensures Follows(Connected(s), front + [a])
    ensures d'.phases[s].AwaitAuth? ==> Follows(Greeted(s, d'.phases[s].hello), front + [a])
    ensures Named(d, s) ==> PhaseTrailed(d'.phases[s], s, d.past.authed[s], front + [a])
  {
    var to := d'.phases[s];
    if s !in d.phases {
      Later([], front, a);
      assert [] + [a] == Connected(s);
    } else {
      var from := d.phases[s];
      Later(Connected(s), front, a);
      if from.AwaitAuth? {
        Later(Greeted(s, from.hello), front, a);
      }
      if Named(d, s) {
        var n := d.past.authed[s];
        if to == from {
          TrailGoesOn(from, s, n, front, a);
        } else if to.Received? {
          Later(Entered(s, n), front, a);
        } else if to.Routing? {
          Later(Heard(s, n, to.msg), front, a);
        }
      }
    }
  }

  lemma TrailGoesOn(phase: Phase, s: Sid, n: string, front: seq<Action>, a: Action)
    requires PhaseTrailed(phase, s, n, front)
    ensures PhaseTrailed(phase, s, n, front + [a])
  {
    if phase.Received? {
      Later(Heard(s, n, phase.msg), front, a);
    } else if phase.Routing? {
      Later(Checked(s, n, phase.msg), front, a);
    }
  }

  /** A session that gets its name does nothing else in that step. */
  lemma NewNameIsAuthenticated(st: State, a: Action, cfg: Config, s: Sid)
    requires s !in st.desk.past.authed && s in Step(st, a, cfg).desk.past.authed
    ensures s in Step(st, a, cfg).desk.phases && Step(st, a, cfg).desk.phases[s].Authenticated?
  {
    if IsSessionAction(a) && Named(st.desk, a.s) {
      SessionMovesOne(st, a.s, a, cfg);
    }
  }

  lemma StepKeepsSession(st: State, a: Action, cfg: Config, s: Sid, front: seq<Action>)
    requires TableInv(st.desk) && TableInv(Step(st, a, cfg).desk) && SessionTrailed(st.desk, s, front)
    ensures SessionTrailed(Step(st, a, cfg).desk, s, front + [a])
  {
    var d, d' := st.desk, Step(st, a, cfg).desk;
    if IsHandshakeAction(a) {
      ActorIsReady(d, a.s);
    }
    StepMoves(st, a, cfg, s);
    TableGrounds(d, s);
    TableGrounds(d', s);
    MovedKeepsPast(d, d', a, s, front);
    if s in d'.past.authed && s !in d.past.authed {
      NewNameIsAuthenticated(st, a, cfg, s);
    }
    if s in d'.phases {
      MovedKeepsPhase(d, d', a, s, front);
    }
  }

  lemma {:induction false} RunKeepsSession(actions: seq<Action>, cfg: Config, s: Sid)
    ensures SessionTrailed(Run(actions, cfg).desk, s, actions)
  {
    if actions != [] {
      var n := |actions| - 1;
      var front, a := actions[..n], actions[n];
      RunKeepsSession(front, cfg, s);
      RunKeepsTable(front, cfg);
      RunKeepsTable(actions, cfg);
      StepKeepsSession(Run(front, cfg), a, cfg, s, front);
      assert front + [a] == actions;
    }
  }
}
