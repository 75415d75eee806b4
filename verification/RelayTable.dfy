/** The connection table over every run of the relay: it refines the history of registrations, no
session is lost or handed out twice, and nobody but its owner or its successor takes an entry away. */
module RelayTable {
  import opened Registry
  import opened Wrappers
  import opened Relay

  type Names = map<Sid, string>
  type Order = map<Sid, nat>

  predicate InTable(table: Table, names: Names, s: Sid) {
    s in names && names[s] in table && table[names[s]].sessionId == s
  }

  /** The displaced session a handler still has to ask to close. */
  function Debt(phase: Phase): Option<Sid> {
    if phase.SnapReplaced? || phase.WakeReplaced? || phase.ClosePrevious? then Some(phase.prev) else None
  }

  /** What a session's position says about the registry. */
  predicate PhaseOk(phase: Phase, s: Sid, order: Order, names: Names, displaced: map<Sid, Sid>, removed: set<Sid>) {
    if phase.Over? then s in order ==> s in removed || s in displaced
    else if phase.AwaitHello? || phase.AwaitAuth? then s !in order && s !in names
    else if phase.Authenticated? then s !in order && s in names
    else if phase.SnapGone? || phase.WakeGone? then s in removed
    else
      && s in order && s !in removed
      && (Debt(phase).Some? ==> phase.prev in displaced && displaced[phase.prev] == s)
  }

  ghost predicate PhasesOk(phases: map<Sid, Phase>, order: Order, names: Names, displaced: map<Sid, Sid>,
                           removed: set<Sid>)
  {
    forall s :: s in phases ==> PhaseOk(phases[s], s, order, names, displaced, removed)
  }

  ghost predicate OrderOk(order: Order, installs: nat, names: Names) {
    && (forall s :: s in order ==> s in names && order[s] < installs)
    && (forall s, t :: s in order && t in order && s != t ==> order[s] != order[t])
  }

  /** `s` was registered last among the sessions of its name. */
  ghost predicate Latest(order: Order, names: Names, s: Sid) {
    && s in order && s in names
    && forall t :: t in order && t in names && names[t] == names[s] ==> order[t] <= order[s]
  }

  ghost predicate TableOk(table: Table, order: Order, names: Names, displaced: map<Sid, Sid>, removed: set<Sid>) {
    forall n :: n in table ==>
      var s := table[n].sessionId;
      Latest(order, names, s) && names[s] == n && s !in removed && s !in displaced
  }

  /** `previous` is handed to a later registrant of the same name, each to one and one to each. */
  ghost predicate DisplacedOk(displaced: map<Sid, Sid>, order: Order, names: Names, removed: set<Sid>) {
    && (forall p :: p in displaced ==>
          && p in order && displaced[p] in order && p in names && displaced[p] in names
          && names[p] == names[displaced[p]] && order[p] < order[displaced[p]] && p !in removed)
    && (forall p, q :: p in displaced && q in displaced && p != q ==> displaced[p] != displaced[q])
  }

  ghost predicate ClosesOwed(displaced: map<Sid, Sid>, closeAsked: set<Sid>, phases: map<Sid, Phase>) {
    forall p :: p in displaced ==> p in closeAsked || (displaced[p] in phases && Debt(phases[displaced[p]]) == Some(p))
  }

  ghost predicate Conserved(table: Table, order: Order, names: Names, displaced: map<Sid, Sid>, removed: set<Sid>) {
    && removed <= order.Keys
    && forall s :: s in order ==> s in removed || s in displaced || InTable(table, names, s)
  }

  ghost predicate TableInv(d: Desk) {
    && d.past.authed.Keys <= d.phases.Keys
    && PhasesOk(d.phases, d.past.order, d.past.authed, d.past.displaced, d.past.removed)
    && OrderOk(d.past.order, d.past.installs, d.past.authed)
    && TableOk(d.table, d.past.order, d.past.authed, d.past.displaced, d.past.removed)
    && DisplacedOk(d.past.displaced, d.past.order, d.past.authed, d.past.removed)
    && ClosesOwed(d.past.displaced, d.past.closeAsked, d.phases)
    && Conserved(d.table, d.past.order, d.past.authed, d.past.displaced, d.past.removed)
  }

  // ---------------------------------------------------------------------

  /** A session that moves keeps its debt or has just paid it. */
  lemma MoveKeepsTable(d: Desk, s: Sid, phase: Phase)
    requires TableInv(d) && s in d.phases
    requires PhaseOk(phase, s, d.past.order, d.past.authed, d.past.displaced, d.past.removed)
    requires
      var debt := Debt(d.phases[s]);
      debt.None? || Debt(phase) == debt || debt.value in d.past.closeAsked
    ensures TableInv(Go(d, s, phase))
  {
    var p := d.past;
    MovePhases(d.phases, s, phase, p.order, p.authed, p.displaced, p.removed);
    MoveOwes(p.displaced, p.closeAsked, d.phases, s, phase);
  }

  lemma MovePhases(phases: map<Sid, Phase>, s: Sid, phase: Phase, order: Order, names: Names,
                   displaced: map<Sid, Sid>, removed: set<Sid>)
    requires PhasesOk(phases, order, names, displaced, removed) && PhaseOk(phase, s, order, names, displaced, removed)
    ensures PhasesOk(phases[s := phase], order, names, displaced, removed)
  {}

  lemma MoveOwes(displaced: map<Sid, Sid>, closeAsked: set<Sid>, phases: map<Sid, Phase>, s: Sid, phase: Phase)
    requires ClosesOwed(displaced, closeAsked, phases) && s in phases
    requires Debt(phases[s]).None? || Debt(phase) == Debt(phases[s]) || Debt(phases[s]).value in closeAsked
    ensures ClosesOwed(displaced, closeAsked, phases[s := phase])
  {}

  /** The phases of a registered session that owes nothing. */
  predicate Busy(phase: Phase) {
    phase.Holding? || phase.Received? || phase.Routing? || phase.Delivering? || phase.Leaving?
  }

  lemma BusyMoveKeepsTable(d: Desk, s: Sid, phase: Phase)
    requires TableInv(d) && s in d.phases && Busy(d.phases[s]) && Busy(phase)
    ensures TableInv(Go(d, s, phase))
  {
    var p := d.past;
    assert PhaseOk(d.phases[s], s, p.order, p.authed, p.displaced, p.removed);
    BusyMoveOk(d.phases[s], phase, s, p.order, p.authed, p.displaced, p.removed);
    MoveKeepsTable(d, s, phase);
  }

  lemma BusyMoveOk(from: Phase, to: Phase, s: Sid, order: Order, names: Names, displaced: map<Sid, Sid>,
                   removed: set<Sid>)
    requires Busy(from) && Busy(to) && PhaseOk(from, s, order, names, displaced, removed)
    ensures PhaseOk(to, s, order, names, displaced, removed) && Debt(from).None?
  {}

  lemma AskKeepsTable(d: Desk, s: Sid)
    requires TableInv(d)
    ensures TableInv(AskClose(d, s))
  {}

  // -- auth

  lemma AuthKeepsTable(d: Desk, s: Sid, name: string)
    requires TableInv(d) && s in d.phases && d.phases[s].AwaitAuth?
    ensures TableInv(Authed(d, s, name))
  {
    var p := d.past;
    assert PhaseOk(d.phases[s], s, p.order, p.authed, p.displaced, p.removed);
    NewNameKeepsTable(d.table, p.order, p.authed, p.displaced, p.removed, s, name);
    NewNameKeepsPhases(d.phases, p.order, p.authed, p.displaced, p.removed, s, name);
    assert ClosesOwed(p.displaced, p.closeAsked, d.phases[s := Authenticated]);
  }

  lemma NewNameKeepsTable(table: Table, order: Order, names: Names, displaced: map<Sid, Sid>, removed: set<Sid>,
                          s: Sid, name: string)
    requires TableOk(table, order, names, displaced, removed) && DisplacedOk(displaced, order, names, removed)
    requires Conserved(table, order, names, displaced, removed) && s !in order
    ensures TableOk(table, order, names[s := name], displaced, removed)
    ensures DisplacedOk(displaced, order, names[s := name], removed)
    ensures Conserved(table, order, names[s := name], displaced, removed)
  {
    forall n | n in table ensures Latest(order, names[s := name], table[n].sessionId) {
      assert Latest(order, names, table[n].sessionId);
    }
  }

  lemma NewNameKeepsPhases(phases: map<Sid, Phase>, order: Order, names: Names, displaced: map<Sid, Sid>,
                           removed: set<Sid>, s: Sid, name: string)
    requires PhasesOk(phases, order, names, displaced, removed) && s !in order
    ensures PhasesOk(phases[s := Authenticated], order, names[s := name], displaced, removed)
  {}

  // -- register

  lemma InstallKeepsTable(d: Desk, s: Sid, now: real)
    requires TableInv(d) && Named(d, s) && d.phases[s].Authenticated?
    ensures TableInv(Installed(d, s, now))
  {
    var n, p := d.past.authed[s], d.past;
    assert PhaseOk(d.phases[s], s, p.order, p.authed, p.displaced, p.removed);
    if n in d.table {
      var prev := d.table[n].sessionId;
      assert Latest(p.order, p.authed, prev);
      ReplaceKeepsTable(d.table, d.phases, p, s, prev, now);
    } else {
      FillKeepsTable(d.table, d.phases, p, s, now);
    }
  }

  lemma ReplaceKeepsTable(table: Table, phases: map<Sid, Phase>, p: Past, s: Sid, prev: Sid, now: real)
    requires s in phases && s in p.authed && phases[s].Authenticated? && s !in p.order
    requires p.authed[s] in table && table[p.authed[s]].sessionId == prev
    requires TableInv(Desk(table, phases, p))
    ensures TableInv(Desk(table[p.authed[s] := Connection(p.authed[s], s, now)], phases[s := SnapReplaced(prev)],
                          p.(order := p.order[s := p.installs], installs := p.installs + 1,
                             displaced := p.displaced[prev := s])))
  {
    InstallOrder(p.order, p.installs, p.authed, s);
    InstallDisplaces(p.displaced, p.order, p.installs, p.authed, p.removed, s, prev);
    InstallTable(table, p.order, p.installs, p.authed, p.displaced, p.displaced[prev := s], p.removed, s, now);
    InstallConserves(table, p.order, p.installs, p.authed, p.displaced, p.displaced[prev := s], p.removed, s, now);
    InstallPhases(phases, p.order, p.installs, p.authed, p.displaced, p.removed, s, SnapReplaced(prev), prev);
    InstallOwes(p.displaced, p.closeAsked, phases, s, prev);
  }

  lemma FillKeepsTable(table: Table, phases: map<Sid, Phase>, p: Past, s: Sid, now: real)
    requires s in phases && s in p.authed && phases[s].Authenticated? && s !in p.order
    requires p.authed[s] !in table
    requires TableInv(Desk(table, phases, p))
    ensures TableInv(Desk(table[p.authed[s] := Connection(p.authed[s], s, now)], phases[s := Holding],
                          p.(order := p.order[s := p.installs], installs := p.installs + 1)))
  {
    InstallOrder(p.order, p.installs, p.authed, s);
    FillDisplaces(p.displaced, p.order, p.installs, p.authed, p.removed, s);
    InstallTable(table, p.order, p.installs, p.authed, p.displaced, p.displaced, p.removed, s, now);
    InstallConserves(table, p.order, p.installs, p.authed, p.displaced, p.displaced, p.removed, s, now);
    InstallPhases(phases, p.order, p.installs, p.authed, p.displaced, p.removed, s, Holding, s);
    FillOwes(p.displaced, p.closeAsked, phases, s);
  }

  lemma FillDisplaces(displaced: map<Sid, Sid>, order: Order, installs: nat, names: Names, removed: set<Sid>, s: Sid)
    requires DisplacedOk(displaced, order, names, removed) && s !in order
    ensures DisplacedOk(displaced, order[s := installs], names, removed)
  {}

  lemma FillOwes(displaced: map<Sid, Sid>, closeAsked: set<Sid>, phases: map<Sid, Phase>, s: Sid)
    requires ClosesOwed(displaced, closeAsked, phases) && s in phases && Debt(phases[s]).None?
    ensures ClosesOwed(displaced, closeAsked, phases[s := Holding])
  {}

  lemma InstallOrder(order: Order, installs: nat, names: Names, s: Sid)
    requires s in names && OrderOk(order, installs, names)
    ensures OrderOk(order[s := installs], installs + 1, names)
  {}

  lemma InstallDisplaces(displaced: map<Sid, Sid>, order: Order, installs: nat, names: Names, removed: set<Sid>,
                         s: Sid, prev: Sid)
    requires DisplacedOk(displaced, order, names, removed) && OrderOk(order, installs, names)
    requires s in names && s !in order
    requires prev in order && prev in names && names[prev] == names[s] && prev !in displaced && prev !in removed
    ensures DisplacedOk(displaced[prev := s], order[s := installs], names, removed)
  {}

  lemma InstallTable(table: Table, order: Order, installs: nat, names: Names, displaced: map<Sid, Sid>,
                     displaced': map<Sid, Sid>, removed: set<Sid>, s: Sid, now: real)
    requires s in names && s !in order && s !in displaced && s !in removed && OrderOk(order, installs, names)
    requires TableOk(table, order, names, displaced, removed)
    requires displaced' == if names[s] in table then displaced[table[names[s]].sessionId := s] else displaced
    ensures TableOk(table[names[s] := Connection(names[s], s, now)], order[s := installs], names, displaced', removed)
  {
    var n := names[s];
    var table', order' := table[n := Connection(n, s, now)], order[s := installs];
    forall m | m in table' ensures Latest(order', names, table'[m].sessionId) {
      if m != n {
        assert Latest(order, names, table[m].sessionId) && names[table[m].sessionId] == m;
      }
    }
    if n in table {
      assert Latest(order, names, table[n].sessionId) && names[table[n].sessionId] == n;
    }
  }

  lemma InstallConserves(table: Table, order: Order, installs: nat, names: Names, displaced: map<Sid, Sid>,
                         displaced': map<Sid, Sid>, removed: set<Sid>, s: Sid, now: real)
    requires s in names && s !in order
    requires Conserved(table, order, names, displaced, removed)
    requires displaced' == if names[s] in table then displaced[table[names[s]].sessionId := s] else displaced
    ensures Conserved(table[names[s] := Connection(names[s], s, now)], order[s := installs], names, displaced', removed)
  {
    var n := names[s];
    forall t | t in order && t !in removed && t !in displaced'
      ensures InTable(table[n := Connection(n, s, now)], names, t)
    {
      assert InTable(table, names, t);
    }
  }

  lemma InstallPhases(phases: map<Sid, Phase>, order: Order, installs: nat, names: Names, displaced: map<Sid, Sid>,
                      removed: set<Sid>, s: Sid, phase: Phase, prev: Sid)
    requires PhasesOk(phases, order, names, displaced, removed) && s !in order && s !in removed
    requires phase == Holding || (phase == SnapReplaced(prev) && prev !in displaced)
    ensures PhasesOk(phases[s := phase], order[s := installs], names,
                     if phase.Holding? then displaced else displaced[prev := s], removed)
  {}

  lemma InstallOwes(displaced: map<Sid, Sid>, closeAsked: set<Sid>, phases: map<Sid, Phase>, s: Sid, prev: Sid)
    requires ClosesOwed(displaced, closeAsked, phases) && s in phases && Debt(phases[s]).None?
    ensures ClosesOwed(displaced[prev := s], closeAsked, phases[s := SnapReplaced(prev)])
  {}

  // -- unregister

  lemma UnregisterKeepsTable(d: Desk, s: Sid)
    requires TableInv(d) && Named(d, s) && d.phases[s].Leaving?
    ensures TableInv(Unregistered(d, s))
  {
    var n, p := d.past.authed[s], d.past;
    assert PhaseOk(d.phases[s], s, p.order, p.authed, p.displaced, p.removed);
    if !Removable(d.table, n, Some(s)) {
      SkipKeepsTable(d, s);
    } else {
      PopKeepsTable(d.table, d.phases, p, s);
    }
  }

  lemma SkipKeepsTable(d: Desk, s: Sid)
    requires TableInv(d) && s in d.phases && Busy(d.phases[s])
    requires s in d.past.order && !InTable(d.table, d.past.authed, s)
    ensures TableInv(Go(d, s, Over))
  {
    var p := d.past;
    assert PhaseOk(Over, s, p.order, p.authed, p.displaced, p.removed);
    MoveKeepsTable(d, s, Over);
  }

  lemma PopKeepsTable(table: Table, phases: map<Sid, Phase>, p: Past, s: Sid)
    requires s in p.authed && s in phases && Busy(phases[s]) && s in p.order && InTable(table, p.authed, s)
    requires TableInv(Desk(table, phases, p))
    ensures TableInv(Desk(table - {p.authed[s]}, phases[s := SnapGone], p.(removed := p.removed + {s})))
  {
    RemoveKeepsTable(table, p.order, p.authed, p.displaced, p.removed, s);
    RemoveKeepsPhases(phases, p.order, p.authed, p.displaced, p.removed, s);
    MoveOwes(p.displaced, p.closeAsked, phases, s, SnapGone);
  }

  lemma RemoveKeepsTable(table: Table, order: Order, names: Names, displaced: map<Sid, Sid>, removed: set<Sid>, s: Sid)
    requires s in order && s in names && s !in displaced && InTable(table, names, s)
    requires TableOk(table, order, names, displaced, removed) && DisplacedOk(displaced, order, names, removed)
    requires Conserved(table, order, names, displaced, removed)
    ensures TableOk(table - {names[s]}, order, names, displaced, removed + {s})
    ensures DisplacedOk(displaced, order, names, removed + {s})
    ensures Conserved(table - {names[s]}, order, names, displaced, removed + {s})
  {
    forall t | t in order && t !in removed + {s} && t !in displaced ensures InTable(table - {names[s]}, names, t) {
      assert InTable(table, names, t);
    }
  }

  lemma RemoveKeepsPhases(phases: map<Sid, Phase>, order: Order, names: Names, displaced: map<Sid, Sid>,
                          removed: set<Sid>, s: Sid)
    requires PhasesOk(phases, order, names, displaced, removed)
    ensures PhasesOk(phases[s := SnapGone], order, names, displaced, removed + {s})
  {}

  // -- every step

  lemma TouchKeepsTable(d: Desk, name: string, at: real)
    requires TableInv(d)
    ensures TableInv(d.(table := Touched(d.table, name, at)))
  {}

  lemma PayKeepsTable(d: Desk, s: Sid)
    requires TableInv(d) && s in d.phases && d.phases[s].ClosePrevious?
    ensures TableInv(AskClose(Go(d, s, Holding), d.phases[s].prev))
  {
    var prev := d.phases[s].prev;
    assert PhaseOk(d.phases[s], s, d.past.order, d.past.authed, d.past.displaced, d.past.removed);
    AskKeepsTable(d, prev);
    MoveKeepsTable(AskClose(d, prev), s, Holding);
  }

  lemma ReceiveKeepsTable(d: Desk, s: Sid, msg: Wire.Json, name: string, now: real)
    requires TableInv(d) && s in d.phases && d.phases[s].Holding?
    ensures TableInv(Go(d, s, Received(msg)).(table := Touched(d.table, name, now)))
  {
    BusyMoveKeepsTable(d, s, Received(msg));
    TouchKeepsTable(Go(d, s, Received(msg)), name, now);
  }

  lemma DeskStepKeepsTable(d: Desk, s: Sid, a: Action, now: real)
    requires TableInv(d) && Named(d, s)
    ensures TableInv(DeskStep(d, s, a, now))
  {
    var phase := d.phases[s];
    if a.Install? && phase.Authenticated? {
      InstallKeepsTable(d, s, now);
    } else if a.CloseReplaced? && phase.ClosePrevious? {
      PayKeepsTable(d, s);
    } else if a.Receive? && phase.Holding? {
      ReceiveKeepsTable(d, s, a.msg, d.past.authed[s], now);
    } else if a.Drop? && phase.Holding? {
      BusyMoveKeepsTable(d, s, Leaving);
    } else if a.Unregister? && phase.Leaving? {
      UnregisterKeepsTable(d, s);
    }
  }

  /** What a session step does to the desk: a step of the desk alone, or a move of the session. */
  predicate SessionMove(d: Desk, d': Desk, s: Sid)
    requires s in d.phases
  {
    var phase := d.phases[s];
    || d' == d
    || (phase.SnapReplaced? && d' == Go(d, s, WakeReplaced(phase.prev)))
    || (phase.SnapGone? && d' == Go(d, s, WakeGone))
    || d' == Go(d, s, AfterSettling(phase))
    || (phase.Received? && (d' == Go(d, s, Leaving) || d' == Go(d, s, Routing(phase.msg))))
    || (phase.Routing? && (d' == Go(d, s, Holding) || d' == Go(d, s, Delivering)))
  }

  lemma SessionStepMoves(st: State, s: Sid, a: Action, cfg: Config)
    requires Named(st.desk, s)
    ensures
      var d' := SessionStep(st, s, a, cfg).desk;
      d' == DeskStep(st.desk, s, a, st.now) || SessionMove(st.desk, d', s)
  {}

  lemma SessionStepFrame(st: State, s: Sid, a: Action, cfg: Config)
    requires Named(st.desk, s)
    ensures
      var d, d' := st.desk, SessionStep(st, s, a, cfg).desk;
      d' == DeskStep(d, s, a, st.now) || (d'.table == d.table && d'.past == d.past)
  {
    SessionStepMoves(st, s, a, cfg);
  }

  lemma SessionMoveKeepsTable(d: Desk, d': Desk, s: Sid)
    requires TableInv(d) && s in d.phases && SessionMove(d, d', s)
    ensures TableInv(d')
  {
    var phase, p := d.phases[s], d.past;
    assert PhaseOk(phase, s, p.order, p.authed, p.displaced, p.removed);
    if phase.SnapReplaced? {
      MoveKeepsTable(d, s, WakeReplaced(phase.prev));
    } else if phase.SnapGone? {
      MoveKeepsTable(d, s, WakeGone);
    } else if Busy(phase) {
      BusyMoveKeepsTable(d, s, Leaving);
      BusyMoveKeepsTable(d, s, if phase.Received? then Routing(phase.msg) else Delivering);
      BusyMoveKeepsTable(d, s, Holding);
    }
    SettledKeepsTable(d, s);
  }

  lemma SettledKeepsTable(d: Desk, s: Sid)
    requires TableInv(d) && s in d.phases
    ensures TableInv(Go(d, s, AfterSettling(d.phases[s])))
  {
    var p := d.past;
    assert PhaseOk(d.phases[s], s, p.order, p.authed, p.displaced, p.removed);
    MoveKeepsTable(d, s, AfterSettling(d.phases[s]));
  }

  lemma SessionStepKeepsTable(st: State, s: Sid, a: Action, cfg: Config)
    requires TableInv(st.desk) && Named(st.desk, s)
    ensures TableInv(SessionStep(st, s, a, cfg).desk)
  {
    SessionStepMoves(st, s, a, cfg);
    EitherKeepsTable(st.desk, SessionStep(st, s, a, cfg).desk, s, a, st.now);
  }

  lemma EitherKeepsTable(d: Desk, d': Desk, s: Sid, a: Action, now: real)
    requires TableInv(d) && Named(d, s)
    requires d' == DeskStep(d, s, a, now) || SessionMove(d, d', s)
    ensures TableInv(d')
  {
    if d' == DeskStep(d, s, a, now) {
      DeskStepKeepsTable(d, s, a, now);
    } else {
      SessionMoveKeepsTable(d, d', s);
    }
  }

  lemma HandshakeStepKeepsTable(d: Desk, s: Sid, a: Action)
    requires TableInv(d) && s in d.phases
    ensures TableInv(HandshakeStep(d, s, a))
  {
    var phase, p := d.phases[s], d.past;
    assert PhaseOk(phase, s, p.order, p.authed, p.displaced, p.removed);
    if a.Hello? && phase.AwaitHello? {
      MoveKeepsTable(d, s, if a.compatible then AwaitAuth(a.name) else Over);
    } else if a.Auth? && phase.AwaitAuth? {
      if a.name == phase.hello && a.valid {
        AuthKeepsTable(d, s, a.name);
      } else {
        MoveKeepsTable(d, s, Over);
      }
    } else if a.Abort? && (phase.AwaitHello? || phase.AwaitAuth?) {
      MoveKeepsTable(d, s, Over);
    }
  }

  lemma ConnectKeepsTable(d: Desk, s: Sid)
    requires TableInv(d) && s !in d.phases
    ensures TableInv(Go(d, s, AwaitHello))
  {
    assert s !in d.past.order;
  }

  lemma StepKeepsTable(st: State, a: Action, cfg: Config)
    requires TableInv(st.desk)
    ensures TableInv(Step(st, a, cfg).desk)
  {
    if IsHandshakeAction(a) {
      if a.s in st.desk.phases {
        HandshakeStepKeepsTable(st.desk, a.s, a);
      }
    } else if IsSessionAction(a) {
      if Named(st.desk, a.s) {
        SessionStepKeepsTable(st, a.s, a, cfg);
      }
    } else if a.Connect? {
      if a.s !in st.desk.phases {
        ConnectKeepsTable(st.desk, a.s);
      }
    } else if a.SweepClose? {
      AskKeepsTable(st.desk, a.s);
    }
  }

  lemma {:induction false} RunKeepsTable(actions: seq<Action>, cfg: Config)
    ensures TableInv(Run(actions, cfg).desk)
  {
    if actions != [] {
      RunKeepsTable(actions[..|actions| - 1], cfg);
      StepKeepsTable(Run(actions[..|actions| - 1], cfg), actions[|actions| - 1], cfg);
    }
  }

  // ---------------------------------------------------------------------
  // Main results

  /** A session that has run its `unregister`, or never got as far as `register`. */
  predicate Gone(phase: Phase) {
    phase.SnapGone? || phase.WakeGone? || phase.Over?
  }

  /** The table refines the history: `n` maps to `s` exactly if `s` is the last session registered
  under `n` and has not unregistered since. */
  lemma TableRefinesHistory(actions: seq<Action>, cfg: Config, n: string, s: Sid)
    ensures
      var d := Run(actions, cfg).desk;
      n in d.table && d.table[n].sessionId == s
      <==> Named(d, s) && d.past.authed[s] == n && Latest(d.past.order, d.past.authed, s) && !Gone(d.phases[s])
  {
    RunKeepsTable(actions, cfg);
    var d := Run(actions, cfg).desk;
    var p := d.past;
    if n in d.table && d.table[n].sessionId == s {
      assert Latest(p.order, p.authed, s) && s !in p.removed && s !in p.displaced;
      assert PhaseOk(d.phases[s], s, p.order, p.authed, p.displaced, p.removed);
    }
    if Named(d, s) && p.authed[s] == n && Latest(p.order, p.authed, s) && !Gone(d.phases[s]) {
      assert PhaseOk(d.phases[s], s, p.order, p.authed, p.displaced, p.removed);
      assert s !in p.displaced;
      assert InTable(d.table, p.authed, s);
    }
  }

  /** Every session ever registered is in exactly one place: in the table, popped by its own
  unregister, or handed back as `previous`. */
  lemma SessionsAreConserved(actions: seq<Action>, cfg: Config, s: Sid)
    requires s in Run(actions, cfg).desk.past.order
    ensures
      var d := Run(actions, cfg).desk;
      var here, popped, replaced := InTable(d.table, d.past.authed, s), s in d.past.removed, s in d.past.displaced;
      && (here || popped || replaced)
      && !(here && popped) && !(here && replaced) && !(popped && replaced)
  {
    RunKeepsTable(actions, cfg);
  }

  /** A displaced session was handed to one later registrant of its name, which got no other; its
  socket has been asked to close by the time that registrant reads its first message. */
  lemma DisplacedOnceAndClosed(actions: seq<Action>, cfg: Config, p: Sid)
    requires p in Run(actions, cfg).desk.past.displaced
    ensures
      var d := Run(actions, cfg).desk;
      var s := d.past.displaced[p];
      && Named(d, p) && Named(d, s) && d.past.authed[p] == d.past.authed[s]
      && p in d.past.order && s in d.past.order && d.past.order[p] < d.past.order[s]
      && (forall q :: q in d.past.displaced && d.past.displaced[q] == s ==> q == p)
      && (Busy(d.phases[s]) || Gone(d.phases[s]) ==> p in d.past.closeAsked)
  {
    RunKeepsTable(actions, cfg);
  }

  /** History is never rewritten. */
  ghost predicate Grows(p: Past, p': Past) {
    && (forall s :: s in p.authed ==> s in p'.authed && p'.authed[s] == p.authed[s])
    && (forall s :: s in p.order ==> s in p'.order && p'.order[s] == p.order[s])
    && (forall s :: s in p.displaced ==> s in p'.displaced && p'.displaced[s] == p.displaced[s])
    && p.removed <= p'.removed && p.closeAsked <= p'.closeAsked
  }

  /** A session about to register is new to the history, and so is the displacement it causes. */
  predicate Fresh(d: Desk, s: Sid)
    requires Named(d, s)
  {
    var n := d.past.authed[s];
    s !in d.past.order && (n in d.table ==> d.table[n].sessionId !in d.past.displaced)
  }

  /** A session before its auth has no name, and one before its registration is fresh. */
  predicate Ready(d: Desk, s: Sid) {
    && (s in d.phases && d.phases[s].AwaitAuth? ==> s !in d.past.authed)
    && (Named(d, s) && d.phases[s].Authenticated? ==> Fresh(d, s))
  }

  lemma ActorIsReady(d: Desk, s: Sid)
    requires TableInv(d)
    ensures Ready(d, s)
  {
    if s in d.phases {
      assert PhaseOk(d.phases[s], s, d.past.order, d.past.authed, d.past.displaced, d.past.removed);
    }
  }

  lemma DeskStepGrows(d: Desk, s: Sid, a: Action, now: real)
    requires Named(d, s) && Ready(d, s)
    ensures Grows(d.past, DeskStep(d, s, a, now).past)
  {
    if a.Install? && d.phases[s].Authenticated? {
      InstallGrows(d, s, now);
    }
  }

  lemma InstallGrows(d: Desk, s: Sid, now: real)
    requires Named(d, s) && Fresh(d, s)
    ensures Grows(d.past, Installed(d, s, now).past)
  {}

  lemma SessionStepGrows(st: State, s: Sid, a: Action, cfg: Config)
    requires Named(st.desk, s) && Ready(st.desk, s)
    ensures Grows(st.desk.past, SessionStep(st, s, a, cfg).desk.past)
  {
    SessionStepFrame(st, s, a, cfg);
    DeskStepGrows(st.desk, s, a, st.now);
  }

  lemma HandshakeGrows(d: Desk, s: Sid, a: Action)
    requires s in d.phases && Ready(d, s)
    ensures Grows(d.past, HandshakeStep(d, s, a).past)
  {}

  lemma ReadyStepGrows(st: State, a: Action, cfg: Config)
    requires IsHandshakeAction(a) || IsSessionAction(a) ==> Ready(st.desk, a.s)
    ensures Grows(st.desk.past, Step(st, a, cfg).desk.past)
  {
    if IsHandshakeAction(a) {
      if a.s in st.desk.phases {
        HandshakeGrows(st.desk, a.s, a);
      }
    } else if IsSessionAction(a) {
      if Named(st.desk, a.s) {
        SessionStepGrows(st, a.s, a, cfg);
      }
    }
  }

  lemma StepGrows(st: State, a: Action, cfg: Config)
    requires TableInv(st.desk)
    ensures Grows(st.desk.past, Step(st, a, cfg).desk.past)
  {
    if IsHandshakeAction(a) || IsSessionAction(a) {
      ActorIsReady(st.desk, a.s);
    }
    ReadyStepGrows(st, a, cfg);
  }

  /** An entry leaves the table, or changes session, in two ways only: its own session unregisters, or
  a session authenticated under the same name registers and gets it as `previous`. No displaced
  session's `finally`, no heartbeat and no sweep takes it away. */
  lemma OnlyOwnerOrSuccessor(actions: seq<Action>, cfg: Config, a: Action, n: string)
    requires n in Run(actions, cfg).desk.table
    ensures
      var d, d' := Run(actions, cfg).desk, Run(actions + [a], cfg).desk;
      var s := d.table[n].sessionId;
      || (n in d'.table && d'.table[n].sessionId == s)
      || (a == Unregister(s) && n !in d'.table && s in d'.past.removed)
      || (a.Install? && Named(d, a.s) && d.past.authed[a.s] == n && a.s !in d.past.order
          && n in d'.table && d'.table[n].sessionId == a.s && s in d'.past.displaced && d'.past.displaced[s] == a.s)
  {
    RunKeepsTable(actions, cfg);
    var st := Run(actions, cfg);
    assert (actions + [a])[..|actions|] == actions;
    if IsSessionAction(a) {
      ActorIsReady(st.desk, a.s);
    }
    OwnerOrSuccessor(st, a, cfg, n);
  }

  lemma OwnerOrSuccessor(st: State, a: Action, cfg: Config, n: string)
    requires n in st.desk.table
    requires IsSessionAction(a) ==> Ready(st.desk, a.s)
    ensures
      var d, d' := st.desk, Step(st, a, cfg).desk;
      var s := d.table[n].sessionId;
      || (n in d'.table && d'.table[n].sessionId == s)
      || (a == Unregister(s) && n !in d'.table && s in d'.past.removed)
      || (a.Install? && Named(d, a.s) && d.past.authed[a.s] == n && a.s !in d.past.order
          && n in d'.table && d'.table[n].sessionId == a.s && s in d'.past.displaced && d'.past.displaced[s] == a.s)
  {
    if IsSessionAction(a) && Named(st.desk, a.s) {
      SessionStepFrame(st, a.s, a, cfg);
      OwnerOrSuccessorStep(st.desk, a.s, a, st.now, n);
    }
  }

  lemma OwnerOrSuccessorStep(d: Desk, s: Sid, a: Action, now: real, n: string)
    requires Named(d, s) && IsSessionAction(a) && a.s == s && n in d.table
    ensures
      var d' := DeskStep(d, s, a, now);
      || (n in d'.table && d'.table[n].sessionId == d.table[n].sessionId)
      || (a.Unregister? && s == d.table[n].sessionId && n !in d'.table && s in d'.past.removed)
      || (a.Install? && d.phases[s].Authenticated? && d.past.authed[s] == n
          && n in d'.table && d'.table[n].sessionId == s
          && d.table[n].sessionId in d'.past.displaced && d'.past.displaced[d.table[n].sessionId] == s)
  {}
}
