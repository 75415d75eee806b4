/** When a disconnect can reach a call that was made on a newer connection. The table step of
`register` and `unregister` and the snapshot of the waiters are two lock bodies; a call that registers
its waiter between them would be woken although its own connection is live. Over every run that gap is
the only way it could happen, so runs in which nothing happens between the two are safe. */
module RelayGaps {
  import opened Registry
  import opened Wrappers
  import opened Relay
  import opened RelayTable
  import opened RelayMail

  /** The stages after `register_waiter`. */
  predicate Entered(stage: Stage) {
    Registered(stage) || (stage.Finished? && !stage.ending.NoOp? && !stage.ending.NotConnected?)
  }

  /** `s` speaks of the end of a connection older than `via`: it was registered earlier, or what it
  displaced was. */
  predicate Stray(order: Order, via: Sid, s: Sid, reason: Reason) {
    s in order && via in order && (order[s] < order[via] || (reason.ConnectionReplaced? && s == via))
  }

  predicate Snapping(phase: Phase) {
    phase.SnapReplaced? || phase.SnapGone?
  }

  function SnapReason(phase: Phase): Reason {
    if phase.SnapGone? then NodeDisconnected else ConnectionReplaced
  }

  predicate StraySnap(phases: map<Sid, Phase>, names: Names, order: Order, via: Sid, node: string, s: Sid) {
    s in phases && s in names && names[s] == node && Snapping(phases[s]) && Stray(order, via, s, SnapReason(phases[s]))
  }

  /** Whoever is about to snapshot waiters for an older connection's sake stood in the gap. */
  ghost predicate Aware(call: Call, phases: map<Sid, Phase>, names: Names, order: Order) {
    forall s :: StraySnap(phases, names, order, call.via, call.node, s) ==> s in call.gap
  }

  predicate ViaOk(call: Call, names: Names, order: Order) {
    call.via in order && call.via in names && names[call.via] == call.node
  }

  ghost predicate CallKnows(call: Call, phases: map<Sid, Phase>, names: Names, order: Order) {
    && (call.stage.Found? || Entered(call.stage) ==> ViaOk(call, names, order))
    && (Entered(call.stage) ==> Aware(call, phases, names, order))
  }

  predicate Known(call: Call, s: Sid, reason: Reason, order: Order) {
    Entered(call.stage) && s in order && (Stray(order, call.via, s, reason) ==> s in call.gap)
  }

  predicate FutureKnown(call: Call, order: Order) {
    call.future.Failed? ==> Known(call, call.future.owner, call.future.reason, order)
  }

  predicate HoldKnown(call: Call, h: Hold, order: Order) {
    h.verdict.Fail? ==> Known(call, h.owner, h.verdict.reason, order)
  }

  ghost predicate GapInv(hand: map<Req, Hold>, calls: Calls, phases: map<Sid, Phase>, names: Names, order: Order) {
    && (forall c :: c in calls ==> CallKnows(calls[c], phases, names, order) && FutureKnown(calls[c], order))
    && (forall c :: c in hand ==> c in calls && HoldKnown(calls[c], hand[c], order))
  }

  // ---------------------------------------------------------------------
  // The desk moves

  ghost predicate Extends<V(!new)>(m: map<Sid, V>, m': map<Sid, V>) {
    forall s :: s in m ==> s in m' && m'[s] == m[s]
  }

  /** Nobody new is about to snapshot for an older connection's sake. */
  ghost predicate Calm(phases: map<Sid, Phase>, names: Names, order: Order,
                       phases': map<Sid, Phase>, names': Names, order': Order) {
    && Extends(names, names') && Extends(order, order')
    && forall via, node, s ::
         via in order && via in names && names[via] == node && StraySnap(phases', names', order', via, node, s)
         ==> StraySnap(phases, names, order, via, node, s)
  }

  lemma CalmKeepsGaps(hand: map<Req, Hold>, calls: Calls, phases: map<Sid, Phase>, names: Names, order: Order,
                      phases': map<Sid, Phase>, names': Names, order': Order)
    requires GapInv(hand, calls, phases, names, order) && Calm(phases, names, order, phases', names', order')
    ensures GapInv(hand, calls, phases', names', order')
  {
    forall c | c in calls ensures CallKnows(calls[c], phases', names', order') && FutureKnown(calls[c], order') {
      assert CallKnows(calls[c], phases, names, order) && FutureKnown(calls[c], order);
    }
    forall c | c in hand ensures HoldKnown(calls[c], hand[c], order') {
      assert HoldKnown(calls[c], hand[c], order) && CallKnows(calls[c], phases, names, order);
    }
  }

  /** A session that registers is newer than every connection a call got. */
  lemma InstallIsCalm(d: Desk, s: Sid, now: real)
    requires TableInv(d) && Named(d, s) && Fresh(d, s)
    ensures
      var d' := Installed(d, s, now);
      Calm(d.phases, d.past.authed, d.past.order, d'.phases, d'.past.authed, d'.past.order)
  {
    var p := d.past;
    NewestIsCalm(d.phases, p.authed, p.order, p.installs, s, Installed(d, s, now).phases[s]);
  }

  lemma NewestIsCalm(phases: map<Sid, Phase>, names: Names, order: Order, installs: nat, s: Sid, phase: Phase)
    requires OrderOk(order, installs, names) && s !in order && !phase.SnapGone?
    ensures Calm(phases, names, order, phases[s := phase], names, order[s := installs])
  {}

  /** A session that pops itself is the last registered under its name. */
  lemma UnregisterIsCalm(d: Desk, s: Sid)
    requires TableInv(d) && Named(d, s)
    ensures
      var d' := Unregistered(d, s);
      Calm(d.phases, d.past.authed, d.past.order, d'.phases, d'.past.authed, d'.past.order)
  {
    if Removable(d.table, d.past.authed[s], Some(s)) {
      assert Latest(d.past.order, d.past.authed, s);
    }
  }

  /** Nothing but a phase changes, and not into a snapshot. */
  lemma MoveIsCalm(phases: map<Sid, Phase>, names: Names, order: Order, s: Sid, phase: Phase)
    requires !Snapping(phase) || (s in phases && phases[s] == phase)
    ensures Calm(phases, names, order, phases[s := phase], names, order)
  {}

  lemma NameIsCalm(phases: map<Sid, Phase>, names: Names, order: Order, s: Sid, name: string)
    requires s !in names
    ensures Calm(phases, names, order, phases[s := Authenticated], names[s := name], order)
  {}

  lemma DeskStepIsCalm(d: Desk, s: Sid, a: Action, now: real)
    requires TableInv(d) && Named(d, s)
    ensures
      var d' := DeskStep(d, s, a, now);
      Calm(d.phases, d.past.authed, d.past.order, d'.phases, d'.past.authed, d'.past.order)
  {
    var phase := d.phases[s];
    if a.Install? && phase.Authenticated? {
      ActorIsReady(d, s);
      InstallIsCalm(d, s, now);
    } else if a.Unregister? && phase.Leaving? {
      UnregisterIsCalm(d, s);
    } else {
      DeskStepMovesOnly(d, s, a, now);
      MoveIsCalm(d.phases, d.past.authed, d.past.order, s, DeskStep(d, s, a, now).phases[s]);
    }
  }

  lemma DeskStepMovesOnly(d: Desk, s: Sid, a: Action, now: real)
    requires Named(d, s) && !(a.Install? && d.phases[s].Authenticated?) && !(a.Unregister? && d.phases[s].Leaving?)
    ensures
      var d' := DeskStep(d, s, a, now);
      && s in d'.phases && d'.phases == d.phases[s := d'.phases[s]]
      && (d'.phases[s] == d.phases[s] || !Snapping(d'.phases[s]))
      && d'.past.authed == d.past.authed && d'.past.order == d.past.order
  {
    assert d.phases == d.phases[s := d.phases[s]];
  }

  lemma SessionMoveIsCalm(d: Desk, d': Desk, s: Sid)
    requires s in d.phases && SessionMove(d, d', s)
    ensures Calm(d.phases, d.past.authed, d.past.order, d'.phases, d'.past.authed, d'.past.order)
  {
    SessionMoveMoves(d, d', s);
    MoveIsCalm(d.phases, d.past.authed, d.past.order, s, d'.phases[s]);
  }

  lemma SessionMoveMoves(d: Desk, d': Desk, s: Sid)
    requires s in d.phases && SessionMove(d, d', s)
    ensures s in d'.phases && d'.phases == d.phases[s := d'.phases[s]] && d'.past == d.past
    ensures d'.phases[s] == d.phases[s] || !Snapping(d'.phases[s])
  {
    assert d.phases == d.phases[s := d.phases[s]];
  }

  lemma SessionStepIsCalm(st: State, s: Sid, a: Action, cfg: Config)
    requires TableInv(st.desk) && Named(st.desk, s)
    ensures
      var d, d' := st.desk, SessionStep(st, s, a, cfg).desk;
      Calm(d.phases, d.past.authed, d.past.order, d'.phases, d'.past.authed, d'.past.order)
  {
    SessionStepMoves(st, s, a, cfg);
    EitherIsCalm(st.desk, SessionStep(st, s, a, cfg).desk, s, a, st.now);
  }

  lemma EitherIsCalm(d: Desk, d': Desk, s: Sid, a: Action, now: real)
    requires TableInv(d) && Named(d, s)
    requires d' == DeskStep(d, s, a, now) || SessionMove(d, d', s)
    ensures Calm(d.phases, d.past.authed, d.past.order, d'.phases, d'.past.authed, d'.past.order)
  {
    if d' == DeskStep(d, s, a, now) {
      DeskStepIsCalm(d, s, a, now);
    } else {
      SessionMoveIsCalm(d, d', s);
    }
  }

  lemma HandshakeIsCalm(d: Desk, s: Sid, a: Action)
    requires TableInv(d) && s in d.phases
    ensures
      var d' := HandshakeStep(d, s, a);
      Calm(d.phases, d.past.authed, d.past.order, d'.phases, d'.past.authed, d'.past.order)
  {
    var phase, p := d.phases[s], d.past;
    if a.Auth? && phase.AwaitAuth? && a.name == phase.hello && a.valid {
      ActorIsReady(d, s);
      NameIsCalm(d.phases, p.authed, p.order, s, a.name);
    } else {
      var phase' := HandshakeStep(d, s, a).phases[s];
      assert d.phases == d.phases[s := phase];
      MoveIsCalm(d.phases, p.authed, p.order, s, phase');
    }
  }

  lemma StepIsCalm(st: State, a: Action, cfg: Config)
    requires TableInv(st.desk)
    ensures
      var d, d' := st.desk, Step(st, a, cfg).desk;
      Calm(d.phases, d.past.authed, d.past.order, d'.phases, d'.past.authed, d'.past.order)
  {
    if IsHandshakeAction(a) {
      if a.s in st.desk.phases {
        HandshakeIsCalm(st.desk, a.s, a);
      }
    } else if IsSessionAction(a) {
      if Named(st.desk, a.s) {
        SessionStepIsCalm(st, a.s, a, cfg);
      }
    } else if a.Connect? {
      MoveIsCalm(st.desk.phases, st.desk.past.authed, st.desk.past.order, a.s, AwaitHello);
    }
  }

  // ---------------------------------------------------------------------
  // The mail moves

  ghost predicate GapsOk(m: Mail, d: Desk) {
    GapInv(m.hand, m.calls, d.phases, d.past.authed, d.past.order)
  }

  /** Keys of a node belong to calls that know who stands in the gap. */
  lemma PoppedKeepsGaps(m: Mail, d: Desk, s: Sid, reason: Reason)
    requires Inv(m) && GapsOk(m, d) && Named(d, s) && s in d.past.order
    requires Snapping(d.phases[s]) && SnapReason(d.phases[s]) == reason
    ensures GapsOk(Popped(m, d.past.authed[s], s, reason), d)
  {
    var hand' := Popped(m, d.past.authed[s], s, reason).hand;
    forall c | c in hand' ensures c in m.calls && HoldKnown(m.calls[c], hand'[c], d.past.order) {
      if c in m.hand && hand'[c] == m.hand[c] {
        assert HoldKnown(m.calls[c], m.hand[c], d.past.order);
      } else {
        var call := m.calls[c];
        assert CallOk(call, Keyed(m.waiters, m.calls, c), c in m.hand);
        assert CallKnows(call, d.phases, d.past.authed, d.past.order);
        assert Stray(d.past.order, call.via, s, reason)
          ==> StraySnap(d.phases, d.past.authed, d.past.order, call.via, call.node, s);
      }
    }
  }

  lemma UpdateKeepsGaps(m: Mail, d: Desk, c: Req, call: Call)
    requires GapsOk(m, d)
    requires CallKnows(call, d.phases, d.past.authed, d.past.order) && FutureKnown(call, d.past.order)
    requires c in m.hand ==> HoldKnown(call, m.hand[c], d.past.order)
    ensures GapInv(m.hand, m.calls[c := call], d.phases, d.past.authed, d.past.order)
  {}

  lemma SettleKeepsGaps(m: Mail, d: Desk, c: Req)
    requires GapsOk(m, d) && c in m.hand && c in m.calls
    ensures GapsOk(DoSettle(m, c), d)
  {
    var call := SettledCall(m.calls[c], m.hand[c]);
    assert CallKnows(m.calls[c], d.phases, d.past.authed, d.past.order) && FutureKnown(m.calls[c], d.past.order);
    assert HoldKnown(m.calls[c], m.hand[c], d.past.order);
    UpdateKeepsGaps(m, d, c, call);
  }

  lemma SessionKeepsGaps(st: State, s: Sid, a: Action, m': Mail)
    requires TableInv(st.desk) && Inv(st.mail) && GapsOk(st.mail, st.desk)
    requires Named(st.desk, s) && SessionMail(st, s, a, m')
    ensures GapsOk(m', st.desk)
  {
    var m, d, phase, p := st.mail, st.desk, st.desk.phases[s], st.desk.past;
    assert PhaseOk(phase, s, p.order, p.authed, p.displaced, p.removed);
    if m' == m {
    } else if a.Snapshot? {
      PoppedKeepsGaps(m, d, s, SnapReason(phase));
    } else if a.Settle? {
      SettleKeepsGaps(m, d, a.c);
    }
  }

  /** `register_waiter` notes who stands in the gap. */
  lemma RegisterKeepsGaps(m: Mail, d: Desk, c: Req)
    requires Inv(m) && GapsOk(m, d) && c in m.calls && m.calls[c].stage.Found?
    ensures GapsOk(DoRegisterWaiter(m, c, Gap(d, m.calls[c].node)), d)
  {
    var call := m.calls[c];
    assert CallOk(call, Keyed(m.waiters, m.calls, c), c in m.hand);
    assert CallKnows(call, d.phases, d.past.authed, d.past.order);
    UpdateKeepsGaps(m, d, c, call.(stage := Sending, gap := Gap(d, call.node)));
  }

  lemma LookKeepsGaps(m: Mail, d: Desk, c: Req)
    requires TableInv(d) && Inv(m) && GapsOk(m, d) && c in m.calls && m.calls[c].stage.Looking?
    ensures GapsOk(DoLook(m, c, d.table), d)
  {
    var call := m.calls[c];
    assert CallOk(call, Keyed(m.waiters, m.calls, c), c in m.hand);
    if call.node in d.table {
      assert Latest(d.past.order, d.past.authed, d.table[call.node].sessionId);
    }
    UpdateKeepsGaps(m, d, c, DoLook(m, c, d.table).calls[c]);
  }

  /** After registration a call keeps its connection, its gap and a settled future. */
  predicate MovesOn(call: Call, call': Call) {
    && call'.via == call.via && call'.gap == call.gap && call'.node == call.node
    && (call'.future == call.future || call'.future.Cancelled?)
    && Entered(call.stage) && Entered(call'.stage)
  }

  lemma MovesOnKeepsGaps(m: Mail, d: Desk, c: Req, call: Call)
    requires GapsOk(m, d) && c in m.calls && MovesOn(m.calls[c], call)
    ensures GapInv(m.hand, m.calls[c := call], d.phases, d.past.authed, d.past.order)
  {
    assert CallKnows(m.calls[c], d.phases, d.past.authed, d.past.order) && FutureKnown(m.calls[c], d.past.order);
    UpdateKeepsGaps(m, d, c, call);
  }

  lemma CallStepMovesOn(m: Mail, c: Req, a: Action, d: Desk)
    requires c in m.calls && !(a.Look? && m.calls[c].stage.Looking?) && !(a.RegisterWaiter? && m.calls[c].stage.Found?)
    ensures
      var m' := CallStep(m, c, a, d);
      && m'.hand == m.hand && c in m'.calls && m'.calls == m.calls[c := m'.calls[c]]
      && (m'.calls[c] == m.calls[c] || MovesOn(m.calls[c], m'.calls[c]))
  {
    assert m.calls == m.calls[c := m.calls[c]];
  }

  lemma CallStepKeepsGaps(m: Mail, c: Req, a: Action, d: Desk)
    requires TableInv(d) && Inv(m) && GapsOk(m, d) && c in m.calls
    ensures GapsOk(CallStep(m, c, a, d), d)
  {
    if a.Look? && m.calls[c].stage.Looking? {
      LookKeepsGaps(m, d, c);
    } else if a.RegisterWaiter? && m.calls[c].stage.Found? {
      RegisterKeepsGaps(m, d, c);
    } else {
      CallStepMovesOn(m, c, a, d);
      if CallStep(m, c, a, d).calls[c] != m.calls[c] {
        MovesOnKeepsGaps(m, d, c, CallStep(m, c, a, d).calls[c]);
      }
    }
  }

  lemma BeginKeepsGaps(m: Mail, d: Desk, c: Req, node: string, kind: Kind, blank: bool)
    requires Inv(m) && GapsOk(m, d)
    ensures GapsOk(DoBegin(m, c, node, kind, blank), d)
  {
    if c != "" && c !in m.calls {
      UpdateKeepsGaps(m, d, c, DoBegin(m, c, node, kind, blank).calls[c]);
    }
  }

  lemma MailKeepsGaps(st: State, a: Action, cfg: Config)
    requires TableInv(st.desk) && Inv(st.mail) && GapsOk(st.mail, st.desk)
    ensures GapsOk(Step(st, a, cfg).mail, st.desk)
  {
    if IsSessionAction(a) {
      if Named(st.desk, a.s) {
        SessionStepMail(st, a.s, a, cfg);
        SessionKeepsGaps(st, a.s, a, SessionStep(st, a.s, a, cfg).mail);
      }
    } else if IsCallAction(a) {
      if a.c in st.mail.calls {
        CallStepKeepsGaps(st.mail, a.c, a, st.desk);
      }
    } else if a.Begin? {
      BeginKeepsGaps(st.mail, st.desk, a.c, a.node, a.kind, a.blank);
    }
  }

  lemma StepKeepsGaps(st: State, a: Action, cfg: Config)
    requires TableInv(st.desk) && Inv(st.mail) && GapsOk(st.mail, st.desk)
    ensures GapsOk(Step(st, a, cfg).mail, Step(st, a, cfg).desk)
  {
    MailKeepsGaps(st, a, cfg);
    StepIsCalm(st, a, cfg);
    var m', d, d' := Step(st, a, cfg).mail, st.desk, Step(st, a, cfg).desk;
    CalmKeepsGaps(m'.hand, m'.calls, d.phases, d.past.authed, d.past.order, d'.phases, d'.past.authed, d'.past.order);
  }

  lemma {:induction false} RunKeepsGaps(actions: seq<Action>, cfg: Config)
    ensures GapsOk(Run(actions, cfg).mail, Run(actions, cfg).desk)
  {
    if actions != [] {
      var before := actions[..|actions| - 1];
      RunKeepsGaps(before, cfg);
      RunKeepsTable(before, cfg);
      RunKeepsMail(before, cfg);
      StepKeepsGaps(Run(before, cfg), actions[|actions| - 1], cfg);
    }
  }

  // ---------------------------------------------------------------------
  // Main result

  /** A call that failed although nobody displaced or popped its own connection, or a later one of its
  node, had registered its waiter inside the gap of the session that woke it. So a call that found
  the gap empty fails only with its own connection, or with the arrival or end of a newer one. */
  lemma StrayWakesComeFromTheGap(actions: seq<Action>, cfg: Config, c: Req)
    requires c in Run(actions, cfg).mail.calls && Run(actions, cfg).mail.calls[c].future.Failed?
    ensures
      var call, p := Run(actions, cfg).mail.calls[c], Run(actions, cfg).desk.past;
      var s, reason := call.future.owner, call.future.reason;
      && call.via in p.order && call.via in p.authed && p.authed[call.via] == call.node && s in p.order
      && (s !in call.gap ==>
            || p.order[call.via] < p.order[s]
            || (s == call.via && reason == NodeDisconnected))
  {
    RunKeepsGaps(actions, cfg);
    RunKeepsTable(actions, cfg);
    var call, p, phases := Run(actions, cfg).mail.calls[c], Run(actions, cfg).desk.past, Run(actions, cfg).desk.phases;
    assert CallKnows(call, phases, p.authed, p.order) && FutureKnown(call, p.order);
  }

  // ---------------------------------------------------------------------
  // Reconnect safety

  /** The action registers no waiter in the gap of its node. */
  predicate OutsideGap(st: State, a: Action) {
    a.RegisterWaiter? && a.c in st.mail.calls ==> Gap(st.desk, st.mail.calls[a.c].node) == {}
  }

  ghost predicate NobodyInGap(actions: seq<Action>, cfg: Config) {
    forall i :: 0 <= i < |actions| ==> OutsideGap(Run(actions[..i], cfg), actions[i])
  }

  /** A session between its table step and its snapshot goes first. */
  ghost predicate SnapshotFirst(st: State, a: Action) {
    forall s :: s in st.desk.phases && Snapping(st.desk.phases[s]) ==> a == Snapshot(s)
  }

  /** Nothing else runs between a table step and its snapshot: a free lock is taken without a pause,
  and no lock body pauses, so the lock always is free. */
  ghost predicate SnapshotsAtOnce(actions: seq<Action>, cfg: Config) {
    forall i :: 0 <= i < |actions| ==> SnapshotFirst(Run(actions[..i], cfg), actions[i])
  }

  lemma AtOnceMeansNobodyInGap(actions: seq<Action>, cfg: Config)
    requires SnapshotsAtOnce(actions, cfg)
    ensures NobodyInGap(actions, cfg)
  {
    forall i | 0 <= i < |actions| ensures OutsideGap(Run(actions[..i], cfg), actions[i]) {
      FirstMeansOutside(Run(actions[..i], cfg), actions[i]);
    }
  }

  lemma FirstMeansOutside(st: State, a: Action)
    requires SnapshotFirst(st, a)
    ensures OutsideGap(st, a)
  {
    if a.RegisterWaiter? && a.c in st.mail.calls {
      forall s | s in Gap(st.desk, st.mail.calls[a.c].node) ensures a == Snapshot(s) {}
    }
  }

  ghost predicate GapsEmpty(calls: Calls) {
    forall c :: c in calls ==> calls[c].gap == {}
  }

  lemma CallStepKeepsEmpty(m: Mail, c: Req, a: Action, d: Desk)
    requires GapsEmpty(m.calls) && c in m.calls && (a.RegisterWaiter? ==> Gap(d, m.calls[c].node) == {})
    ensures GapsEmpty(CallStep(m, c, a, d).calls)
  {
    if !(a.Look? && m.calls[c].stage.Looking?) && !(a.RegisterWaiter? && m.calls[c].stage.Found?) {
      CallStepMovesOn(m, c, a, d);
    }
  }

  lemma StepKeepsEmpty(st: State, a: Action, cfg: Config)
    requires GapsEmpty(st.mail.calls) && OutsideGap(st, a)
    ensures GapsEmpty(Step(st, a, cfg).mail.calls)
  {
    if IsSessionAction(a) {
      if Named(st.desk, a.s) {
        SessionStepMail(st, a.s, a, cfg);
      }
    } else if IsCallAction(a) {
      if a.c in st.mail.calls {
        CallStepKeepsEmpty(st.mail, a.c, a, st.desk);
      }
    }
  }

  lemma {:induction false} RunKeepsEmpty(actions: seq<Action>, cfg: Config)
    requires NobodyInGap(actions, cfg)
    ensures GapsEmpty(Run(actions, cfg).mail.calls)
  {
    if actions != [] {
      var n := |actions| - 1;
      var front := actions[..n];
      forall i | 0 <= i < n ensures OutsideGap(Run(front[..i], cfg), front[i]) {
        assert front[..i] == actions[..i] && OutsideGap(Run(actions[..i], cfg), actions[i]);
      }
      RunKeepsEmpty(front, cfg);
      assert OutsideGap(Run(front, cfg), actions[n]);
      StepKeepsEmpty(Run(front, cfg), actions[n], cfg);
    }
  }

  /** Reconnect safety: if every snapshot follows its table step at once, or at least nobody registers a
  waiter in between, a call fails only because its own connection was popped by its own unregister, or
  because a session registered later than that connection arrived or went. No older session's
  unregister, and no earlier replacement, fails a call made on a newer connection. */
  lemma OldSessionsFailNoNewCalls(actions: seq<Action>, cfg: Config, c: Req)
    requires SnapshotsAtOnce(actions, cfg) || NobodyInGap(actions, cfg)
    requires c in Run(actions, cfg).mail.calls && Run(actions, cfg).mail.calls[c].future.Failed?
    ensures
      var call, order := Run(actions, cfg).mail.calls[c], Run(actions, cfg).desk.past.order;
      var s, reason := call.future.owner, call.future.reason;
      && call.via in order && s in order
      && (order[call.via] < order[s] || (s == call.via && reason == NodeDisconnected))
  {
    if SnapshotsAtOnce(actions, cfg) {
      AtOnceMeansNobodyInGap(actions, cfg);
    }
    RunKeepsEmpty(actions, cfg);
    StrayWakesComeFromTheGap(actions, cfg, c);
  }
}
