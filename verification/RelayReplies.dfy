/** What reaches a caller, over every run of the relay: a reply with its own id from a session of its
own node, or the news that such a session was displaced or popped. */
module RelayReplies {
  import opened Registry
  import opened Wrappers
  import opened Handlers
  import opened Relay
  import opened RelayTable
  import opened RelayMail

  predicate Settling(phase: Phase) {
    phase.WakeReplaced? || phase.WakeGone? || phase.Delivering?
  }

  /** The phase in which a session settles futures with this verdict on `c`. */
  predicate VerdictOk(verdict: Verdict, phase: Phase, c: Req) {
    if verdict.Deliver? then phase.Delivering? && Wire.Answers(verdict.msg) == Some(c)
    else if verdict.reason.ConnectionReplaced? then phase.WakeReplaced?
    else phase.WakeGone?
  }

  /** A popped future is held by a session of its node that is settling just now. */
  predicate HeldOk(h: Hold, c: Req, node: string, phases: map<Sid, Phase>, names: Names) {
    && h.owner in phases && h.owner in names && names[h.owner] == node
    && VerdictOk(h.verdict, phases[h.owner], c)
  }

  ghost predicate HandOk(hand: map<Req, Hold>, calls: Calls, phases: map<Sid, Phase>, names: Names) {
    forall c :: c in hand ==> c in calls && HeldOk(hand[c], c, calls[c].node, phases, names)
  }

  /** `s` was handed a displaced session. */
  ghost predicate Displacer(displaced: map<Sid, Sid>, s: Sid) {
    exists p :: p in displaced && displaced[p] == s
  }

  ghost predicate FailureOk(reason: Reason, s: Sid, displaced: map<Sid, Sid>, removed: set<Sid>) {
    if reason.ConnectionReplaced? then Displacer(displaced, s) else s in removed
  }

  ghost predicate PromiseOk(future: Promise, c: Req, node: string, names: Names, displaced: map<Sid, Sid>,
                            removed: set<Sid>)
  {
    && (future.Answered? ==>
          Wire.Answers(future.msg) == Some(c) && future.owner in names && names[future.owner] == node)
    && (future.Failed? ==>
          && future.owner in names && names[future.owner] == node
          && FailureOk(future.reason, future.owner, displaced, removed))
  }

  ghost predicate PromisesOk(calls: Calls, names: Names, displaced: map<Sid, Sid>, removed: set<Sid>) {
    forall c :: c in calls ==> PromiseOk(calls[c].future, c, calls[c].node, names, displaced, removed)
  }

  ghost predicate ReplyInv(m: Mail, d: Desk) {
    && HandOk(m.hand, m.calls, d.phases, d.past.authed)
    && PromisesOk(m.calls, d.past.authed, d.past.displaced, d.past.removed)
  }

  // ---------------------------------------------------------------------
  // The desk moves under the hands

  /** No session that holds a future moves. */
  ghost predicate OwnersStay(hand: map<Req, Hold>, phases: map<Sid, Phase>, names: Names,
                             phases': map<Sid, Phase>, names': Names) {
    forall c :: c in hand && hand[c].owner in phases && hand[c].owner in names ==>
      var s := hand[c].owner;
      s in phases' && phases'[s] == phases[s] && s in names' && names'[s] == names[s]
  }

  lemma OwnersKeepHand(hand: map<Req, Hold>, calls: Calls, phases: map<Sid, Phase>, names: Names,
                       phases': map<Sid, Phase>, names': Names)
    requires HandOk(hand, calls, phases, names) && OwnersStay(hand, phases, names, phases', names')
    ensures HandOk(hand, calls, phases', names')
  {
    forall c | c in hand ensures HeldOk(hand[c], c, calls[c].node, phases', names') {
      assert HeldOk(hand[c], c, calls[c].node, phases, names);
    }
  }

  /** One session moves, and it holds nothing. */
  lemma OneMoves(hand: map<Req, Hold>, calls: Calls, phases: map<Sid, Phase>, names: Names, s: Sid, phase: Phase)
    requires HandOk(hand, calls, phases, names)
    requires s in phases ==> phases[s] == phase || !Settling(phases[s]) || forall c :: c in hand ==> hand[c].owner != s
    ensures OwnersStay(hand, phases, names, phases[s := phase], names)
  {
    forall c | c in hand ensures s in phases && phases[s] != phase ==> hand[c].owner != s {
      assert HeldOk(hand[c], c, calls[c].node, phases, names);
    }
  }

  lemma DeskStepMovesOne(d: Desk, s: Sid, a: Action, now: real)
    requires Named(d, s)
    ensures
      var d' := DeskStep(d, s, a, now);
      && s in d'.phases && d'.phases == d.phases[s := d'.phases[s]] && d'.past.authed == d.past.authed
      && (d'.phases[s] == d.phases[s] || !Settling(d.phases[s]))
  {
    assert d.phases == d.phases[s := d.phases[s]];
  }

  /** A session step moves its session at most, and not while it holds a future. */
  lemma SessionMovesOne(st: State, s: Sid, a: Action, cfg: Config)
    requires Named(st.desk, s)
    ensures
      var d, d' := st.desk, SessionStep(st, s, a, cfg).desk;
      && s in d'.phases && d'.phases == d.phases[s := d'.phases[s]] && d'.past.authed == d.past.authed
      && (d'.phases[s] == d.phases[s] || !Settling(d.phases[s]) || EmptyHanded(st.mail, s))
  {
    DeskStepMovesOne(st.desk, s, a, st.now);
    assert st.desk.phases == st.desk.phases[s := st.desk.phases[s]];
  }

  lemma SessionOwnersStay(st: State, s: Sid, a: Action, cfg: Config)
    requires Named(st.desk, s)
    requires HandOk(st.mail.hand, st.mail.calls, st.desk.phases, st.desk.past.authed)
    ensures
      var d, d' := st.desk, SessionStep(st, s, a, cfg).desk;
      OwnersStay(st.mail.hand, d.phases, d.past.authed, d'.phases, d'.past.authed)
  {
    SessionMovesOne(st, s, a, cfg);
    var phase := SessionStep(st, s, a, cfg).desk.phases[s];
    OneMoves(st.mail.hand, st.mail.calls, st.desk.phases, st.desk.past.authed, s, phase);
  }

  lemma HandshakeOwnersStay(hand: map<Req, Hold>, calls: Calls, d: Desk, s: Sid, a: Action)
    requires s in d.phases && HandOk(hand, calls, d.phases, d.past.authed)
    ensures
      var d' := HandshakeStep(d, s, a);
      OwnersStay(hand, d.phases, d.past.authed, d'.phases, d'.past.authed)
  {
    forall c | c in hand ensures d.phases[s].AwaitHello? || d.phases[s].AwaitAuth? ==> hand[c].owner != s {
      assert HeldOk(hand[c], c, calls[c].node, d.phases, d.past.authed);
    }
  }

  // ---------------------------------------------------------------------
  // The hands move over the desk

  lemma PoppedKeepsHand(m: Mail, phases: map<Sid, Phase>, names: Names, s: Sid, reason: Reason)
    requires HandOk(m.hand, m.calls, phases, names) && Inv(m)
    requires s in phases && s in names
    requires if reason.ConnectionReplaced? then phases[s].WakeReplaced? else phases[s].WakeGone?
    ensures HandOk(Popped(m, names[s], s, reason).hand, m.calls, phases, names)
  {
    var hand' := Popped(m, names[s], s, reason).hand;
    forall c | c in hand' ensures c in m.calls && HeldOk(hand'[c], c, m.calls[c].node, phases, names) {
      if c in m.hand {
        assert HeldOk(m.hand[c], c, m.calls[c].node, phases, names);
      }
    }
  }

  lemma PoppedOneKeepsHand(m: Mail, phases: map<Sid, Phase>, names: Names, s: Sid, key: Key, msg: Wire.Json)
    requires HandOk(m.hand, m.calls, phases, names) && Inv(m) && key in m.waiters
    requires s in phases && s in names && phases[s].Delivering?
    requires key.node == names[s] && Wire.Answers(msg) == Some(key.id)
    ensures HandOk(PoppedOne(m, key, s, msg).hand, m.calls, phases, names)
  {}

  lemma SettleKeepsHand(m: Mail, phases: map<Sid, Phase>, names: Names, c: Req)
    requires HandOk(m.hand, m.calls, phases, names) && c in m.hand && c in m.calls
    ensures HandOk(DoSettle(m, c).hand, DoSettle(m, c).calls, phases, names)
  {
    var m' := DoSettle(m, c);
    forall x | x in m'.hand ensures x in m'.calls && HeldOk(m'.hand[x], x, m'.calls[x].node, phases, names) {
      assert HeldOk(m.hand[x], x, m.calls[x].node, phases, names);
    }
  }

  /** What a session step does to the mail, with where the session stands after it. */
  predicate SessionBoth(st: State, s: Sid, a: Action, d': Desk, m': Mail)
    requires Named(st.desk, s)
  {
    var phase := st.desk.phases[s];
    && Named(d', s) && d'.past.authed == st.desk.past.authed && SessionMail(st, s, a, m')
    && (a.Snapshot? && phase.SnapReplaced? ==> d'.phases[s].WakeReplaced?)
    && (a.Snapshot? && phase.SnapGone? ==> d'.phases[s].WakeGone?)
    && (a.Route? && m' != st.mail ==> d'.phases[s].Delivering?)
  }

  lemma SessionStepBoth(st: State, s: Sid, a: Action, cfg: Config)
    requires Named(st.desk, s)
    ensures SessionBoth(st, s, a, SessionStep(st, s, a, cfg).desk, SessionStep(st, s, a, cfg).mail)
  {
    DeskStepMovesOne(st.desk, s, a, st.now);
  }

  lemma SessionKeepsHand(st: State, s: Sid, a: Action, d': Desk, m': Mail)
    requires Named(st.desk, s) && Inv(st.mail) && SessionBoth(st, s, a, d', m')
    requires HandOk(st.mail.hand, st.mail.calls, d'.phases, d'.past.authed)
    ensures HandOk(m'.hand, m'.calls, d'.phases, d'.past.authed)
  {
    var m, phases, names := st.mail, d'.phases, d'.past.authed;
    if m' == m {
    } else if a.Snapshot? {
      PoppedKeepsHand(m, phases, names, s, if phases[s].WakeReplaced? then ConnectionReplaced else NodeDisconnected);
    } else if a.Route? {
      var key := AnsweredKey(st.desk.past.authed[s], st.desk.phases[s].msg);
      PoppedOneKeepsHand(m, phases, names, s, key.value, st.desk.phases[s].msg);
    } else {
      SettleKeepsHand(m, phases, names, a.c);
    }
  }

  /** Callers keep their node, and touch no hand. */
  ghost predicate SameNodes(calls: Calls, calls': Calls) {
    forall c :: c in calls ==> c in calls' && calls'[c].node == calls[c].node
  }

  lemma CallStepUpdatesOne(m: Mail, c: Req, a: Action, d: Desk)
    requires c in m.calls
    ensures
      var m' := CallStep(m, c, a, d);
      && m'.hand == m.hand && c in m'.calls && m'.calls[c].node == m.calls[c].node
      && m'.calls == m.calls[c := m'.calls[c]]
  {
    assert m.calls == m.calls[c := m.calls[c]];
  }

  lemma CallStepKeepsNodes(m: Mail, c: Req, a: Action, d: Desk)
    requires c in m.calls
    ensures CallStep(m, c, a, d).hand == m.hand && SameNodes(m.calls, CallStep(m, c, a, d).calls)
  {
    CallStepUpdatesOne(m, c, a, d);
    UpdateKeepsNodes(m.calls, c, CallStep(m, c, a, d).calls[c]);
  }

  lemma UpdateKeepsNodes(calls: Calls, c: Req, call: Call)
    requires c in calls && call.node == calls[c].node
    ensures SameNodes(calls, calls[c := call])
  {}

  lemma NodesKeepHand(hand: map<Req, Hold>, calls: Calls, calls': Calls, phases: map<Sid, Phase>, names: Names)
    requires HandOk(hand, calls, phases, names) && SameNodes(calls, calls')
    ensures HandOk(hand, calls', phases, names)
  {}

  lemma SessionStepKeepsHand(st: State, s: Sid, a: Action, cfg: Config)
    requires Inv(st.mail) && Named(st.desk, s)
    requires HandOk(st.mail.hand, st.mail.calls, st.desk.phases, st.desk.past.authed)
    ensures
      var st' := SessionStep(st, s, a, cfg);
      HandOk(st'.mail.hand, st'.mail.calls, st'.desk.phases, st'.desk.past.authed)
  {
    var d, d', m' := st.desk, SessionStep(st, s, a, cfg).desk, SessionStep(st, s, a, cfg).mail;
    SessionOwnersStay(st, s, a, cfg);
    OwnersKeepHand(st.mail.hand, st.mail.calls, d.phases, d.past.authed, d'.phases, d'.past.authed);
    SessionStepBoth(st, s, a, cfg);
    SessionKeepsHand(st, s, a, d', m');
  }

  lemma StepKeepsHand(st: State, a: Action, cfg: Config)
    requires Inv(st.mail)
    requires HandOk(st.mail.hand, st.mail.calls, st.desk.phases, st.desk.past.authed)
    ensures
      var st' := Step(st, a, cfg);
      HandOk(st'.mail.hand, st'.mail.calls, st'.desk.phases, st'.desk.past.authed)
  {
    var m, d := st.mail, st.desk;
    if IsHandshakeAction(a) {
      if a.s in d.phases {
        var d' := HandshakeStep(d, a.s, a);
        HandshakeOwnersStay(m.hand, m.calls, d, a.s, a);
        OwnersKeepHand(m.hand, m.calls, d.phases, d.past.authed, d'.phases, d'.past.authed);
      }
    } else if IsSessionAction(a) {
      if Named(d, a.s) {
        SessionStepKeepsHand(st, a.s, a, cfg);
      }
    } else if IsCallAction(a) {
      if a.c in m.calls {
        CallStepKeepsNodes(m, a.c, a, d);
        NodesKeepHand(m.hand, m.calls, CallStep(m, a.c, a, d).calls, d.phases, d.past.authed);
      }
    } else if a.Begin? {
      NodesKeepHand(m.hand, m.calls, DoBegin(m, a.c, a.node, a.kind, a.blank).calls, d.phases, d.past.authed);
    } else if a.Connect? && a.s !in d.phases {
      OneMoves(m.hand, m.calls, d.phases, d.past.authed, a.s, AwaitHello);
      OwnersKeepHand(m.hand, m.calls, d.phases, d.past.authed, d.phases[a.s := AwaitHello], d.past.authed);
    }
  }

  // ---------------------------------------------------------------------
  // Futures

  lemma NewCallsArePending(st: State, a: Action, cfg: Config, c: Req)
    requires c in Step(st, a, cfg).mail.calls && c !in st.mail.calls
    ensures Step(st, a, cfg).mail.calls[c].future.Pending?
  {
    if IsSessionAction(a) && Named(st.desk, a.s) {
      SessionStepMail(st, a.s, a, cfg);
    }
  }

  /** A session in the middle of waking waiters was handed a displaced session, or popped itself. */
  lemma SettlementOk(d: Desk, h: Hold, c: Req, node: string)
    requires TableInv(d) && HeldOk(h, c, node, d.phases, d.past.authed)
    ensures PromiseOk(Settlement(h), c, node, d.past.authed, d.past.displaced, d.past.removed)
  {
    var p, phase := d.past, d.phases[h.owner];
    assert PhaseOk(phase, h.owner, p.order, p.authed, p.displaced, p.removed);
    if phase.WakeReplaced? {
      assert phase.prev in p.displaced && p.displaced[phase.prev] == h.owner;
    }
  }

  lemma PromiseGrows(future: Promise, c: Req, node: string, p: Past, p': Past)
    requires PromiseOk(future, c, node, p.authed, p.displaced, p.removed) && Grows(p, p')
    ensures PromiseOk(future, c, node, p'.authed, p'.displaced, p'.removed)
  {
    if future.Failed? && future.reason.ConnectionReplaced? {
      var q :| q in p.displaced && p.displaced[q] == future.owner;
      assert q in p'.displaced && p'.displaced[q] == future.owner;
    }
  }

  lemma StepKeepsPromise(st: State, a: Action, cfg: Config, c: Req)
    requires TableInv(st.desk) && ReplyInv(st.mail, st.desk) && c in Step(st, a, cfg).mail.calls
    requires Grows(st.desk.past, Step(st, a, cfg).desk.past)
    ensures
      var call', p' := Step(st, a, cfg).mail.calls[c], Step(st, a, cfg).desk.past;
      PromiseOk(call'.future, c, call'.node, p'.authed, p'.displaced, p'.removed)
  {
    var d, p, p' := st.desk, st.desk.past, Step(st, a, cfg).desk.past;
    if c !in st.mail.calls {
      NewCallsArePending(st, a, cfg, c);
    } else {
      var call := st.mail.calls[c];
      FutureChangesOnce(st, a, cfg, c);
      assert PromiseOk(call.future, c, call.node, p.authed, p.displaced, p.removed);
      PromiseGrows(call.future, c, call.node, p, p');
      if c in st.mail.hand {
        SettlementOk(d, st.mail.hand[c], c, call.node);
        PromiseGrows(Settlement(st.mail.hand[c]), c, call.node, p, p');
      }
    }
  }

  lemma StepKeepsReplies(st: State, a: Action, cfg: Config)
    requires TableInv(st.desk) && Inv(st.mail) && ReplyInv(st.mail, st.desk)
    ensures ReplyInv(Step(st, a, cfg).mail, Step(st, a, cfg).desk)
  {
    StepKeepsHand(st, a, cfg);
    StepGrows(st, a, cfg);
    var calls', p' := Step(st, a, cfg).mail.calls, Step(st, a, cfg).desk.past;
    forall c | c in calls' ensures PromiseOk(calls'[c].future, c, calls'[c].node, p'.authed, p'.displaced, p'.removed) {
      StepKeepsPromise(st, a, cfg, c);
    }
  }

  lemma {:induction false} RunKeepsReplies(actions: seq<Action>, cfg: Config)
    ensures ReplyInv(Run(actions, cfg).mail, Run(actions, cfg).desk)
  {
    if actions != [] {
      var before := actions[..|actions| - 1];
      RunKeepsReplies(before, cfg);
      RunKeepsTable(before, cfg);
      RunKeepsMail(before, cfg);
      StepKeepsReplies(Run(before, cfg), actions[|actions| - 1], cfg);
    }
  }

  // ---------------------------------------------------------------------
  // Main results

  /** Correlation: a call is answered only by a message of a routable type whose `id` field is its own id,
  received over a session that authenticated as the node the call was made to. */
  lemma AnswersCorrelate(actions: seq<Action>, cfg: Config, c: Req)
    requires c in Run(actions, cfg).mail.calls && Run(actions, cfg).mail.calls[c].future.Answered?
    ensures
      var call, names := Run(actions, cfg).mail.calls[c], Run(actions, cfg).desk.past.authed;
      && call.future.msg.Obj? && Wire.Get(call.future.msg, "id") == Wire.Str(c)
      && (|| Wire.Get(call.future.msg, "type") == Wire.Str("exec_result")
          || Wire.Get(call.future.msg, "type") == Wire.Str("read_result")
          || Wire.Get(call.future.msg, "type") == Wire.Str("write_result")
          || Wire.Get(call.future.msg, "type") == Wire.Str("error"))
      && call.future.owner in names && names[call.future.owner] == call.node
  {
    RunKeepsReplies(actions, cfg);
    Wire.AnswersExactly(Run(actions, cfg).mail.calls[c].future.msg, c);
  }

  /** A call fails as disconnected only if a registered session of its node was popped by its own
  unregister, or displaced another. */
  lemma FailuresHaveCause(actions: seq<Action>, cfg: Config, c: Req)
    requires c in Run(actions, cfg).mail.calls && Run(actions, cfg).mail.calls[c].future.Failed?
    ensures
      var call, p := Run(actions, cfg).mail.calls[c], Run(actions, cfg).desk.past;
      var s := call.future.owner;
      && s in p.authed && p.authed[s] == call.node
      && (call.future.reason.NodeDisconnected? ==> s in p.removed)
      && (call.future.reason.ConnectionReplaced? ==> exists prev ::
            prev in p.displaced && p.displaced[prev] == s && prev in p.authed && p.authed[prev] == call.node)
  {
    RunKeepsReplies(actions, cfg);
    RunKeepsTable(actions, cfg);
    var call, p := Run(actions, cfg).mail.calls[c], Run(actions, cfg).desk.past;
    assert PromiseOk(call.future, c, call.node, p.authed, p.displaced, p.removed);
  }

  /** A popped future is held by a session of its node in the very phase that settles it; the session
  leaves that phase only with empty hands, so a snapshot's waiters are all woken. */
  lemma HeldUntilSettled(actions: seq<Action>, cfg: Config, c: Req)
    requires c in Run(actions, cfg).mail.hand
    ensures
      var st := Run(actions, cfg);
      && c in st.mail.calls
      && HeldOk(st.mail.hand[c], c, st.mail.calls[c].node, st.desk.phases, st.desk.past.authed)
  {
    RunKeepsReplies(actions, cfg);
  }

  /** The unregister of a displaced session pops nothing and wakes nobody, and no call is ever failed as
  disconnected on account of a displaced session. */
  lemma DisplacedUnregistersInVain(actions: seq<Action>, cfg: Config, s: Sid)
    requires s in Run(actions, cfg).desk.past.displaced
    ensures
      var st, st' := Run(actions, cfg), Run(actions + [Unregister(s)], cfg);
      && st'.mail == st.mail && st'.desk.table == st.desk.table && st'.desk.past == st.desk.past
      && s in st.desk.phases
      && st'.desk.phases == if st.desk.phases[s].Leaving? then st.desk.phases[s := Over] else st.desk.phases
    ensures
      forall c :: c in Run(actions, cfg).mail.calls ==>
        Run(actions, cfg).mail.calls[c].future != Failed(NodeDisconnected, s)
  {
    RunKeepsTable(actions, cfg);
    RunKeepsReplies(actions, cfg);
    var st := Run(actions, cfg);
    var p := st.desk.past;
    assert (actions + [Unregister(s)])[..|actions|] == actions;
    assert s !in p.removed && s in p.authed;
    UnregisterInVain(st, s, cfg);
    forall c | c in st.mail.calls ensures st.mail.calls[c].future != Failed(NodeDisconnected, s) {
      assert PromiseOk(st.mail.calls[c].future, c, st.mail.calls[c].node, p.authed, p.displaced, p.removed);
    }
  }

  lemma UnregisterInVain(st: State, s: Sid, cfg: Config)
    requires Named(st.desk, s) && !InTable(st.desk.table, st.desk.past.authed, s)
    ensures Step(st, Unregister(s), cfg)
      == if st.desk.phases[s].Leaving? then st.(desk := Go(st.desk, s, Over)) else st
  {}
}
