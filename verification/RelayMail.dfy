/** The waiter map over every run of the relay: a future is settled at most once, a finished call
leaves no key behind, and a caller that still waits can always be woken. */
module RelayMail {
  import opened Registry
  import opened Wrappers
  import opened Handlers
  import opened Relay

  type Waiters = map<Key, Req>
  type Calls = map<Req, Call>

  /** The stages between `register_waiter` and the caller's exit. */
  predicate Registered(stage: Stage) {
    stage.Sending? || stage.Awaiting? || stage.SendBroken? || stage.Expired?
  }

  /** How a caller's exit follows from its future. */
  predicate EndingOk(ending: Ending, future: Promise, held: bool) {
    && (ending.NoOp? || ending.NotConnected? ==> future.Pending? && !held)
    && (ending.TimedOut? ==> !future.Pending?)
    && (ending.Disconnected? ==> future.Failed?)
    && (ending.Answer? ==> future.Answered? && future.msg == ending.msg)
  }

  /** One call, given whether its key is in the waiter map and whether some session holds its future. */
  predicate CallOk(call: Call, keyed: bool, held: bool) {
    && call.settles == (if call.future.Pending? then 0 else 1)
    && (keyed ==> Registered(call.stage) && !held)
    && (keyed && !call.future.Pending? ==> call.stage.Expired?)
    && (call.stage.Looking? || call.stage.Found? ==> call.future.Pending? && !held)
    && (call.stage.Expired? ==> !call.future.Pending?)
    && (call.future.Cancelled? ==> call.stage.Expired? || call.stage == Finished(Ending.TimedOut))
    && (Registered(call.stage) && call.future.Pending? ==> keyed || held)
    && (call.stage.Finished? ==> EndingOk(call.stage.ending, call.future, held))
  }

  predicate Keyed(waiters: Waiters, calls: Calls, c: Req)
    requires c in calls
  {
    Key(calls[c].node, c) in waiters
  }

  ghost predicate WaitersOk(waiters: Waiters, calls: Calls) {
    forall k :: k in waiters ==> waiters[k] == k.id && k.id in calls && calls[k.id].node == k.node
  }

  ghost predicate CallsOk(waiters: Waiters, hand: map<Req, Hold>, calls: Calls) {
    forall c :: c in calls ==> CallOk(calls[c], Keyed(waiters, calls, c), c in hand)
  }

  ghost predicate MailInv(waiters: Waiters, hand: map<Req, Hold>, calls: Calls) {
    WaitersOk(waiters, calls) && CallsOk(waiters, hand, calls) && hand.Keys <= calls.Keys
  }

  ghost predicate Inv(m: Mail) {
    MailInv(m.waiters, m.hand, m.calls)
  }

  // ---------------------------------------------------------------------

  lemma UpdateKeepsMail(waiters: Waiters, hand: map<Req, Hold>, calls: Calls, c: Req, call: Call)
    requires MailInv(waiters, hand, calls)
    requires
      if c in calls then call.node == calls[c].node && CallOk(call, Keyed(waiters, calls, c), c in hand)
      else CallOk(call, false, false)
    ensures MailInv(waiters, hand, calls[c := call])
  {
    if c !in calls {
      assert Key(call.node, c) !in waiters;
    }
    var calls' := calls[c := call];
    forall x | x in calls' ensures CallOk(calls'[x], Keyed(waiters, calls', x), x in hand) {
      assert x != c ==> CallOk(calls[x], Keyed(waiters, calls, x), x in hand);
    }
  }

  lemma AddKeyKeepsMail(waiters: Waiters, hand: map<Req, Hold>, calls: Calls, c: Req, call: Call)
    requires MailInv(waiters, hand, calls) && c in calls && call.node == calls[c].node
    requires CallOk(call, true, c in hand)
    ensures MailInv(waiters[Key(call.node, c) := c], hand, calls[c := call])
  {
    var waiters', calls' := waiters[Key(call.node, c) := c], calls[c := call];
    forall x | x in calls' ensures CallOk(calls'[x], Keyed(waiters', calls', x), x in hand) {
      assert x != c ==> CallOk(calls[x], Keyed(waiters, calls, x), x in hand);
    }
  }

  lemma DropKeyKeepsMail(waiters: Waiters, hand: map<Req, Hold>, calls: Calls, c: Req, call: Call)
    requires MailInv(waiters, hand, calls) && c in calls && call.node == calls[c].node
    requires CallOk(call, false, c in hand)
    ensures MailInv(waiters - {Key(call.node, c)}, hand, calls[c := call])
  {
    var waiters', calls' := waiters - {Key(call.node, c)}, calls[c := call];
    forall x | x in calls' ensures CallOk(calls'[x], Keyed(waiters', calls', x), x in hand) {
      assert x != c ==> CallOk(calls[x], Keyed(waiters, calls, x), x in hand);
    }
  }

  lemma LetGoKeepsMail(waiters: Waiters, hand: map<Req, Hold>, calls: Calls, c: Req, call: Call)
    requires MailInv(waiters, hand, calls) && c in calls && call.node == calls[c].node
    requires CallOk(call, Keyed(waiters, calls, c), false)
    ensures MailInv(waiters, hand - {c}, calls[c := call])
  {
    var hand', calls' := hand - {c}, calls[c := call];
    forall x | x in calls' ensures CallOk(calls'[x], Keyed(waiters, calls', x), x in hand') {
      assert x != c ==> CallOk(calls[x], Keyed(waiters, calls, x), x in hand);
    }
  }

  /** Popping keys hands the futures over; nothing gets lost in between. */
  lemma TakeKeepsMail(waiters: Waiters, hand: map<Req, Hold>, calls: Calls, keys: set<Key>, hand': map<Req, Hold>)
    requires MailInv(waiters, hand, calls) && keys <= waiters.Keys
    requires forall c :: c in hand' <==> c in hand || exists k :: k in keys && k.id == c
    ensures MailInv(waiters - keys, hand', calls)
  {
    forall x | x in calls ensures CallOk(calls[x], Keyed(waiters - keys, calls, x), x in hand') {
      assert CallOk(calls[x], Keyed(waiters, calls, x), x in hand);
      assert Key(calls[x].node, x).id == x;
    }
  }

  // ---------------------------------------------------------------------

  lemma PoppedKeepsMail(m: Mail, name: string, s: Sid, reason: Reason)
    requires Inv(m)
    ensures Inv(Popped(m, name, s, reason))
  {
    var keys := KeysOf(m.waiters, name);
    var more := map k | k in keys :: k.id := Hold(s, Fail(reason));
    forall c ensures c in m.hand + more <==> c in m.hand || exists k :: k in keys && k.id == c {
      if c in more {
        assert exists k :: k in keys && k.id == c;
      }
    }
    TakeKeepsMail(m.waiters, m.hand, m.calls, keys, m.hand + more);
  }

  lemma PoppedOneKeepsMail(m: Mail, key: Key, s: Sid, msg: Wire.Json)
    requires Inv(m) && key in m.waiters
    ensures Inv(PoppedOne(m, key, s, msg))
  {
    assert key in {key};
    TakeKeepsMail(m.waiters, m.hand, m.calls, {key}, m.hand[m.waiters[key] := Hold(s, Deliver(msg))]);
  }

  lemma SettleKeepsMail(m: Mail, c: Req)
    requires Inv(m) && c in m.hand && c in m.calls
    ensures Inv(DoSettle(m, c))
  {
    var call := m.calls[c];
    assert CallOk(call, Keyed(m.waiters, m.calls, c), true);
    SettledOk(call, m.hand[c]);
    LetGoKeepsMail(m.waiters, m.hand, m.calls, c, SettledCall(call, m.hand[c]));
  }

  lemma SettledOk(call: Call, h: Hold)
    requires CallOk(call, false, true)
    ensures CallOk(SettledCall(call, h), false, false)
  {}

  lemma FinishOk(call: Call, ending: Ending, keyed: bool, held: bool)
    requires CallOk(call, keyed, held)
    requires
      || (ending.NotConnected? && call.stage.Looking?)
      || (ending.SendFailed? && call.stage.SendBroken?)
      || (ending.TimedOut? && call.stage.Expired?)
      || (ending.Disconnected? && call.stage.Awaiting? && call.future.Failed?)
      || (ending.Answer? && call.stage.Awaiting? && call.future.Answered? && call.future.msg == ending.msg)
    ensures CallOk(call.(stage := Finished(ending)), false, held)
    ensures ending.NotConnected? || ending.Disconnected? || ending.Answer? ==> !keyed
  {}

  lemma BeginKeepsMail(m: Mail, c: Req, node: string, kind: Kind, blank: bool)
    requires Inv(m)
    ensures Inv(DoBegin(m, c, node, kind, blank))
  {
    if c != "" && c !in m.calls {
      UpdateKeepsMail(m.waiters, m.hand, m.calls, c, DoBegin(m, c, node, kind, blank).calls[c]);
    }
  }

  lemma LookKeepsMail(m: Mail, c: Req, t: Table)
    requires Inv(m) && c in m.calls && m.calls[c].stage.Looking?
    ensures Inv(DoLook(m, c, t))
  {
    var call, keyed, held := m.calls[c], Keyed(m.waiters, m.calls, c), c in m.hand;
    assert CallOk(call, keyed, held);
    FinishOk(call, NotConnected, keyed, held);
    UpdateKeepsMail(m.waiters, m.hand, m.calls, c, DoLook(m, c, t).calls[c]);
  }

  lemma RegisterKeepsMail(m: Mail, c: Req, gap: set<Sid>)
    requires Inv(m) && c in m.calls && m.calls[c].stage.Found?
    ensures Inv(DoRegisterWaiter(m, c, gap))
  {
    assert CallOk(m.calls[c], Keyed(m.waiters, m.calls, c), c in m.hand);
    AddKeyKeepsMail(m.waiters, m.hand, m.calls, c, m.calls[c].(stage := Sending, gap := gap));
  }

  lemma UnregisterKeepsMail(m: Mail, c: Req, ending: Ending)
    requires Inv(m) && c in m.calls
    requires (ending.SendFailed? && m.calls[c].stage.SendBroken?) || (ending.TimedOut? && m.calls[c].stage.Expired?)
    ensures Inv(DoUnregisterWaiter(m, c, ending))
  {
    var call, keyed, held := m.calls[c], Keyed(m.waiters, m.calls, c), c in m.hand;
    assert CallOk(call, keyed, held);
    FinishOk(call, ending, keyed, held);
    DropKeyKeepsMail(m.waiters, m.hand, m.calls, c, call.(stage := Finished(ending)));
  }

  lemma WakeKeepsMail(m: Mail, c: Req)
    requires Inv(m) && c in m.calls && m.calls[c].stage.Awaiting?
    ensures m.calls[c].future.Answered? ==> Inv(Finish(m, c, Answer(m.calls[c].future.msg)))
    ensures m.calls[c].future.Failed? ==> Inv(Finish(m, c, Disconnected))
  {
    var call, keyed, held := m.calls[c], Keyed(m.waiters, m.calls, c), c in m.hand;
    assert CallOk(call, keyed, held);
    if call.future.Answered? || call.future.Failed? {
      var ending := if call.future.Answered? then Answer(call.future.msg) else Disconnected;
      FinishOk(call, ending, keyed, held);
      UpdateKeepsMail(m.waiters, m.hand, m.calls, c, call.(stage := Finished(ending)));
    }
  }

  lemma MoveOnOk(call: Call, ok: bool, keyed: bool, held: bool)
    requires CallOk(call, keyed, held)
    ensures call.stage.Sending? ==> CallOk(call.(stage := if ok then Awaiting else SendBroken), keyed, held)
    ensures call.stage.Awaiting? ==> CallOk(ExpiredCall(call), keyed, held)
  {}

  lemma MoveOnKeepsMail(m: Mail, c: Req, ok: bool)
    requires Inv(m) && c in m.calls
    ensures m.calls[c].stage.Sending? ==>
      MailInv(m.waiters, m.hand, m.calls[c := m.calls[c].(stage := if ok then Awaiting else SendBroken)])
    ensures m.calls[c].stage.Awaiting? ==> MailInv(m.waiters, m.hand, m.calls[c := ExpiredCall(m.calls[c])])
  {
    var call, keyed, held := m.calls[c], Keyed(m.waiters, m.calls, c), c in m.hand;
    assert CallOk(call, keyed, held);
    MoveOnOk(call, ok, keyed, held);
    if call.stage.Sending? {
      UpdateKeepsMail(m.waiters, m.hand, m.calls, c, call.(stage := if ok then Awaiting else SendBroken));
    } else if call.stage.Awaiting? {
      UpdateKeepsMail(m.waiters, m.hand, m.calls, c, ExpiredCall(call));
    }
  }

  lemma CallStepKeepsMail(m: Mail, c: Req, a: Action, d: Desk)
    requires Inv(m) && c in m.calls
    ensures Inv(CallStep(m, c, a, d))
  {
    var call := m.calls[c];
    if a.Look? && call.stage.Looking? {
      LookKeepsMail(m, c, d.table);
    } else if a.RegisterWaiter? && call.stage.Found? {
      RegisterKeepsMail(m, c, Gap(d, call.node));
    } else if a.UnregisterWaiter? && call.stage.SendBroken? {
      UnregisterKeepsMail(m, c, SendFailed);
    } else if a.UnregisterWaiter? && call.stage.Expired? {
      UnregisterKeepsMail(m, c, Ending.TimedOut);
    } else if a.Wake? && call.stage.Awaiting? {
      WakeKeepsMail(m, c);
    } else if a.Send? || a.Expire? {
      MoveOnKeepsMail(m, c, a.Send? && a.ok);
    }
  }

  /** What a session step does to the mail. */
  predicate SessionMail(st: State, s: Sid, a: Action, m': Mail)
    requires Named(st.desk, s)
  {
    var m, phase, name := st.mail, st.desk.phases[s], st.desk.past.authed[s];
    || m' == m
    || (a.Snapshot? && phase.SnapReplaced? && m' == Popped(m, name, s, ConnectionReplaced))
    || (a.Snapshot? && phase.SnapGone? && m' == Popped(m, name, s, NodeDisconnected))
    || (a.Settle? && a.c in m.hand && m.hand[a.c].owner == s && a.c in m.calls && m' == DoSettle(m, a.c))
    || (a.Route? && phase.Routing? && AnsweredKey(name, phase.msg).Some?
        && AnsweredKey(name, phase.msg).value in m.waiters
        && m' == PoppedOne(m, AnsweredKey(name, phase.msg).value, s, phase.msg))
  }

  lemma SessionStepMail(st: State, s: Sid, a: Action, cfg: Config)
    requires Named(st.desk, s)
    ensures SessionMail(st, s, a, SessionStep(st, s, a, cfg).mail)
  {}

  lemma SessionKeepsMail(st: State, s: Sid, a: Action, m': Mail)
    requires Inv(st.mail) && Named(st.desk, s) && SessionMail(st, s, a, m')
    ensures Inv(m')
  {
    var m, phase, name := st.mail, st.desk.phases[s], st.desk.past.authed[s];
    PoppedKeepsMail(m, name, s, ConnectionReplaced);
    PoppedKeepsMail(m, name, s, NodeDisconnected);
    if a.Settle? && a.c in m.hand && a.c in m.calls {
      SettleKeepsMail(m, a.c);
    }
    if phase.Routing? && AnsweredKey(name, phase.msg).Some? && AnsweredKey(name, phase.msg).value in m.waiters {
      PoppedOneKeepsMail(m, AnsweredKey(name, phase.msg).value, s, phase.msg);
    }
  }

  lemma StepKeepsMail(st: State, a: Action, cfg: Config)
    requires Inv(st.mail)
    ensures Inv(Step(st, a, cfg).mail)
  {
    if IsSessionAction(a) {
      if Named(st.desk, a.s) {
        SessionStepMail(st, a.s, a, cfg);
        SessionKeepsMail(st, a.s, a, SessionStep(st, a.s, a, cfg).mail);
      }
    } else if IsCallAction(a) {
      if a.c in st.mail.calls {
        CallStepKeepsMail(st.mail, a.c, a, st.desk);
      }
    } else if a.Begin? {
      BeginKeepsMail(st.mail, a.c, a.node, a.kind, a.blank);
    }
  }

  lemma {:induction false} RunKeepsMail(actions: seq<Action>, cfg: Config)
    ensures Inv(Run(actions, cfg).mail)
  {
    if actions != [] {
      RunKeepsMail(actions[..|actions| - 1], cfg);
      StepKeepsMail(Run(actions[..|actions| - 1], cfg), actions[|actions| - 1], cfg);
    }
  }

  // ---------------------------------------------------------------------
  // Main results

  /** Every key belongs to one live call, under its own node and id; a done future still in the map
  means that its caller timed out and is about to take it out. */
  lemma KeysBelongToLiveCalls(actions: seq<Action>, cfg: Config, k: Key)
    requires k in Run(actions, cfg).mail.waiters
    ensures
      var m := Run(actions, cfg).mail;
      && m.waiters[k] == k.id && k.id in m.calls && m.calls[k.id].node == k.node
      && Registered(m.calls[k.id].stage)
      && (!m.calls[k.id].future.Pending? ==> m.calls[k.id].stage.Expired?)
  {
    RunKeepsMail(actions, cfg);
    var m := Run(actions, cfg).mail;
    assert CallOk(m.calls[k.id], Keyed(m.waiters, m.calls, k.id), k.id in m.hand);
  }

  /** A call that has ended, however it ended, leaves no key behind, and its end agrees with its
  future. */
  lemma FinishedLeavesNoKey(actions: seq<Action>, cfg: Config, c: Req, n: string)
    requires c in Run(actions, cfg).mail.calls && Run(actions, cfg).mail.calls[c].stage.Finished?
    ensures
      var m := Run(actions, cfg).mail;
      var ending, future := m.calls[c].stage.ending, m.calls[c].future;
      && Key(n, c) !in m.waiters
      && (ending.Answer? ==> future.Answered? && future.msg == ending.msg)
      && (ending.Disconnected? ==> future.Failed?)
      && (ending.TimedOut? ==> !future.Pending?)
      && (ending.NotConnected? || ending.NoOp? ==> future.Pending?)
  {
    RunKeepsMail(actions, cfg);
    var m := Run(actions, cfg).mail;
    assert CallOk(m.calls[c], Keyed(m.waiters, m.calls, c), c in m.hand);
  }

  /** A future is settled at most once. */
  lemma SettledAtMostOnce(actions: seq<Action>, cfg: Config, c: Req)
    requires c in Run(actions, cfg).mail.calls
    ensures
      var call := Run(actions, cfg).mail.calls[c];
      call.settles == if call.future.Pending? then 0 else 1
  {
    RunKeepsMail(actions, cfg);
    var m := Run(actions, cfg).mail;
    assert CallOk(m.calls[c], Keyed(m.waiters, m.calls, c), c in m.hand);
  }

  /** No step changes a done future, and a pending one is changed only by the session that holds it or
  by its own caller's timeout: a late or duplicate reply finds no key and changes nothing. */
  lemma FutureChangesOnce(st: State, a: Action, cfg: Config, c: Req)
    requires c in st.mail.calls
    ensures
      var calls' := Step(st, a, cfg).mail.calls;
      && c in calls' && calls'[c].node == st.mail.calls[c].node && calls'[c].kind == st.mail.calls[c].kind
      && (calls'[c].future != st.mail.calls[c].future ==>
            && st.mail.calls[c].future.Pending? && calls'[c].settles == st.mail.calls[c].settles + 1
            && ((a.Settle? && a.c == c && c in st.mail.hand && st.mail.hand[c].owner == a.s
                 && calls'[c].future == Settlement(st.mail.hand[c]))
                || (a == Expire(c) && calls'[c].future.Cancelled?)))
  {
    if IsSessionAction(a) && Named(st.desk, a.s) {
      SessionStepMail(st, a.s, a, cfg);
    }
  }

  /** A caller still waiting on a pending future can be woken: its key is in the map, where a reply
  or a disconnect finds it, or a session holds the future and its next step settles it. */
  lemma NoLostWakeUp(actions: seq<Action>, cfg: Config, c: Req)
    requires c in Run(actions, cfg).mail.calls
    requires Registered(Run(actions, cfg).mail.calls[c].stage) && Run(actions, cfg).mail.calls[c].future.Pending?
    ensures
      var m := Run(actions, cfg).mail;
      if Key(m.calls[c].node, c) in m.waiters then c !in m.hand
      else c in m.hand && DoSettle(m, c).calls[c].future == Settlement(m.hand[c])
  {
    RunKeepsMail(actions, cfg);
    var m := Run(actions, cfg).mail;
    assert CallOk(m.calls[c], Keyed(m.waiters, m.calls, c), c in m.hand);
  }

  /** The session actions that may take a key. */
  predicate MayTake(d: Desk, s: Sid, k: Key)
    requires Named(d, s)
  {
    var phase := d.phases[s];
    && d.past.authed[s] == k.node
    && (phase.SnapReplaced? || phase.SnapGone? || (phase.Routing? && Wire.IsReply(phase.msg, k.id)))
  }

  lemma SessionTakes(st: State, s: Sid, a: Action, m': Mail, k: Key)
    requires Named(st.desk, s) && SessionMail(st, s, a, m') && k in st.mail.waiters && k !in m'.waiters
    ensures MayTake(st.desk, s, k)
  {
    if st.desk.phases[s].Routing? {
      Wire.AnswersExactly(st.desk.phases[s].msg, k.id);
    }
  }

  lemma CallTakes(m: Mail, c: Req, a: Action, d: Desk, k: Key)
    requires c in m.calls && k in m.waiters && k !in CallStep(m, c, a, d).waiters
    ensures a.UnregisterWaiter? && k == Key(m.calls[c].node, c)
  {}

  /** A key leaves the map by its caller's own hand, by a reply to it over a session of its node, or
  in the snapshot of such a session that was just registered or popped. */
  lemma KeyLeavesOnlyBy(st: State, a: Action, cfg: Config, k: Key)
    requires k in st.mail.waiters && k !in Step(st, a, cfg).mail.waiters
    ensures a == UnregisterWaiter(k.id) || (IsSessionAction(a) && Named(st.desk, a.s) && MayTake(st.desk, a.s, k))
  {
    if IsSessionAction(a) {
      if Named(st.desk, a.s) {
        SessionStepMail(st, a.s, a, cfg);
        SessionTakes(st, a.s, a, SessionStep(st, a.s, a, cfg).mail, k);
      }
    } else if IsCallAction(a) {
      CallTakes(st.mail, a.c, a, st.desk, k);
    }
  }

  /** The snapshot takes every waiter of its node and no other, and the session stays put until each
  of them is settled. */
  lemma SnapshotTakesExactlyItsNode(st: State, s: Sid, cfg: Config)
    requires Named(st.desk, s) && (st.desk.phases[s].SnapReplaced? || st.desk.phases[s].SnapGone?)
    requires Inv(st.mail)
    ensures
      var name, m, m' := st.desk.past.authed[s], st.mail, Step(st, Snapshot(s), cfg).mail;
      var reason := if st.desk.phases[s].SnapGone? then NodeDisconnected else ConnectionReplaced;
      && (forall k :: k in m'.waiters <==> k in m.waiters && k.node != name)
      && (forall k :: k in m.waiters && k.node == name ==> k.id in m'.hand && m'.hand[k.id] == Hold(s, Fail(reason)))
      && (forall c :: c in m'.hand && c !in m.hand ==> Key(name, c) in m.waiters)
  {
    var name, m := st.desk.past.authed[s], st.mail;
    var keys := KeysOf(m.waiters, name);
    forall k | k in keys ensures k.id in (map k | k in keys :: k.id := Hold(s, Fail(NodeDisconnected))) {}
    forall c | c in (map k | k in keys :: k.id := Hold(s, Fail(NodeDisconnected))) ensures Key(name, c) in m.waiters {
      var k :| k in keys && k.id == c;
      assert k == Key(name, c);
    }
  }
}
