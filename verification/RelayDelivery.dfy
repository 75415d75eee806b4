/** Replies and wake-ups over whole runs: a reply that arrives before its caller gave up reaches it, and a
snapshot's waiters are all woken by the time its session moves on. */
module RelayDelivery {
  import opened Registry
  import opened Wrappers
  import opened Handlers
  import opened Relay
  import opened RelayMail
  import opened RelayReplies

  /** A done future is done for good. */
  lemma {:induction false} DoneStays(actions: seq<Action>, cfg: Config, i: nat, c: Req)
    requires i <= |actions| && c in Run(actions[..i], cfg).mail.calls
    ensures c in Run(actions, cfg).mail.calls
    ensures
      var before, after := Run(actions[..i], cfg).mail.calls[c].future, Run(actions, cfg).mail.calls[c].future;
      !before.Pending? ==> after == before
  {
    if i < |actions| {
      var front := actions[..|actions| - 1];
      assert front[..i] == actions[..i];
      DoneStays(front, cfg, i, c);
      FutureChangesOnce(Run(front, cfg), actions[|actions| - 1], cfg, c);
    } else {
      assert actions[..i] == actions;
    }
  }

  /** The future of `c` stays in its holder's hands, or the holder settles it. */
  predicate HeldOrSettled(m: Mail, m': Mail, a: Action, c: Req)
    requires c in m.hand && c in m.calls
  {
    || (c in m'.hand && m'.hand[c] == m.hand[c])
    || (a == Settle(m.hand[c].owner, c) && c in m'.calls && m'.calls[c] == SettledCall(m.calls[c], m.hand[c]))
  }

  /** A popped future stays in its session's hands until that session settles it. */
  lemma HandStays(st: State, a: Action, cfg: Config, c: Req)
    requires Inv(st.mail) && c in st.mail.hand && c in st.mail.calls
    ensures HeldOrSettled(st.mail, Step(st, a, cfg).mail, a, c)
  {
    assert CallOk(st.mail.calls[c], Keyed(st.mail.waiters, st.mail.calls, c), true);
    if IsSessionAction(a) {
      if Named(st.desk, a.s) {
        SessionStepMail(st, a.s, a, cfg);
        SessionHandStays(st, a.s, a, SessionStep(st, a.s, a, cfg).mail, c);
      }
    } else {
      OtherHandStays(st, a, cfg);
    }
  }

  lemma SessionHandStays(st: State, s: Sid, a: Action, m': Mail, c: Req)
    requires Inv(st.mail) && c in st.mail.hand && c in st.mail.calls && !Keyed(st.mail.waiters, st.mail.calls, c)
    requires Named(st.desk, s) && IsSessionAction(a) && a.s == s && SessionMail(st, s, a, m')
    ensures HeldOrSettled(st.mail, m', a, c)
  {}

  lemma OtherHandStays(st: State, a: Action, cfg: Config)
    requires !IsSessionAction(a)
    ensures Step(st, a, cfg).mail.hand == st.mail.hand
  {
    if IsCallAction(a) {
      if a.c in st.mail.calls {
        CallStepUpdatesOne(st.mail, a.c, a, st.desk);
      }
    }
  }

  // ---------------------------------------------------------------------
  // Replies

  /** A session is about to route a reply to `c`, whose waiter is there. */
  predicate Arrives(st: State, s: Sid, c: Req) {
    && Named(st.desk, s) && st.desk.phases[s].Routing?
    && Wire.IsReply(st.desk.phases[s].msg, c)
    && Key(st.desk.past.authed[s], c) in st.mail.waiters
  }

  /** A session that popped a future for a reply goes first. */
  ghost predicate ReplyFirst(st: State, a: Action) {
    forall c :: c in st.mail.hand && st.mail.hand[c].verdict.Deliver? ==> a == Settle(st.mail.hand[c].owner, c)
  }

  /** Nothing else runs between popping a waiter for a reply and delivering it: `complete_waiter` does
  not pause in between. */
  ghost predicate RepliesAtOnce(actions: seq<Action>, cfg: Config) {
    forall i :: 0 <= i < |actions| ==> ReplyFirst(Run(actions[..i], cfg), actions[i])
  }

  lemma RouteTakes(st: State, s: Sid, c: Req, cfg: Config)
    requires Inv(st.mail) && Arrives(st, s, c)
    ensures
      var m, m' := st.mail, Step(st, Route(s), cfg).mail;
      && c in m.calls && m'.calls == m.calls && c in m'.hand
      && m'.hand[c] == Hold(s, Deliver(st.desk.phases[s].msg))
      && (m.calls[c].future.Pending? <==> !m.calls[c].stage.Expired?)
  {
    var key := Key(st.desk.past.authed[s], c);
    Wire.AnswersExactly(st.desk.phases[s].msg, c);
    assert st.mail.waiters[key] == c && st.mail.calls[c].node == key.node;
    assert CallOk(st.mail.calls[c], Keyed(st.mail.waiters, st.mail.calls, c), c in st.mail.hand);
  }

  /** A reply that finds its waiter becomes the outcome of the call exactly if the caller has not timed
  out yet; otherwise it changes nothing. Either way the outcome is final. */
  lemma RepliesReachTheirCalls(actions: seq<Action>, cfg: Config, i: nat, s: Sid, c: Req)
    requires RepliesAtOnce(actions, cfg) && i + 1 < |actions|
    requires actions[i] == Route(s) && Arrives(Run(actions[..i], cfg), s, c)
    ensures c in Run(actions[..i], cfg).mail.calls && c in Run(actions, cfg).mail.calls
    ensures
      var st := Run(actions[..i], cfg);
      Run(actions, cfg).mail.calls[c].future
      == if st.mail.calls[c].stage.Expired? then st.mail.calls[c].future else Answered(st.desk.phases[s].msg, s)
  {
    var st, popped := Run(actions[..i], cfg), Run(actions[..i + 1], cfg);
    RunKeepsMail(actions[..i], cfg);
    RouteTakes(st, s, c, cfg);
    RunOne(actions, cfg, i);
    RouteKeepsName(st, s, cfg);
    assert ReplyFirst(popped, actions[i + 1]);
    RunOne(actions, cfg, i + 1);
    SettleDelivers(popped, s, c, cfg);
    DoneStays(actions, cfg, i + 2, c);
  }

  lemma RouteKeepsName(st: State, s: Sid, cfg: Config)
    requires Named(st.desk, s)
    ensures Named(Step(st, Route(s), cfg).desk, s)
  {
    SessionMovesOne(st, s, Route(s), cfg);
  }

  lemma RunOne(actions: seq<Action>, cfg: Config, i: nat)
    requires i < |actions|
    ensures Run(actions[..i + 1], cfg) == Step(Run(actions[..i], cfg), actions[i], cfg)
  {
    assert actions[..i + 1][..i] == actions[..i];
  }

  lemma SettleDelivers(st: State, s: Sid, c: Req, cfg: Config)
    requires c in st.mail.hand && st.mail.hand[c].owner == s && c in st.mail.calls && Named(st.desk, s)
    ensures
      var calls' := Step(st, Settle(s, c), cfg).mail.calls;
      c in calls' && calls'[c] == SettledCall(st.mail.calls[c], st.mail.hand[c])
  {}

  // ---------------------------------------------------------------------
  // Wake-ups

  /** The waiter of `c` was taken by the snapshot of `s`, and is held or done. */
  predicate BeingWoken(m: Mail, s: Sid, reason: Reason, c: Req) {
    && c in m.calls
    && (!m.calls[c].future.Pending? || (c in m.hand && m.hand[c] == Hold(s, Fail(reason))))
  }

  /** A future that was pending when it was taken ends as failed by `s`, or by its own timeout. */
  predicate WokenBy(future: Promise, s: Sid, reason: Reason) {
    future.Pending? || future.Cancelled? || future == Failed(reason, s)
  }

  lemma StepKeepsWaking(st: State, a: Action, cfg: Config, s: Sid, reason: Reason, c: Req)
    requires Inv(st.mail) && BeingWoken(st.mail, s, reason, c)
    ensures BeingWoken(Step(st, a, cfg).mail, s, reason, c)
    ensures
      WokenBy(st.mail.calls[c].future, s, reason) ==> WokenBy(Step(st, a, cfg).mail.calls[c].future, s, reason)
  {
    FutureChangesOnce(st, a, cfg, c);
    if c in st.mail.hand {
      HandStays(st, a, cfg, c);
    }
  }

  lemma {:induction false} RunKeepsWaking(actions: seq<Action>, cfg: Config, i: nat, s: Sid, reason: Reason, c: Req)
    requires i <= |actions| && BeingWoken(Run(actions[..i], cfg).mail, s, reason, c)
    ensures BeingWoken(Run(actions, cfg).mail, s, reason, c)
    ensures WokenBy(Run(actions[..i], cfg).mail.calls[c].future, s, reason)
      ==> WokenBy(Run(actions, cfg).mail.calls[c].future, s, reason)
  {
    if i < |actions| {
      var front := actions[..|actions| - 1];
      assert front[..i] == actions[..i];
      RunKeepsWaking(front, cfg, i, s, reason, c);
      RunKeepsMail(front, cfg);
      StepKeepsWaking(Run(front, cfg), actions[|actions| - 1], cfg, s, reason, c);
    } else {
      assert actions[..i] == actions;
    }
  }

  /** Disconnect and replacement wake every waiter of the node that the snapshot finds and leave every
  other node's key in the map: once the session has moved on, each of those calls is failed by it with
  its reason, or had ended or timed out by itself. */
  lemma SnapshotWakesItsNode(actions: seq<Action>, cfg: Config, i: nat, s: Sid, k: Key)
    requires i < |actions| && actions[i] == Snapshot(s) && Named(Run(actions[..i], cfg).desk, s)
    requires
      var phase := Run(actions[..i], cfg).desk.phases[s];
      (phase.SnapReplaced? || phase.SnapGone?) && k in Run(actions[..i], cfg).mail.waiters
    ensures
      var st := Run(actions[..i], cfg);
      var reason := if st.desk.phases[s].SnapGone? then NodeDisconnected else ConnectionReplaced;
      if k.node != st.desk.past.authed[s] then k in Run(actions[..i + 1], cfg).mail.waiters
      else
        && k !in Run(actions[..i + 1], cfg).mail.waiters
        && k.id in st.mail.calls && k.id in Run(actions, cfg).mail.calls
        && (s in Run(actions, cfg).desk.phases && !Settling(Run(actions, cfg).desk.phases[s]) ==>
              var before, after := st.mail.calls[k.id].future, Run(actions, cfg).mail.calls[k.id].future;
              if before.Pending? then after == Failed(reason, s) || after.Cancelled? else after == before)
  {
    var st := Run(actions[..i], cfg);
    var reason := if st.desk.phases[s].SnapGone? then NodeDisconnected else ConnectionReplaced;
    RunKeepsMail(actions[..i], cfg);
    SnapshotTakesExactlyItsNode(st, s, cfg);
    RunOne(actions, cfg, i);
    if k.node == st.desk.past.authed[s] {
      SnapshotKeepsCalls(st, s, cfg);
      RunKeepsWaking(actions, cfg, i + 1, s, reason, k.id);
      DoneStays(actions, cfg, i, k.id);
      RunKeepsReplies(actions, cfg);
      HeldMeansSettling(Run(actions, cfg), s, k.id);
    }
  }

  lemma SnapshotKeepsCalls(st: State, s: Sid, cfg: Config)
    requires Named(st.desk, s) && (st.desk.phases[s].SnapReplaced? || st.desk.phases[s].SnapGone?)
    ensures Step(st, Snapshot(s), cfg).mail.calls == st.mail.calls
  {}

  lemma HeldMeansSettling(st: State, s: Sid, c: Req)
    requires ReplyInv(st.mail, st.desk)
    ensures c in st.mail.hand && st.mail.hand[c].owner == s ==> s in st.desk.phases && Settling(st.desk.phases[s])
  {
    if c in st.mail.hand {
      assert HeldOk(st.mail.hand[c], c, st.mail.calls[c].node, st.desk.phases, st.desk.past.authed);
    }
  }
}
