/** Where every outcome comes from, over every run of the relay and in terms of its actions alone: the
send that decided how a call went on, the lookup that found its node or did not, and the whole way of
each answer and each failure, from the socket that connected to the future that was settled. */
module RelayOrigins {
  import opened Registry
  import opened Wrappers
  import opened Handlers
  import opened Relay
  import opened RelayTable
  import opened RelayMail
  import opened RelayReplies
  import opened RelayTrails
  import RelayDelivery
  import Environment

  // ---------------------------------------------------------------------
  // Sessions

  /** Nobody has a name who did not present it twice, first in a compatible hello and later with a valid
  token. */
  lemma NamesHaveTokens(actions: seq<Action>, cfg: Config, s: Sid)
    requires s in Run(actions, cfg).desk.past.authed
    ensures
      var n := Run(actions, cfg).desk.past.authed[s];
      && Follows([Connect(s), Hello(s, n, true), Auth(s, n, true)], actions)
      && exists i, j :: 0 <= i < j < |actions| && actions[i] == Hello(s, n, true) && actions[j] == Auth(s, n, true)
  {
    RunKeepsSession(actions, cfg, s);
    var n := Run(actions, cfg).desk.past.authed[s];
    assert Admitted(s, n) == [Connect(s), Hello(s, n, true), Auth(s, n, true)];
    var at := FollowsPicks(Admitted(s, n), actions);
    assert actions[at[1]] == Hello(s, n, true) && actions[at[2]] == Auth(s, n, true) && at[1] < at[2];
  }

  /** So only a session that presented a valid token for `n` stands in the table under `n`. */
  lemma EntriesHaveTokens(actions: seq<Action>, cfg: Config, n: string)
    requires n in Run(actions, cfg).desk.table
    ensures
      var s := Run(actions, cfg).desk.table[n].sessionId;
      Follows([Connect(s), Hello(s, n, true), Auth(s, n, true), Install(s)], actions)
  {
    var d := Run(actions, cfg).desk;
    var s := d.table[n].sessionId;
    RunKeepsTable(actions, cfg);
    RunKeepsSession(actions, cfg, s);
    assert Latest(d.past.order, d.past.authed, s) && d.past.authed[s] == n;
    assert Entered(s, n) == [Connect(s), Hello(s, n, true), Auth(s, n, true), Install(s)];
  }

  // ---------------------------------------------------------------------
  // Futures

  predicate HoldTrailed(h: Hold, names: Names, actions: seq<Action>) {
    h.owner in names && Follows(Held(h.owner, names[h.owner], h.verdict), actions)
  }

  /** The verdict a settled future carries. */
  function VerdictOf(future: Promise): Verdict
    requires future.Answered? || future.Failed?
  {
    if future.Answered? then Deliver(future.msg) else Fail(future.reason)
  }

  predicate FutureTrailed(future: Promise, c: Req, names: Names, actions: seq<Action>) {
    future.Answered? || future.Failed? ==>
      && future.owner in names
      && Follows(Held(future.owner, names[future.owner], VerdictOf(future)) + [Settle(future.owner, c)], actions)
  }

  ghost predicate FuturesTrailed(st: State, actions: seq<Action>) {
    && (forall c :: c in st.mail.hand ==> HoldTrailed(st.mail.hand[c], st.desk.past.authed, actions))
    && (forall c :: c in st.mail.calls ==> FutureTrailed(st.mail.calls[c].future, c, st.desk.past.authed, actions))
  }

  /** A future comes into a session's hands by its snapshot or by the message it routes. */
  predicate Taken(d: Desk, a: Action, h: Hold) {
    var s := h.owner;
    && Named(d, s)
    && (|| (a == Snapshot(s) && d.phases[s].SnapReplaced? && h.verdict == Fail(ConnectionReplaced))
        || (a == Snapshot(s) && d.phases[s].SnapGone? && h.verdict == Fail(NodeDisconnected))
        || (a == Route(s) && h.verdict.Deliver? && d.phases[s] == Routing(h.verdict.msg)))
  }

  lemma SessionHands(st: State, s: Sid, a: Action, m': Mail, c: Req)
    requires IsSessionAction(a) && a.s == s && Named(st.desk, s) && SessionMail(st, s, a, m') && c in m'.hand
    requires Inv(st.mail)
    ensures (c in st.mail.hand && m'.hand[c] == st.mail.hand[c]) || Taken(st.desk, a, m'.hand[c])
  {}

  lemma StepHands(st: State, a: Action, cfg: Config, c: Req)
    requires Inv(st.mail) && c in Step(st, a, cfg).mail.hand
    ensures
      var hand' := Step(st, a, cfg).mail.hand;
      (c in st.mail.hand && hand'[c] == st.mail.hand[c]) || Taken(st.desk, a, hand'[c])
  {
    if IsSessionAction(a) {
      if Named(st.desk, a.s) {
        SessionStepMail(st, a.s, a, cfg);
        SessionHands(st, a.s, a, SessionStep(st, a.s, a, cfg).mail, c);
      }
    } else {
      RelayDelivery.OtherHandStays(st, a, cfg);
    }
  }

  lemma TakenIsTrailed(d: Desk, a: Action, h: Hold, names': Names, front: seq<Action>)
    requires TableInv(d) && SessionTrailed(d, h.owner, front) && Taken(d, a, h)
    requires h.owner in names' && names'[h.owner] == d.past.authed[h.owner]
    ensures HoldTrailed(h, names', front + [a])
  {
    var s, p := h.owner, d.past;
    var n := p.authed[s];
    assert PhaseOk(d.phases[s], s, p.order, p.authed, p.displaced, p.removed);
    if h.verdict.Deliver? {
      Later(Checked(s, n, h.verdict.msg), front, a);
    } else if h.verdict.reason.ConnectionReplaced? {
      Later(Entered(s, n), front, a);
    } else {
      Later(Left(s, n), front, a);
    }
  }

  lemma StepKeepsHold(st: State, a: Action, cfg: Config, front: seq<Action>, c: Req)
    requires TableInv(st.desk) && Inv(st.mail) && FuturesTrailed(st, front)
    requires forall s :: SessionTrailed(st.desk, s, front)
    requires c in Step(st, a, cfg).mail.hand
    ensures HoldTrailed(Step(st, a, cfg).mail.hand[c], Step(st, a, cfg).desk.past.authed, front + [a])
  {
    var h, names' := Step(st, a, cfg).mail.hand[c], Step(st, a, cfg).desk.past.authed;
    StepHands(st, a, cfg, c);
    StepGrows(st, a, cfg);
    if Taken(st.desk, a, h) {
      assert SessionTrailed(st.desk, h.owner, front);
      TakenIsTrailed(st.desk, a, h, names', front);
    } else {
      assert HoldTrailed(h, st.desk.past.authed, front);
      Later(Held(h.owner, names'[h.owner], h.verdict), front, a);
    }
  }

  lemma StepKeepsFuture(st: State, a: Action, cfg: Config, front: seq<Action>, c: Req)
    requires TableInv(st.desk) && FuturesTrailed(st, front)
    requires c in Step(st, a, cfg).mail.calls
    ensures FutureTrailed(Step(st, a, cfg).mail.calls[c].future, c, Step(st, a, cfg).desk.past.authed, front + [a])
  {
    var future, names' := Step(st, a, cfg).mail.calls[c].future, Step(st, a, cfg).desk.past.authed;
    StepGrows(st, a, cfg);
    if c !in st.mail.calls {
      NewCallsArePending(st, a, cfg, c);
    } else if future.Answered? || future.Failed? {
      FutureChangesOnce(st, a, cfg, c);
      if future == st.mail.calls[c].future {
        assert FutureTrailed(future, c, st.desk.past.authed, front);
        Later(Held(future.owner, names'[future.owner], VerdictOf(future)) + [Settle(future.owner, c)], front, a);
      } else {
        assert HoldTrailed(st.mail.hand[c], st.desk.past.authed, front);
        assert a == Settle(future.owner, c);
        Later(Held(future.owner, names'[future.owner], VerdictOf(future)), front, a);
      }
    }
  }

  lemma StepKeepsFutures(st: State, a: Action, cfg: Config, front: seq<Action>)
    requires TableInv(st.desk) && Inv(st.mail) && FuturesTrailed(st, front)
    requires forall s :: SessionTrailed(st.desk, s, front)
    ensures FuturesTrailed(Step(st, a, cfg), front + [a])
  {
    var st' := Step(st, a, cfg);
    forall c | c in st'.mail.hand ensures HoldTrailed(st'.mail.hand[c], st'.desk.past.authed, front + [a]) {
      StepKeepsHold(st, a, cfg, front, c);
    }
    forall c | c in st'.mail.calls
      ensures FutureTrailed(st'.mail.calls[c].future, c, st'.desk.past.authed, front + [a])
    {
      StepKeepsFuture(st, a, cfg, front, c);
    }
  }

  lemma {:induction false} RunKeepsFutures(actions: seq<Action>, cfg: Config)
    ensures FuturesTrailed(Run(actions, cfg), actions)
  {
    if actions != [] {
      var n := |actions| - 1;
      var front := actions[..n];
      RunKeepsFutures(front, cfg);
      RunKeepsTable(front, cfg);
      RunKeepsMail(front, cfg);
      forall s ensures SessionTrailed(Run(front, cfg).desk, s, front) {
        RunKeepsSession(front, cfg, s);
      }
      StepKeepsFutures(Run(front, cfg), actions[n], cfg, front);
      assert front + [actions[n]] == actions;
    }
  }

  /** The whole way of an answer: a socket connects, says hello under the call's node and authenticates
  with a valid token, is registered, receives the very message, passes the limit, and routes it to the
  call whose id the message carries. */
  lemma AnswersCameThisWay(actions: seq<Action>, cfg: Config, c: Req)
    requires c in Run(actions, cfg).mail.calls && Run(actions, cfg).mail.calls[c].future.Answered?
    ensures
      var call := Run(actions, cfg).mail.calls[c];
      var s, n, msg := call.future.owner, call.node, call.future.msg;
      Follows([Connect(s), Hello(s, n, true), Auth(s, n, true), Install(s), Receive(s, msg), Check(s), Route(s),
               Settle(s, c)], actions)
  {
    RunKeepsFutures(actions, cfg);
    AnswersCorrelate(actions, cfg, c);
    var call := Run(actions, cfg).mail.calls[c];
    var s, n, msg := call.future.owner, call.node, call.future.msg;
    assert FutureTrailed(call.future, c, Run(actions, cfg).desk.past.authed, actions);
    assert Held(s, n, Deliver(msg)) + [Settle(s, c)]
      == [Connect(s), Hello(s, n, true), Auth(s, n, true), Install(s), Receive(s, msg), Check(s), Route(s),
          Settle(s, c)];
  }

  /** The whole way of a failure: a session authenticated as the call's node is registered, and took the
  call's waiter in its snapshot, right for a replacement, or after its own unregister for a disconnect. */
  lemma FailuresCameThisWay(actions: seq<Action>, cfg: Config, c: Req)
    requires c in Run(actions, cfg).mail.calls && Run(actions, cfg).mail.calls[c].future.Failed?
    ensures
      var call := Run(actions, cfg).mail.calls[c];
      var s, n := call.future.owner, call.node;
      if call.future.reason.ConnectionReplaced? then
        Follows([Connect(s), Hello(s, n, true), Auth(s, n, true), Install(s), Snapshot(s), Settle(s, c)], actions)
      else
        Follows([Connect(s), Hello(s, n, true), Auth(s, n, true), Install(s), Unregister(s), Snapshot(s),
                 Settle(s, c)], actions)
  {
    RunKeepsFutures(actions, cfg);
    FailuresHaveCause(actions, cfg, c);
    var call := Run(actions, cfg).mail.calls[c];
    var s, n := call.future.owner, call.node;
    assert FutureTrailed(call.future, c, Run(actions, cfg).desk.past.authed, actions);
    if call.future.reason.ConnectionReplaced? {
      assert Held(s, n, Fail(ConnectionReplaced)) + [Settle(s, c)]
        == [Connect(s), Hello(s, n, true), Auth(s, n, true), Install(s), Snapshot(s), Settle(s, c)];
    } else {
      assert Held(s, n, Fail(NodeDisconnected)) + [Settle(s, c)]
        == [Connect(s), Hello(s, n, true), Auth(s, n, true), Install(s), Unregister(s), Snapshot(s), Settle(s, c)];
    }
  }
}
