/** The course of each call over every run of the relay: which of its actions happened, in which order,
and what decided how it went on. */
module RelayCourse {
  import opened Registry
  import opened Relay
  import opened RelayMail
  import opened RelayTrails
  import RelayReplies
  import RelayAudit
  import Environment

  /** The actions of a call that was sent. */
  function Sent(c: Req, call: Call, blank: bool, ok: bool): seq<Action> {
    [Begin(c, call.node, call.kind, blank), Look(c), RegisterWaiter(c), Send(c, ok)]
  }

  /** The actions that took a call where it stands. */
  function Course(c: Req, call: Call, blank: bool): seq<Action> {
    match call.stage
    case Looking => [Begin(c, call.node, call.kind, blank)]
    case Found => [Begin(c, call.node, call.kind, blank), Look(c)]
    case Sending => [Begin(c, call.node, call.kind, blank), Look(c), RegisterWaiter(c)]
    case Awaiting => Sent(c, call, blank, true)
    case SendBroken => Sent(c, call, blank, false)
    case Expired => Sent(c, call, blank, true) + [Expire(c)]
    case Finished(ending) =>
      match ending
      case NoOp => [Begin(c, call.node, call.kind, blank)]
      case NotConnected => [Begin(c, call.node, call.kind, blank), Look(c)]
      case SendFailed => Sent(c, call, blank, false) + [UnregisterWaiter(c)]
      case TimedOut => Sent(c, call, blank, true) + [Expire(c), UnregisterWaiter(c)]
      case Disconnected => Sent(c, call, blank, true) + [Wake(c)]
      case Answer(_) => Sent(c, call, blank, true) + [Wake(c)]
  }

  /** The only calls that end without asking the relay are executes of an empty command. */
  predicate Began(call: Call, blank: bool) {
    call.stage == Finished(NoOp) <==> blank && call.kind == Env(Environment.Exec)
  }

  ghost predicate CallTrailed(c: Req, call: Call, actions: seq<Action>) {
    exists blank: bool :: Follows(Course(c, call, blank), actions) && Began(call, blank)
  }

  /** How an action moves a call on. */
  predicate MovedOn(call: Call, call': Call, c: Req, a: Action, table: Table) {
    && call'.node == call.node && call'.kind == call.kind
    && match call.stage
       case Looking =>
         && a == Look(c)
         && (if call.node in table then call'.stage == Found && call'.via == table[call.node].sessionId
             else call'.stage == Finished(NotConnected))
       case Found => a == RegisterWaiter(c) && call'.stage == Sending && call'.via == call.via
       case Sending =>
         a.Send? && a.c == c && call'.stage == (if a.ok then Awaiting else SendBroken) && call'.via == call.via
       case Awaiting =>
         && call'.via == call.via
         && (|| (a == Expire(c) && call'.stage == Expired)
             || (a == Wake(c) && call'.stage == Finished(Disconnected))
             || (a == Wake(c) && call'.stage.Finished? && call'.stage.ending.Answer?))
       case SendBroken => a == UnregisterWaiter(c) && call'.stage == Finished(SendFailed) && call'.via == call.via
       case Expired => a == UnregisterWaiter(c) && call'.stage == Finished(Ending.TimedOut) && call'.via == call.via
       case Finished(_) => false
  }

  predicate Stays(call: Call, call': Call) {
    call'.node == call.node && call'.kind == call.kind && call'.stage == call.stage && call'.via == call.via
  }

  lemma CallStepMoves(m: Mail, c: Req, a: Action, d: Desk)
    requires c in m.calls && IsCallAction(a) && a.c == c
    ensures
      var calls' := CallStep(m, c, a, d).calls;
      c in calls' && (Stays(m.calls[c], calls'[c]) || MovedOn(m.calls[c], calls'[c], c, a, d.table))
  {}

  lemma SessionStays(st: State, s: Sid, a: Action, m': Mail, c: Req)
    requires Named(st.desk, s) && SessionMail(st, s, a, m') && c in st.mail.calls
    ensures c in m'.calls && Stays(st.mail.calls[c], m'.calls[c])
  {}

  lemma StepMovesOn(st: State, a: Action, cfg: Config, c: Req)
    requires c in st.mail.calls
    ensures
      var calls, calls' := st.mail.calls, Step(st, a, cfg).mail.calls;
      c in calls' && (Stays(calls[c], calls'[c]) || MovedOn(calls[c], calls'[c], c, a, st.desk.table))
  {
    if IsSessionAction(a) {
      if Named(st.desk, a.s) {
        SessionStepMail(st, a.s, a, cfg);
        SessionStays(st, a.s, a, SessionStep(st, a.s, a, cfg).mail, c);
      }
    } else if IsCallAction(a) {
      if a.c in st.mail.calls {
        RelayReplies.CallStepUpdatesOne(st.mail, a.c, a, st.desk);
        if a.c == c {
          CallStepMoves(st.mail, c, a, st.desk);
        }
      }
    }
  }

  lemma NewCallBegins(st: State, a: Action, cfg: Config, c: Req)
    requires c !in st.mail.calls && c in Step(st, a, cfg).mail.calls
    ensures
      var call := Step(st, a, cfg).mail.calls[c];
      && a.Begin? && a == Begin(c, call.node, call.kind, a.blank)
      && call.stage == if a.blank && call.kind == Env(Environment.Exec) then Finished(NoOp) else Looking
  {
    if IsSessionAction(a) && Named(st.desk, a.s) {
      SessionStepMail(st, a.s, a, cfg);
    }
  }

  /** A call that moves on adds just that action to its course. */
  lemma CourseGrows(call: Call, call': Call, c: Req, a: Action, table: Table, blank: bool)
    requires MovedOn(call, call', c, a, table)
    ensures Course(c, call', blank) == Course(c, call, blank) + [a]
  {}

  lemma StepKeepsCourse(st: State, a: Action, cfg: Config, front: seq<Action>, c: Req)
    requires c in st.mail.calls ==> CallTrailed(c, st.mail.calls[c], front)
    requires c in Step(st, a, cfg).mail.calls
    ensures CallTrailed(c, Step(st, a, cfg).mail.calls[c], front + [a])
  {
    var call' := Step(st, a, cfg).mail.calls[c];
    if c !in st.mail.calls {
      NewCallBegins(st, a, cfg, c);
      Later([], front, a);
      assert [] + [a] == Course(c, call', a.blank) && Began(call', a.blank);
    } else {
      StepMovesOn(st, a, cfg, c);
      MoveKeepsCourse(st.mail.calls[c], call', c, a, st.desk.table, front);
    }
  }

  lemma MoveKeepsCourse(call: Call, call': Call, c: Req, a: Action, table: Table, front: seq<Action>)
    requires CallTrailed(c, call, front) && (Stays(call, call') || MovedOn(call, call', c, a, table))
    ensures CallTrailed(c, call', front + [a])
  {
    var blank :| Follows(Course(c, call, blank), front) && Began(call, blank);
    Later(Course(c, call, blank), front, a);
    BeganStays(call, call', c, a, table, blank);
    if MovedOn(call, call', c, a, table) {
      CourseGrows(call, call', c, a, table, blank);
    }
  }

  lemma BeganStays(call: Call, call': Call, c: Req, a: Action, table: Table, blank: bool)
    requires Began(call, blank) && (Stays(call, call') || MovedOn(call, call', c, a, table))
    ensures Began(call', blank) && (Stays(call, call') ==> Course(c, call', blank) == Course(c, call, blank))
  {}

  lemma {:induction false} RunKeepsCourse(actions: seq<Action>, cfg: Config, c: Req)
    requires c in Run(actions, cfg).mail.calls
    ensures CallTrailed(c, Run(actions, cfg).mail.calls[c], actions)
  {
    var n := |actions| - 1;
    var front := actions[..n];
    if c in Run(front, cfg).mail.calls {
      RunKeepsCourse(front, cfg, c);
    }
    StepKeepsCourse(Run(front, cfg), actions[n], cfg, front, c);
    assert front + [actions[n]] == actions;
  }

  // ---------------------------------------------------------------------
  // Main results

  /** The outcome of its send decides how a call goes on: only a send that failed makes it fail so, and
  only one that went through lets it wait, time out, or be answered or disconnected. */
  lemma SendDecides(actions: seq<Action>, cfg: Config, c: Req)
    requires c in Run(actions, cfg).mail.calls
    ensures
      var stage := Run(actions, cfg).mail.calls[c].stage;
      && (stage.SendBroken? || stage == Finished(SendFailed)
          ==> exists i, j :: 0 <= i < j < |actions| && actions[i] == RegisterWaiter(c) && actions[j] == Send(c, false))
      && (stage.Awaiting? || stage.Expired?
          || (stage.Finished? && (stage.ending.TimedOut? || stage.ending.Disconnected? || stage.ending.Answer?))
          ==> exists i, j :: 0 <= i < j < |actions| && actions[i] == RegisterWaiter(c) && actions[j] == Send(c, true))
  {
    RunKeepsCourse(actions, cfg, c);
    var call := Run(actions, cfg).mail.calls[c];
    var blank :| Follows(Course(c, call, blank), actions) && Began(call, blank);
    CourseSends(c, call, blank);
    if Sends(call.stage, true) || Sends(call.stage, false) {
      SentInOrder(Course(c, call, blank), actions);
    }
  }

  predicate Sends(stage: Stage, ok: bool) {
    if ok then
      || stage.Awaiting? || stage.Expired?
      || (stage.Finished? && (stage.ending.TimedOut? || stage.ending.Disconnected? || stage.ending.Answer?))
    else stage.SendBroken? || stage == Finished(SendFailed)
  }

  lemma CourseSends(c: Req, call: Call, blank: bool)
    ensures Sends(call.stage, true) ==> Sent(c, call, blank, true) <= Course(c, call, blank)
    ensures Sends(call.stage, false) ==> Sent(c, call, blank, false) <= Course(c, call, blank)
  {}

  lemma SentInOrder(course: seq<Action>, actions: seq<Action>)
    requires Follows(course, actions) && |course| >= 4
    ensures exists i, j :: 0 <= i < j < |actions| && actions[i] == course[2] && actions[j] == course[3]
  {
    var at := FollowsPicks(course, actions);
    assert actions[at[2]] == course[2] && actions[at[3]] == course[3];
  }

  /** At action `i` the call looked its node up and got `call.via`, or nothing. */
  predicate LookedAt(actions: seq<Action>, cfg: Config, c: Req, call: Call, i: nat) {
    && i < |actions| && actions[i] == Look(c)
    && var calls, table := Run(actions[..i], cfg).mail.calls, Run(actions[..i], cfg).desk.table;
       && c in calls && calls[c].stage.Looking?
       && (if call.stage == Finished(NotConnected) then call.node !in table
           else call.node in table && table[call.node].sessionId == call.via)
  }

  predicate LookedUp(stage: Stage) {
    !stage.Looking? && stage != Finished(NoOp)
  }

  /** A call ends as not connected exactly if its node was not in the table when it looked; otherwise it
  runs on the session that stood there then. */
  lemma {:induction false} LookDecides(actions: seq<Action>, cfg: Config, c: Req)
    requires c in Run(actions, cfg).mail.calls && LookedUp(Run(actions, cfg).mail.calls[c].stage)
    ensures
      exists i: nat :: LookedAt(actions, cfg, c, Run(actions, cfg).mail.calls[c], i)
  {
    var n := |actions| - 1;
    var front, a := actions[..n], actions[n];
    var st := Run(front, cfg);
    var call' := Run(actions, cfg).mail.calls[c];
    if c !in st.mail.calls {
      NewCallBegins(st, a, cfg, c);
    } else {
      StepMovesOn(st, a, cfg, c);
      var call := st.mail.calls[c];
      if call.stage.Looking? {
        assert LookedAt(actions, cfg, c, call', n);
      } else {
        LookDecides(front, cfg, c);
        var i: nat :| LookedAt(front, cfg, c, call, i);
        assert front[..i] == actions[..i];
        assert LookedAt(actions, cfg, c, call', i);
      }
    }
  }

  /** What its one row lets a reader conclude about a call: Ok and Timeout that its request went out, the
  latter that it then expired; Error that the send failed, or that it went out and an answer came. */
  predicate Tells(status: Environment.Status, c: Req, actions: seq<Action>) {
    match status
    case Ok => Send(c, true) in actions && Wake(c) in actions
    case Timeout => Send(c, true) in actions && Expire(c) in actions
    case Error => Send(c, false) in actions || (Send(c, true) in actions && Wake(c) in actions)
    case Offline => Look(c) in actions
  }

  lemma FollowsIn(trail: seq<Action>, actions: seq<Action>)
    requires Follows(trail, actions)
    ensures forall a :: a in trail ==> a in actions
  {
    var at := FollowsPicks(trail, actions);
    forall a | a in trail ensures a in actions {
      var i :| 0 <= i < |trail| && trail[i] == a;
      assert actions[at[i]] == a;
    }
  }

  lemma CourseHas(c: Req, call: Call, blank: bool)
    requires call.stage.Finished? && !call.stage.ending.NoOp?
    ensures
      var course, ending := Course(c, call, blank), call.stage.ending;
      && |course| >= 2 && course[1] == Look(c)
      && (!ending.NotConnected? ==> |course| >= 5 && course[3] == Send(c, !ending.SendFailed?))
      && (ending.TimedOut? ==> course[4] == Expire(c))
      && (ending.Disconnected? || ending.Answer? ==> course[4] == Wake(c))
  {}

  lemma EndingTells(c: Req, call: Call, status: Environment.Status, actions: seq<Action>, py: Wire.Python)
    requires call.stage.Finished? && CallTrailed(c, call, actions) && call.kind.Env?
    requires RelayAudit.StatusFits(call.stage.ending, call.kind.action, status, py)
    ensures Tells(status, c, actions)
  {
    var blank :| Follows(Course(c, call, blank), actions) && Began(call, blank);
    CourseHas(c, call, blank);
    TrailTells(Course(c, call, blank), call.stage.ending, call.kind.action, c, status, actions, py);
  }

  lemma TrailTells(course: seq<Action>, ending: Ending, action: Environment.Action, c: Req, status: Environment.Status,
                   actions: seq<Action>, py: Wire.Python)
    requires RelayAudit.StatusFits(ending, action, status, py) && Follows(course, actions)
    requires |course| >= 2 && course[1] == Look(c)
    requires !ending.NotConnected? ==> |course| >= 5 && course[3] == Send(c, !ending.SendFailed?)
    requires ending.TimedOut? ==> course[4] == Expire(c)
    requires ending.Disconnected? || ending.Answer? ==> course[4] == Wake(c)
    ensures Tells(status, c, actions)
  {
    FollowsIn(course, actions);
    assert course[1] in course;
    if !ending.NotConnected? {
      assert course[3] in course && course[4] in course;
    }
  }

  /** Every row an execute, read or write left tells the truth about its request. */
  lemma RowsTellTheCourse(actions: seq<Action>, cfg: Config, py: Wire.Python, c: Req)
    requires c in Run(actions, cfg).mail.calls && RelayAudit.LogsItself(Run(actions, cfg).mail.calls[c])
    ensures
      var rows := RelayAudit.About(RelayAudit.Log(Run(actions, cfg).mail.audit, py), c);
      |rows| <= 1 && (|rows| == 1 ==> Tells(rows[0].status, c, actions))
  {
    RelayAudit.OneRowPerCall(actions, cfg, py, c);
    RunKeepsCourse(actions, cfg, c);
    var call := Run(actions, cfg).mail.calls[c];
    var rows := RelayAudit.About(RelayAudit.Log(Run(actions, cfg).mail.audit, py), c);
    if |rows| == 1 {
      EndingTells(c, call, rows[0].status, actions, py);
    }
  }
}
