/** The audit log over every run of the relay: one row for each of the environment's calls that ended,
with the call's own request id and a status that matches how it ended. */
module RelayAudit {
  import opened Registry
  import opened Relay
  import opened RelayMail
  import Environment

  predicate LogsItself(call: Call) {
    call.kind.Env? && call.stage.Finished? && !call.stage.ending.NoOp?
  }

  predicate Describes(e: Entry, c: Req, call: Call) {
    && LogsItself(call) && e.request == c && e.node == call.node
    && e.action == call.kind.action && e.ending == call.stage.ending
  }

  ghost predicate Mentions(audit: seq<Entry>, c: Req) {
    exists i :: 0 <= i < |audit| && audit[i].request == c
  }

  predicate Distinct(audit: seq<Entry>) {
    forall i, j :: 0 <= i < j < |audit| ==> audit[i].request != audit[j].request
  }

  ghost predicate AuditOk(audit: seq<Entry>, calls: Calls) {
    && Distinct(audit)
    && (forall i :: 0 <= i < |audit| ==>
          audit[i].request in calls && Describes(audit[i], audit[i].request, calls[audit[i].request]))
    && (forall c :: c in calls && LogsItself(calls[c]) ==> Mentions(audit, c))
  }

  // ---------------------------------------------------------------------

  /** Nothing the audit depends on changes. */
  ghost predicate SameStages(calls: Calls, calls': Calls) {
    && calls'.Keys == calls.Keys
    && forall c :: c in calls ==>
         calls'[c].kind == calls[c].kind && calls'[c].node == calls[c].node && calls'[c].stage == calls[c].stage
  }

  lemma SameStagesKeepAudit(audit: seq<Entry>, calls: Calls, calls': Calls)
    requires AuditOk(audit, calls) && SameStages(calls, calls')
    ensures AuditOk(audit, calls')
  {}

  /** A call begins, or moves on without ending. */
  lemma LiveCallKeepsAudit(audit: seq<Entry>, calls: Calls, c: Req, call: Call)
    requires AuditOk(audit, calls) && !LogsItself(call)
    requires c in calls ==> !calls[c].stage.Finished?
    ensures AuditOk(audit, calls[c := call])
  {}

  /** A call ends, and logs itself if it is the environment's. */
  lemma FinishKeepsAudit(m: Mail, c: Req, ending: Ending)
    requires AuditOk(m.audit, m.calls) && c in m.calls && !m.calls[c].stage.Finished? && !ending.NoOp?
    ensures AuditOk(Finish(m, c, ending).audit, Finish(m, c, ending).calls)
  {
    var call := m.calls[c];
    var audit', calls' := m.audit + Logged(c, call, ending), m.calls[c := call.(stage := Finished(ending))];
    forall i | 0 <= i < |m.audit| ensures m.audit[i].request != c {
      assert Describes(m.audit[i], m.audit[i].request, m.calls[m.audit[i].request]);
    }
    forall x | x in calls' && LogsItself(calls'[x]) ensures Mentions(audit', x) {
      if x == c {
        assert audit'[|m.audit|].request == c;
      } else {
        MentionsGrow(m.audit, Logged(c, call, ending), x);
      }
    }
  }

  lemma MentionsGrow(audit: seq<Entry>, more: seq<Entry>, c: Req)
    requires Mentions(audit, c)
    ensures Mentions(audit + more, c)
  {
    var i :| 0 <= i < |audit| && audit[i].request == c;
    assert (audit + more)[i].request == c;
  }

  lemma CallStepKeepsAudit(m: Mail, c: Req, a: Action, d: Desk)
    requires AuditOk(m.audit, m.calls) && c in m.calls
    ensures AuditOk(CallStep(m, c, a, d).audit, CallStep(m, c, a, d).calls)
  {
    var call := m.calls[c];
    if a.Look? && call.stage.Looking? && call.node !in d.table {
      FinishKeepsAudit(m, c, NotConnected);
    } else if a.UnregisterWaiter? && (call.stage.SendBroken? || call.stage.Expired?) {
      FinishKeepsAudit(m.(waiters := m.waiters - {Key(call.node, c)}), c,
                       if call.stage.SendBroken? then SendFailed else Ending.TimedOut);
    } else if a.Wake? && call.stage.Awaiting? && (call.future.Answered? || call.future.Failed?) {
      FinishKeepsAudit(m, c, if call.future.Answered? then Answer(call.future.msg) else Disconnected);
    } else {
      CallStepLives(m, c, a, d);
      if !call.stage.Finished? {
        LiveCallKeepsAudit(m.audit, m.calls, c, CallStep(m, c, a, d).calls[c]);
      }
    }
  }

  lemma CallStepLives(m: Mail, c: Req, a: Action, d: Desk)
    requires c in m.calls
    requires !(a.Look? && m.calls[c].stage.Looking? && m.calls[c].node !in d.table)
    requires !(a.UnregisterWaiter? && (m.calls[c].stage.SendBroken? || m.calls[c].stage.Expired?))
    requires !(a.Wake? && m.calls[c].stage.Awaiting? && (m.calls[c].future.Answered? || m.calls[c].future.Failed?))
    ensures
      var m' := CallStep(m, c, a, d);
      && m'.audit == m.audit && c in m'.calls && m'.calls == m.calls[c := m'.calls[c]]
      && (if m.calls[c].stage.Finished? then m' == m else !m'.calls[c].stage.Finished?)
  {
    assert m.calls == m.calls[c := m.calls[c]];
  }

  lemma SessionKeepsStages(st: State, s: Sid, a: Action, m': Mail)
    requires Named(st.desk, s) && SessionMail(st, s, a, m')
    ensures m'.audit == st.mail.audit && SameStages(st.mail.calls, m'.calls)
  {}

  lemma StepKeepsAudit(st: State, a: Action, cfg: Config)
    requires AuditOk(st.mail.audit, st.mail.calls)
    ensures AuditOk(Step(st, a, cfg).mail.audit, Step(st, a, cfg).mail.calls)
  {
    if IsSessionAction(a) {
      if Named(st.desk, a.s) {
        SessionStepMail(st, a.s, a, cfg);
        var m' := SessionStep(st, a.s, a, cfg).mail;
        SessionKeepsStages(st, a.s, a, m');
        SameStagesKeepAudit(st.mail.audit, st.mail.calls, m'.calls);
      }
    } else if IsCallAction(a) {
      if a.c in st.mail.calls {
        CallStepKeepsAudit(st.mail, a.c, a, st.desk);
      }
    } else if a.Begin? && a.c != "" && a.c !in st.mail.calls {
      LiveCallKeepsAudit(st.mail.audit, st.mail.calls, a.c,
                         DoBegin(st.mail, a.c, a.node, a.kind, a.blank).calls[a.c]);
    }
  }

  lemma {:induction false} RunKeepsAudit(actions: seq<Action>, cfg: Config)
    ensures AuditOk(Run(actions, cfg).mail.audit, Run(actions, cfg).mail.calls)
  {
    if actions != [] {
      RunKeepsAudit(actions[..|actions| - 1], cfg);
      StepKeepsAudit(Run(actions[..|actions| - 1], cfg), actions[|actions| - 1], cfg);
    }
  }

  // ---------------------------------------------------------------------
  // Rows

  function OutcomeOf(e: Entry, py: Wire.Python): Environment.Outcome {
    match e.ending
    case NoOp => Environment.NoOp
    case NotConnected => Environment.NotConnected
    case SendFailed => Environment.SendFailed
    case TimedOut => Environment.Expired
    case Disconnected => Environment.Disconnected
    case Answer(msg) => Environment.OutcomeOf(e.action, msg, py)
  }

  function RowsOf(e: Entry, py: Wire.Python): (rows: seq<Environment.AuditRow>)
    ensures |rows| <= 1 && forall r :: r in rows ==> r.requestId == e.request
  {
    Environment.RowsFor(e.action, e.node, e.request, OutcomeOf(e, py))
  }

  function RowLists(audit: seq<Entry>, py: Wire.Python): (lists: seq<seq<Environment.AuditRow>>)
    ensures |lists| == |audit|
    ensures forall i :: 0 <= i < |audit| ==> |lists[i]| <= 1 && OnlyAbout(lists[i], audit[i].request)
  {
    seq(|audit|, i requires 0 <= i < |audit| => RowsOf(audit[i], py))
  }

  predicate OnlyAbout(rows: seq<Environment.AuditRow>, id: Req) {
    forall r :: r in rows ==> r.requestId == id
  }

  function Concat<T>(lists: seq<seq<T>>): seq<T> {
    if lists == [] then [] else Concat(lists[..|lists| - 1]) + lists[|lists| - 1]
  }

  /** The rows of all entries, in order. */
  function Log(audit: seq<Entry>, py: Wire.Python): seq<Environment.AuditRow> {
    Concat(RowLists(audit, py))
  }

  /** The rows of one request. */
  function About(rows: seq<Environment.AuditRow>, id: Req): seq<Environment.AuditRow> {
    if rows == [] then []
    else
      var rest, row := About(rows[..|rows| - 1], id), rows[|rows| - 1];
      if row.requestId == id then rest + [row] else rest
  }

  lemma AboutMore(rows: seq<Environment.AuditRow>, more: seq<Environment.AuditRow>, id: Req, of: Req)
    requires |more| <= 1 && OnlyAbout(more, of)
    ensures About(rows + more, id) == if id == of then About(rows, id) + more else About(rows, id)
  {
    if |more| == 1 {
      assert (rows + more)[..|rows|] == rows && more[0] in more && [more[0]] == more;
    } else {
      assert rows + more == rows && About(rows, id) + more == About(rows, id);
    }
  }

  /** Each list speaks of its own request. */
  predicate Own(lists: seq<seq<Environment.AuditRow>>, ids: seq<Req>) {
    && |lists| == |ids|
    && (forall i :: 0 <= i < |ids| ==> |lists[i]| <= 1 && OnlyAbout(lists[i], ids[i]))
    && (forall i, j :: 0 <= i < j < |ids| ==> ids[i] != ids[j])
  }

  lemma OwnFront(lists: seq<seq<Environment.AuditRow>>, ids: seq<Req>, n: nat)
    requires Own(lists, ids) && n < |ids|
    ensures Own(lists[..n], ids[..n]) && ids[n] !in ids[..n]
  {}

  lemma {:induction false} ConcatLacks(lists: seq<seq<Environment.AuditRow>>, ids: seq<Req>, id: Req)
    requires Own(lists, ids) && id !in ids
    ensures About(Concat(lists), id) == []
  {
    if ids != [] {
      var n := |ids| - 1;
      ConcatLacks(lists[..n], ids[..n], id);
      AboutMore(Concat(lists[..n]), lists[n], id, ids[n]);
    }
  }

  lemma {:induction false} ConcatHas(lists: seq<seq<Environment.AuditRow>>, ids: seq<Req>, i: nat)
    requires Own(lists, ids) && i < |ids|
    ensures About(Concat(lists), ids[i]) == lists[i]
  {
    var n := |ids| - 1;
    OwnFront(lists, ids, n);
    if i == n {
      ConcatLacks(lists[..n], ids[..n], ids[n]);
    } else {
      ConcatHas(lists[..n], ids[..n], i);
    }
    AboutMore(Concat(lists[..n]), lists[n], ids[i], ids[n]);
    assert i == n ==> [] + lists[n] == lists[n];
  }

  function Requests(audit: seq<Entry>): seq<Req> {
    seq(|audit|, i requires 0 <= i < |audit| => audit[i].request)
  }

  /** The log holds exactly the rows of the entry that mentions a request. */
  lemma LogHas(audit: seq<Entry>, py: Wire.Python, i: nat)
    requires Distinct(audit) && i < |audit|
    ensures About(Log(audit, py), audit[i].request) == RowLists(audit, py)[i]
  {
    ConcatHas(RowLists(audit, py), Requests(audit), i);
  }

  lemma LogLacks(audit: seq<Entry>, py: Wire.Python, id: Req)
    requires Distinct(audit) && !Mentions(audit, id)
    ensures About(Log(audit, py), id) == []
  {
    ConcatLacks(RowLists(audit, py), Requests(audit), id);
  }

  // ---------------------------------------------------------------------
  // Main results

  /** The status of the row a call's ending calls for. */
  predicate StatusFits(ending: Ending, action: Environment.Action, status: Environment.Status, py: Wire.Python) {
    match ending
    case NotConnected => status == Environment.Offline
    case Disconnected => status == Environment.Offline
    case SendFailed => status == Environment.Error
    case TimedOut => status == Environment.Timeout
    case Answer(msg) =>
      status == if Environment.OutcomeOf(action, msg, py).Succeeded? then Environment.Ok else Environment.Error
    case NoOp => false
  }

  /** Exactly one row, of this request, with a status that fits and no zero exit code for a failure. */
  predicate OneRow(rows: seq<Environment.AuditRow>, c: Req, node: string, action: Environment.Action, ending: Ending,
                   py: Wire.Python)
  {
    && |rows| == 1
    && rows[0].requestId == c && rows[0].node == node && rows[0].action == action
    && StatusFits(ending, action, rows[0].status, py)
    && (rows[0].status != Environment.Ok ==> rows[0].exitCode != 0)
    && (!ending.Answer? ==> rows[0].exitCode == -1)
  }

  /** The answer made the decoder raise something the caller does not catch. */
  predicate Crashes(ending: Ending, action: Environment.Action, py: Wire.Python) {
    ending.Answer? && Environment.OutcomeOf(action, ending.msg, py).Crashed?
  }

  lemma EntryLeavesOneRow(e: Entry, py: Wire.Python)
    requires !e.ending.NoOp?
    ensures
      if Crashes(e.ending, e.action, py) then RowsOf(e, py) == []
      else OneRow(RowsOf(e, py), e.request, e.node, e.action, e.ending, py)
    ensures e.ending.Answer? && Environment.WellTyped(e.ending.msg) ==> !Crashes(e.ending, e.action, py)
  {
    if e.ending.Answer? && Environment.WellTyped(e.ending.msg) {
      Environment.WellTypedLeavesOneRow(e.action, e.node, e.request, e.ending.msg, py);
    }
  }

  /** Every non-empty execute, read or write that ended left exactly one row, with its own request id,
  node and action, unless the answer it got is one that crashes its decoder, which no well-typed
  answer does; the status matches the ending, and a row that is not Ok has a non-zero exit code. */
  lemma OneRowPerCall(actions: seq<Action>, cfg: Config, py: Wire.Python, c: Req)
    requires c in Run(actions, cfg).mail.calls && LogsItself(Run(actions, cfg).mail.calls[c])
    ensures
      var m := Run(actions, cfg).mail;
      var call, rows := m.calls[c], About(Log(m.audit, py), c);
      && (if Crashes(call.stage.ending, call.kind.action, py) then rows == []
          else OneRow(rows, c, call.node, call.kind.action, call.stage.ending, py))
      && (call.stage.ending.Answer? && Environment.WellTyped(call.stage.ending.msg)
          ==> !Crashes(call.stage.ending, call.kind.action, py))
  {
    RunKeepsAudit(actions, cfg);
    var m := Run(actions, cfg).mail;
    var e := EntryOf(m.audit, m.calls, py, c);
    EntryLeavesOneRow(e, py);
  }

  lemma EntryOf(audit: seq<Entry>, calls: Calls, py: Wire.Python, c: Req) returns (e: Entry)
    requires AuditOk(audit, calls) && c in calls && LogsItself(calls[c])
    ensures Describes(e, c, calls[c]) && About(Log(audit, py), c) == RowsOf(e, py)
  {
    assert Mentions(audit, c);
    var i :| 0 <= i < |audit| && audit[i].request == c;
    LogHas(audit, py, i);
    e := audit[i];
  }

  /** The row of an execute that was answered with an exit code says Ok and exactly that code. */
  lemma ExitCodeIsRecorded(actions: seq<Action>, cfg: Config, py: Wire.Python, c: Req, msg: Wire.Json)
    requires c in Run(actions, cfg).mail.calls && Run(actions, cfg).mail.calls[c].kind == Env(Environment.Exec)
    requires Run(actions, cfg).mail.calls[c].stage == Finished(Answer(msg))
    requires Environment.IsMessage(msg, "exec_result") && Environment.WellTyped(msg)
    requires Wire.Get(msg, "status") != Wire.Str("error") && Wire.Get(msg, "status") != Wire.Str("timeout")
    requires Wire.Get(msg, "exit_code").Int?
    ensures About(Log(Run(actions, cfg).mail.audit, py), c)
      == [Environment.AuditRow(Environment.Exec, Run(actions, cfg).mail.calls[c].node, c, Environment.Ok,
                               Wire.Get(msg, "exit_code").n)]
  {
    RunKeepsAudit(actions, cfg);
    var m := Run(actions, cfg).mail;
    var e := EntryOf(m.audit, m.calls, py, c);
    Environment.ExecCrashesExactly(msg, py);
    Environment.ExitCodeIsReturned(msg, py, e.node, c);
  }

  /** Nothing else leaves a row: not a call that still runs, not an empty command, and not a call of
  the HTTP endpoints. */
  lemma NoOtherRows(actions: seq<Action>, cfg: Config, py: Wire.Python, c: Req)
    requires c in Run(actions, cfg).mail.calls ==> !LogsItself(Run(actions, cfg).mail.calls[c])
    ensures About(Log(Run(actions, cfg).mail.audit, py), c) == []
  {
    RunKeepsAudit(actions, cfg);
    var m := Run(actions, cfg).mail;
    forall i | 0 <= i < |m.audit| ensures m.audit[i].request != c {
      assert Describes(m.audit[i], m.audit[i].request, m.calls[m.audit[i].request]);
    }
    LogLacks(m.audit, py, c);
  }
}
