/** The relay as a step system: node sessions (wsserver/server.py, wsserver/handlers.py), callers
(environment.py and the HTTP endpoints of wsserver/server.py), the stale sweep (lifecycle.py) and the
registry between them (registry.py).

Each body under the registry's lock is one step, and so is everything else that happens between two
awaits; settling a future that was popped is a step of its own. Any step may follow any other: a run is
any sequence of actions, and an action whose actor is not at that point changes nothing. Session and
request ids are fresh. Tasks are not cancelled from outside. */
module Relay {
  import opened Registry
  import opened Wrappers
  import opened Handlers
  import RateLimiter
  import Wire
  import Environment

  type Sid = string
  type Req = string

  // ---------------------------------------------------------------------
  // Sessions and the connection table

  /** Where a session's handler stands. */
  datatype Phase =
    | AwaitHello
    | AwaitAuth(hello: string)
    | Authenticated
    | SnapReplaced(prev: Sid)   // installed; about to snapshot the displaced session's waiters
    | WakeReplaced(prev: Sid)   // settling them
    | ClosePrevious(prev: Sid)
    | Holding
    | Received(msg: Wire.Json)
    | Routing(msg: Wire.Json)
    | Delivering
    | Leaving                   // in `finally`
    | SnapGone                  // popped its own entry; about to snapshot
    | WakeGone
    | Over

  /** What has happened so far: the name each session authenticated as, the registered sessions in
  order, who was popped by its own unregister, who was handed back as `previous` to whom, and which
  sockets somebody asked to close. */
  datatype Past = Past(
    authed: map<Sid, string>,
    order: map<Sid, nat>,
    installs: nat,
    displaced: map<Sid, Sid>,
    removed: set<Sid>,
    closeAsked: set<Sid>)

  datatype Desk = Desk(table: Table, phases: map<Sid, Phase>, past: Past)

  // ---------------------------------------------------------------------
  // Calls and the waiter map

  /** What a session is about to do with a future it popped from the waiter map. */
  datatype Verdict = Deliver(msg: Wire.Json) | Fail(reason: Reason)
  datatype Hold = Hold(owner: Sid, verdict: Verdict)

  /** A future, with the session that settled it. */
  datatype Promise = Pending | Answered(msg: Wire.Json, owner: Sid) | Failed(reason: Reason, owner: Sid) | Cancelled

  datatype Kind = Env(action: Environment.Action) | Http

  /** How a call ended; an answer is still to be decoded. */
  datatype Ending = NoOp | NotConnected | SendFailed | TimedOut | Disconnected | Answer(msg: Wire.Json)

  datatype Stage = Looking | Found | Sending | Awaiting | SendBroken | Expired | Finished(ending: Ending)

  /** One call of `_record_audit`; the row is a function of it. */
  datatype Entry = Entry(request: Req, node: string, action: Environment.Action, ending: Ending)

  /** One call. `via` is the session whose connection it got; `settles` counts how often its future was
  settled; `gap` are the sessions of its node that stood between their table step and their snapshot
  when its waiter was registered. */
  datatype Call = Call(node: string, kind: Kind, stage: Stage, via: Sid, future: Promise, settles: nat, gap: set<Sid>)

  datatype Mail = Mail(waiters: map<Key, Req>, hand: map<Req, Hold>, calls: map<Req, Call>, audit: seq<Entry>)

  // ---------------------------------------------------------------------

  datatype State = State(
    desk: Desk,
    mail: Mail,
    stale: set<Sid>,              // the sweep's current snapshot
    now: real,
    checks: seq<RateLimiter.Event>)

  datatype Config = Config(maxCalls: int, window: real)

  const INIT := State(
    Desk(map[], map[], Past(map[], map[], 0, map[], {}, {})),
    Mail(map[], map[], map[], []), {}, 0.0, [])

  datatype Action =
    | Tick(dt: real)
    // the handshake
    | Connect(s: Sid)
    | Hello(s: Sid, name: string, compatible: bool)
    | Auth(s: Sid, name: string, valid: bool)
    | Abort(s: Sid)
    // the registered session
    | Install(s: Sid)
    | Snapshot(s: Sid)
    | Settle(s: Sid, c: Req)
    | Settled(s: Sid)
    | CloseReplaced(s: Sid)
    | Receive(s: Sid, msg: Wire.Json)
    | Check(s: Sid)
    | Route(s: Sid)
    | Drop(s: Sid)
    | Unregister(s: Sid)
    // callers
    | Begin(c: Req, node: string, kind: Kind, blank: bool)
    | Look(c: Req)
    | RegisterWaiter(c: Req)
    | Send(c: Req, ok: bool)
    | Expire(c: Req)
    | UnregisterWaiter(c: Req)
    | Wake(c: Req)
    // the sweep
    | SweepScan(cutoff: real)
    | SweepClose(s: Sid)

  // ---------------------------------------------------------------------
  // Desk steps

  /** A session past its auth; its name is the one it authenticated as. */
  predicate Named(d: Desk, s: Sid) {
    s in d.phases && s in d.past.authed
  }

  function Go(d: Desk, s: Sid, phase: Phase): Desk {
    d.(phases := d.phases[s := phase])
  }

  function AskClose(d: Desk, s: Sid): Desk {
    d.(past := d.past.(closeAsked := d.past.closeAsked + {s}))
  }

  function Authed(d: Desk, s: Sid, name: string): Desk {
    Desk(d.table, d.phases[s := Authenticated], d.past.(authed := d.past.authed[s := name]))
  }

  /** The locked body of `register`. */
  function Installed(d: Desk, s: Sid, now: real): Desk
    requires Named(d, s)
  {
    var name := d.past.authed[s];
    var past := d.past.(order := d.past.order[s := d.past.installs], installs := d.past.installs + 1);
    var table := d.table[name := Connection(name, s, now)];
    if name !in d.table then Desk(table, d.phases[s := Holding], past)
    else
      var previous := d.table[name].sessionId;
      Desk(table, d.phases[s := SnapReplaced(previous)], past.(displaced := past.displaced[previous := s]))
  }

  /** The locked body of `unregister`, guarded by the session id. */
  function Unregistered(d: Desk, s: Sid): Desk
    requires Named(d, s)
  {
    var name := d.past.authed[s];
    if !Removable(d.table, name, Some(s)) then Go(d, s, Over)
    else Desk(d.table - {name}, d.phases[s := SnapGone], d.past.(removed := d.past.removed + {s}))
  }

  function HandshakeStep(d: Desk, s: Sid, a: Action): Desk
    requires s in d.phases
  {
    var phase := d.phases[s];
    if a.Hello? && phase.AwaitHello? then Go(d, s, if a.compatible then AwaitAuth(a.name) else Over)
    else if a.Auth? && phase.AwaitAuth? then
      if a.name == phase.hello && a.valid then Authed(d, s, a.name) else Go(d, s, Over)
    else if a.Abort? && (phase.AwaitHello? || phase.AwaitAuth?) then Go(d, s, Over)
    else d
  }

  /** The steps of a registered session that concern the desk alone. */
  function DeskStep(d: Desk, s: Sid, a: Action, now: real): Desk
    requires Named(d, s)
  {
    var phase := d.phases[s];
    if a.Install? && phase.Authenticated? then Installed(d, s, now)
    else if a.CloseReplaced? && phase.ClosePrevious? then AskClose(Go(d, s, Holding), phase.prev)
    else if a.Receive? && phase.Holding? then
      Go(d, s, Received(a.msg)).(table := Touched(d.table, d.past.authed[s], now))
    else if a.Drop? && phase.Holding? then Go(d, s, Leaving)
    else if a.Unregister? && phase.Leaving? then Unregistered(d, s)
    else d
  }

  // ---------------------------------------------------------------------
  // Mail steps of sessions

  /** The locked body of `fail_node_waiters`: pop every key of the node. */
  function Popped(m: Mail, name: string, s: Sid, reason: Reason): Mail {
    var keys := KeysOf(m.waiters, name);
    m.(waiters := m.waiters - keys, hand := m.hand + map k | k in keys :: k.id := Hold(s, Fail(reason)))
  }

  /** `complete_waiter` pops the key of (authenticated name, id in the message). */
  function PoppedOne(m: Mail, key: Key, s: Sid, msg: Wire.Json): Mail
    requires key in m.waiters
  {
    m.(waiters := m.waiters - {key}, hand := m.hand[m.waiters[key] := Hold(s, Deliver(msg))])
  }

  function Settlement(h: Hold): Promise {
    if h.verdict.Deliver? then Answered(h.verdict.msg, h.owner) else Failed(h.verdict.reason, h.owner)
  }

  /** A done future is passed over; a pending one gets its result or its exception. */
  function SettledCall(call: Call, h: Hold): Call {
    if !call.future.Pending? then call else call.(future := Settlement(h), settles := call.settles + 1)
  }

  function DoSettle(m: Mail, c: Req): Mail
    requires c in m.hand && c in m.calls
  {
    m.(hand := m.hand - {c}, calls := m.calls[c := SettledCall(m.calls[c], m.hand[c])])
  }

  predicate EmptyHanded(m: Mail, s: Sid) {
    forall c :: c in m.hand ==> m.hand[c].owner != s
  }

  function AfterSettling(phase: Phase): Phase {
    if phase.WakeReplaced? then ClosePrevious(phase.prev)
    else if phase.WakeGone? then Over
    else if phase.Delivering? then Holding
    else phase
  }

  // ---------------------------------------------------------------------
  // Mail steps of callers

  function Finish(m: Mail, c: Req, ending: Ending): Mail
    requires c in m.calls
  {
    m.(calls := m.calls[c := m.calls[c].(stage := Finished(ending))], audit := m.audit + Logged(c, m.calls[c], ending))
  }

  /** Only the environment's callers write audit rows. */
  function Logged(c: Req, call: Call, ending: Ending): seq<Entry> {
    if call.kind.Env? then [Entry(c, call.node, call.kind.action, ending)] else []
  }

  function DoLook(m: Mail, c: Req, t: Table): Mail
    requires c in m.calls
  {
    if m.calls[c].node !in t then Finish(m, c, NotConnected)
    else m.(calls := m.calls[c := m.calls[c].(stage := Found, via := t[m.calls[c].node].sessionId)])
  }

  function DoRegisterWaiter(m: Mail, c: Req, gap: set<Sid>): Mail
    requires c in m.calls
  {
    m.(waiters := m.waiters[Key(m.calls[c].node, c) := c],
       calls := m.calls[c := m.calls[c].(stage := Sending, gap := gap)])
  }

  /** `wait_for` gives up: the future is cancelled unless it is done already. */
  function ExpiredCall(call: Call): Call {
    if !call.future.Pending? then call.(stage := Expired)
    else call.(stage := Expired, future := Cancelled, settles := call.settles + 1)
  }

  function DoUnregisterWaiter(m: Mail, c: Req, ending: Ending): Mail
    requires c in m.calls
  {
    Finish(m.(waiters := m.waiters - {Key(m.calls[c].node, c)}), c, ending)
  }

  predicate InSnapshotGap(d: Desk, s: Sid, node: string) {
    Named(d, s) && d.past.authed[s] == node && (d.phases[s].SnapReplaced? || d.phases[s].SnapGone?)
  }

  function Gap(d: Desk, node: string): set<Sid> {
    set s | s in d.phases && InSnapshotGap(d, s, node)
  }

  function CallStep(m: Mail, c: Req, a: Action, d: Desk): Mail
    requires c in m.calls
  {
    var call := m.calls[c];
    if a.Look? && call.stage.Looking? then DoLook(m, c, d.table)
    else if a.RegisterWaiter? && call.stage.Found? then DoRegisterWaiter(m, c, Gap(d, call.node))
    else if a.Send? && call.stage.Sending? then
      m.(calls := m.calls[c := call.(stage := if a.ok then Awaiting else SendBroken)])
    else if a.Expire? && call.stage.Awaiting? then m.(calls := m.calls[c := ExpiredCall(call)])
    else if a.UnregisterWaiter? && call.stage.SendBroken? then DoUnregisterWaiter(m, c, SendFailed)
    else if a.UnregisterWaiter? && call.stage.Expired? then DoUnregisterWaiter(m, c, Ending.TimedOut)
    else if a.Wake? && call.stage.Awaiting? && call.future.Answered? then Finish(m, c, Answer(call.future.msg))
    else if a.Wake? && call.stage.Awaiting? && call.future.Failed? then Finish(m, c, Disconnected)
    else m
  }

  /** A fresh call; an empty command is answered at once, without a request. */
  function DoBegin(m: Mail, c: Req, node: string, kind: Kind, blank: bool): Mail {
    if c == "" || c in m.calls then m
    else
      var noop := blank && kind == Env(Environment.Exec);
      m.(calls := m.calls[c := Call(node, kind, if noop then Finished(NoOp) else Looking, "", Promise.Pending, 0, {})])
  }

  // ---------------------------------------------------------------------
  // Steps of a session that touch both sides, and the limiter

  /** The rate-limit check; a frame that is no object makes the handler raise before it. */
  function DoCheck(st: State, s: Sid, msg: Wire.Json, cfg: Config): State
    requires Named(st.desk, s)
  {
    var name := st.desk.past.authed[s];
    if !msg.Obj? then st.(desk := Go(st.desk, s, Leaving))
    else if cfg.maxCalls <= 0 then st.(desk := Go(st.desk, s, Routing(msg)))
    else
      var ok := RateLimiter.Admits(st.checks, name, st.now, cfg.maxCalls, cfg.window);
      st.(desk := Go(st.desk, s, if ok then Routing(msg) else Leaving),
          checks := st.checks + [RateLimiter.Event(name, st.now, ok)])
  }

  function DoRoute(st: State, s: Sid, msg: Wire.Json): State
    requires Named(st.desk, s)
  {
    var key := AnsweredKey(st.desk.past.authed[s], msg);
    if key.None? || key.value !in st.mail.waiters then st.(desk := Go(st.desk, s, Holding))
    else st.(desk := Go(st.desk, s, Delivering), mail := PoppedOne(st.mail, key.value, s, msg))
  }

  function DoSnapshot(st: State, s: Sid, reason: Reason, phase: Phase): State
    requires Named(st.desk, s)
  {
    st.(desk := Go(st.desk, s, phase), mail := Popped(st.mail, st.desk.past.authed[s], s, reason))
  }

  function SessionStep(st: State, s: Sid, a: Action, cfg: Config): State
    requires Named(st.desk, s)
  {
    var phase := st.desk.phases[s];
    if a.Snapshot? && phase.SnapReplaced? then DoSnapshot(st, s, ConnectionReplaced, WakeReplaced(phase.prev))
    else if a.Snapshot? && phase.SnapGone? then DoSnapshot(st, s, NodeDisconnected, WakeGone)
    else if a.Settle? && a.c in st.mail.hand && st.mail.hand[a.c].owner == s && a.c in st.mail.calls then
      st.(mail := DoSettle(st.mail, a.c))
    else if a.Settled? && EmptyHanded(st.mail, s) then st.(desk := Go(st.desk, s, AfterSettling(phase)))
    else if a.Check? && phase.Received? then DoCheck(st, s, phase.msg, cfg)
    else if a.Route? && phase.Routing? then DoRoute(st, s, phase.msg)
    else st.(desk := DeskStep(st.desk, s, a, st.now))
  }

  // ---------------------------------------------------------------------

  predicate IsHandshakeAction(a: Action) {
    a.Hello? || a.Auth? || a.Abort?
  }

  predicate IsSessionAction(a: Action) {
    a.Install? || a.Snapshot? || a.Settle? || a.Settled? || a.CloseReplaced?
    || a.Receive? || a.Check? || a.Route? || a.Drop? || a.Unregister?
  }

  predicate IsCallAction(a: Action) {
    a.Look? || a.RegisterWaiter? || a.Send? || a.Expire? || a.UnregisterWaiter? || a.Wake?
  }

  /** The clock, new arrivals and the sweep. */
  function OtherStep(st: State, a: Action): State {
    if a.Tick? && a.dt > 0.0 then st.(now := st.now + a.dt)
    else if a.Connect? && a.s !in st.desk.phases then st.(desk := Go(st.desk, a.s, AwaitHello))
    else if a.Begin? then st.(mail := DoBegin(st.mail, a.c, a.node, a.kind, a.blank))
    else if a.SweepScan? then
      st.(stale := set n | n in StaleOf(st.desk.table, a.cutoff) :: st.desk.table[n].sessionId)
    else if a.SweepClose? && a.s in st.stale then
      st.(stale := st.stale - {a.s}, desk := AskClose(st.desk, a.s))
    else st
  }

  function Step(st: State, a: Action, cfg: Config): State {
    if IsHandshakeAction(a) then
      if a.s in st.desk.phases then st.(desk := HandshakeStep(st.desk, a.s, a)) else st
    else if IsSessionAction(a) then
      if Named(st.desk, a.s) then SessionStep(st, a.s, a, cfg) else st
    else if IsCallAction(a) then
      if a.c in st.mail.calls then st.(mail := CallStep(st.mail, a.c, a, st.desk)) else st
    else OtherStep(st, a)
  }

  function Run(actions: seq<Action>, cfg: Config): State {
    if actions == [] then INIT else Step(Run(actions[..|actions| - 1], cfg), actions[|actions| - 1], cfg)
  }
}
