/** One node connection from accept to close, as its handler sees it (wsserver/server.py): hello, auth,
registration, and the loop that holds the connection open.

What the socket delivers, what the token store and the limiter answer and whom the registry hands back
are inputs; the trace is what the handler does, in order. A frame counts as sent when it is attempted:
a client that has gone away is ignored. */
module Handshake {
  import opened Wire
  import opened Wrappers

  const AUTH_FAILED := 4001
  const PROTOCOL_VERSION := 4002
  const OUT_OF_ORDER := 4003
  const RATE_LIMIT_EXCEEDED := 4004
  const HANDSHAKE_TIMEOUT := 4004
  const NORMAL_CLOSURE := 1000
  const PROTOCOL_MAJOR := 0

  /** What waiting for a frame comes to; `Broken` is any failure but a timeout. */
  datatype Inbound = TimedOut | Broken | Message(raw: Json)

  datatype Hello = Hello(version: string, name: string)
  datatype Auth = Auth(name: string, token: string)
  datatype StoreAnswer = Valid | Invalid | StoreError

  /** The message models with their field caps, the parser of the major version, and the token store. */
  datatype Rules = Rules(
    hello: Json -> Option<Hello>,
    auth: Json -> Option<Auth>,
    major: string -> Option<int>,
    validate: (string, string) -> StoreAnswer)

  datatype Reply = HelloErr(code: int) | HelloAck | AuthErr(code: int) | AuthOk | Pong | RateLimit(code: int)

  datatype Effect =
    | Send(reply: Reply)
    | Close(code: int)
    | Register(name: string)
    | ClosePrevious(session: string, code: int)
    | Touch(name: string)
    | Route(name: string, msg: Json)
    | Unregister(name: string)

  // ---------------------------------------------------------------------
  // Reading a trace

  /** The frames sent, the codes the handler closes its own socket with, whom it registers, closes and
  unregisters, and its heartbeats and routed messages. */
  datatype Seen = Seen(frames: seq<Reply>, closes: seq<int>, entries: seq<Effect>, traffic: seq<Effect>)

  function Plus(a: Seen, b: Seen): Seen {
    Seen(a.frames + b.frames, a.closes + b.closes, a.entries + b.entries, a.traffic + b.traffic)
  }

  function SeenIn(e: Effect): Seen {
    if e.Send? then Seen([e.reply], [], [], [])
    else if e.Close? then Seen([], [e.code], [], [])
    else if e.Route? || e.Touch? then Seen([], [], [], [e])
    else Seen([], [], [e], [])
  }

  function See(trace: seq<Effect>): Seen {
    if trace == [] then Seen([], [], [], []) else Plus(See(trace[..|trace| - 1]), SeenIn(trace[|trace| - 1]))
  }

  lemma Snoc(trace: seq<Effect>, e: Effect)
    ensures See(trace + [e]) == Plus(See(trace), SeenIn(e))
  {
    assert (trace + [e])[..|trace|] == trace;
  }

  lemma SnocAnnounced(trace: seq<Effect>, e: Effect)
    requires Announced(trace) && !IsError(e)
    ensures Announced(trace + [e])
  {
    AppendAnnounced(trace, [e]);
  }

  function ErrorCode(reply: Reply): Option<int> {
    match reply
    case HelloErr(code) => Some(code)
    case AuthErr(code) => Some(code)
    case RateLimit(code) => Some(code)
    case _ => None
  }

  predicate IsError(e: Effect) {
    e.Send? && ErrorCode(e.reply).Some?
  }

  /** An error frame is followed at once by a close with the code it names. */
  predicate AnnouncedAt(trace: seq<Effect>, i: nat)
    requires i < |trace|
  {
    IsError(trace[i]) ==> i + 1 < |trace| && trace[i + 1] == Close(ErrorCode(trace[i].reply).value)
  }

  predicate Announced(trace: seq<Effect>) {
    forall i :: 0 <= i < |trace| ==> AnnouncedAt(trace, i)
  }

  /** A trace may be read part by part. */
  lemma {:induction false} Append(a: seq<Effect>, b: seq<Effect>)
    ensures See(a + b) == Plus(See(a), See(b))
  {
    if b == [] {
      assert a + b == a && Plus(See(a), See(b)) == See(a);
    } else {
      var n := |b| - 1;
      Append(a, b[..n]);
      assert a + b == (a + b[..n]) + [b[n]];
      Snoc(a + b[..n], b[n]);
      PlusAssociates(See(a), See(b[..n]), SeenIn(b[n]));
    }
  }

  lemma PlusAssociates(a: Seen, b: Seen, c: Seen)
    ensures Plus(Plus(a, b), c) == Plus(a, Plus(b, c))
  {}

  lemma AppendAnnounced(a: seq<Effect>, b: seq<Effect>)
    requires Announced(a) && Announced(b)
    ensures Announced(a + b)
  {
    forall i | 0 <= i < |a + b| ensures AnnouncedAt(a + b, i) {
      if i < |a| {
        assert AnnouncedAt(a, i);
      } else {
        assert AnnouncedAt(b, i - |a|);
      }
    }
  }

  predicate Conversation(frames: seq<Reply>) {
    || frames == []
    || (|frames| == 1 && (frames[0].HelloErr? || frames[0].HelloAck?))
    || (|frames| == 2 && frames[0].HelloAck? && frames[1].AuthErr?)
    || (|frames| >= 2 && frames[0].HelloAck? && frames[1].AuthOk?
        && forall i :: 2 <= i < |frames| ==> frames[i].Pong? || (i == |frames| - 1 && frames[i].RateLimit?))
  }

  // ---------------------------------------------------------------------
  // What the node presented

  predicate SaysHello(first: Inbound, rules: Rules) {
    first.Message? && rules.hello(first.raw).Some?
  }

  function HelloOf(first: Inbound, rules: Rules): Hello
    requires SaysHello(first, rules)
  {
    rules.hello(first.raw).value
  }

  predicate Compatible(first: Inbound, rules: Rules) {
    SaysHello(first, rules) && rules.major(HelloOf(first, rules).version) == Some(0)
  }

  predicate SaysAuth(second: Inbound, rules: Rules) {
    second.Message? && rules.auth(second.raw).Some?
  }

  function AuthOf(second: Inbound, rules: Rules): Auth
    requires SaysAuth(second, rules)
  {
    rules.auth(second.raw).value
  }

  /** A compatible hello, then an auth under the same name whose token the store validates. */
  predicate Admitted(first: Inbound, second: Inbound, rules: Rules) {
    && Compatible(first, rules) && SaysAuth(second, rules)
    && AuthOf(second, rules).name == HelloOf(first, rules).name
    && rules.validate(AuthOf(second, rules).name, AuthOf(second, rules).token) == Valid
  }

  predicate IsPing(msg: Json) {
    msg.Obj? && Get(msg, "type") == Str("ping")
  }

  /** Pings among the first `n` messages. */
  function Pings(msgs: seq<Json>, n: nat): nat
    requires n <= |msgs|
  {
    if n == 0 then 0 else Pings(msgs, n - 1) + if IsPing(msgs[n - 1]) then 1 else 0
  }

  function Pongs(n: nat): seq<Reply> {
    seq(n, _ => Pong)
  }

  /** `n` messages were routed: the next one, if any, is no object or went over the limit. */
  predicate RoutedExactly(n: nat, inbox: seq<Json>, admits: seq<bool>)
    requires |admits| == |inbox|
  {
    && n <= |inbox|
    && (forall i :: 0 <= i < n ==> inbox[i].Obj? && admits[i])
    && (n < |inbox| ==> !inbox[n].Obj? || !admits[n])
  }

  /** The connection ended at the limit. */
  predicate Limited(n: nat, inbox: seq<Json>) {
    n < |inbox| && inbox[n].Obj?
  }

  /** Pongs for every ping handled, and the limit's error frame. */
  function HeldFrames(n: nat, inbox: seq<Json>): seq<Reply>
    requires n <= |inbox|
  {
    if Limited(n, inbox) then Pongs(Pings(inbox, n + 1)) + [RateLimit(RATE_LIMIT_EXCEEDED)] else Pongs(Pings(inbox, n))
  }

  /** A heartbeat and a routing for each of the first `n` messages. */
  function Traffic(name: string, n: nat, inbox: seq<Json>): seq<Effect>
    requires n <= |inbox|
  {
    if n == 0 then [] else Traffic(name, n - 1, inbox) + [Touch(name), Route(name, inbox[n - 1])]
  }

  /** The message that ends the connection is a last heartbeat. */
  function HeldTraffic(name: string, n: nat, inbox: seq<Json>): seq<Effect>
    requires n <= |inbox|
  {
    Traffic(name, n, inbox) + if n < |inbox| then [Touch(name)] else []
  }

  lemma HeldConversation(n: nat, inbox: seq<Json>)
    requires n <= |inbox|
    ensures
      var frames := [HelloAck, AuthOk] + HeldFrames(n, inbox);
      Conversation(frames) && HelloAck in frames && AuthOk in frames
  {
    var frames := [HelloAck, AuthOk] + HeldFrames(n, inbox);
    assert frames[0] == HelloAck && frames[1] == AuthOk;
  }

  function Closed(previous: Option<string>): seq<Effect> {
    if previous.Some? then [ClosePrevious(previous.value, 1000)] else []
  }

  /** The code of the close that ends a connection short of registration tells which phase failed. */
  function RefusalCode(first: Inbound, second: Inbound, rules: Rules): int {
    if first.TimedOut? || (Compatible(first, rules) && second.TimedOut?) then HANDSHAKE_TIMEOUT
    else if SaysHello(first, rules) && !Compatible(first, rules) then PROTOCOL_VERSION
    else if Compatible(first, rules) && SaysAuth(second, rules) then AUTH_FAILED
    else OUT_OF_ORDER
  }

  /** What the design promises of one connection. */
  predicate Sound(seen: Seen, routed: nat, first: Inbound, second: Inbound, previous: Option<string>,
                  inbox: seq<Json>, admits: seq<bool>, rules: Rules)
    requires |admits| == |inbox|
  {
    // the frames form a conversation, and the node is told of the two milestones when it reached them
    && Conversation(seen.frames)
    && (HelloAck in seen.frames <==> Compatible(first, rules))
    && (AuthOk in seen.frames <==> Admitted(first, second, rules))
    // an error frame says what went wrong; a frame that breaks off or has the wrong fields is closed silently
    && (HelloErr(4004) in seen.frames <==> first.TimedOut?)
    && (HelloErr(4002) in seen.frames <==> SaysHello(first, rules) && !Compatible(first, rules))
    && (HelloErr(4003) in seen.frames <==>
          first.Message? && !SaysHello(first, rules) && !(first.raw.Obj? && Get(first.raw, "type") == Str("hello")))
    && (AuthErr(4004) in seen.frames <==> Compatible(first, rules) && second.TimedOut?)
    && (AuthErr(4001) in seen.frames <==>
          Compatible(first, rules) && SaysAuth(second, rules) && !Admitted(first, second, rules))
    && if !Admitted(first, second, rules) then
      // a refused node is closed once and never registered
      seen.closes == [RefusalCode(first, second, rules)] && seen.entries == [] && seen.traffic == [] && routed == 0
    else
      // an admitted one is registered, whom it displaced is closed, and it is unregistered in the end;
      // each frame of its counts as a heartbeat and is routed under its name, in order and up to the
      // first over the limit, and its pings are answered
      var name := HelloOf(first, rules).name;
      && RoutedExactly(routed, inbox, admits)
      && seen.entries == [Register(name)] + Closed(previous) + [Unregister(name)]
      && seen.traffic == HeldTraffic(name, routed, inbox)
      && seen.frames == [HelloAck, AuthOk] + HeldFrames(routed, inbox)
      && seen.closes == if Limited(routed, inbox) then [4004] else []
  }

  // ---------------------------------------------------------------------
  // The handler

  /** The end of a connection that got no further than its hello. */
  function Ungreeted(first: Inbound, rules: Rules): Seen {
    if first.TimedOut? then Seen([HelloErr(HANDSHAKE_TIMEOUT)], [HANDSHAKE_TIMEOUT], [], [])
    else if SaysHello(first, rules) then Seen([HelloErr(PROTOCOL_VERSION)], [PROTOCOL_VERSION], [], [])
    else if first.Broken? || (first.raw.Obj? && Get(first.raw, "type") == Str("hello"))
    then Seen([], [OUT_OF_ORDER], [], [])
    else Seen([HelloErr(OUT_OF_ORDER)], [OUT_OF_ORDER], [], [])
  }

  method SayHello(first: Inbound, rules: Rules) returns (trace: seq<Effect>, hello: Option<Hello>)
    ensures hello == if Compatible(first, rules) then Some(HelloOf(first, rules)) else None
    ensures Announced(trace)
    ensures See(trace) == if hello.Some? then Seen([HelloAck], [], [], []) else Ungreeted(first, rules)
    ensures hello.Some? ==> trace == [Send(HelloAck)]
  {
    trace, hello := [], None;
    if first.TimedOut? {
      trace := Refuse([], HelloErr(HANDSHAKE_TIMEOUT), HANDSHAKE_TIMEOUT);
    } else if first.Broken? {
      trace := [Close(OUT_OF_ORDER)];
    } else {
      match rules.hello(first.raw) {
        case None =>
          if first.raw.Obj? && Get(first.raw, "type") == Str("hello") {
            trace := [Close(OUT_OF_ORDER)];
          } else {
            trace := Refuse([], HelloErr(OUT_OF_ORDER), OUT_OF_ORDER);
          }
        case Some(parsed) =>
          if rules.major(parsed.version) != Some(PROTOCOL_MAJOR) {
            trace := Refuse([], HelloErr(PROTOCOL_VERSION), PROTOCOL_VERSION);
          } else {
            trace, hello := [Send(HelloAck)], Some(parsed);
          }
      }
    }
  }

  /** An error frame and the close it announces. */
  method Refuse(before: seq<Effect>, reply: Reply, code: int) returns (trace: seq<Effect>)
    requires Announced(before) && ErrorCode(reply) == Some(code)
    ensures trace == before + [Send(reply), Close(code)] && Announced(trace)
    ensures See(trace) == Plus(See(before), Seen([reply], [code], [], []))
  {
    Snoc(before, Send(reply));
    Snoc(before + [Send(reply)], Close(code));
    trace := before + [Send(reply)] + [Close(code)];
    PlusAssociates(See(before), SeenIn(Send(reply)), SeenIn(Close(code)));
    assert trace == before + [Send(reply), Close(code)];
    AppendAnnounced(before, [Send(reply), Close(code)]);
  }

  /** The end of a connection that got no further than its auth. */
  function Refused(second: Inbound, rules: Rules): Seen {
    if second.TimedOut? then Seen([AuthErr(HANDSHAKE_TIMEOUT)], [HANDSHAKE_TIMEOUT], [], [])
    else if SaysAuth(second, rules) then Seen([AuthErr(AUTH_FAILED)], [AUTH_FAILED], [], [])
    else Seen([], [OUT_OF_ORDER], [], [])
  }

  method Authenticate(hello: Hello, second: Inbound, rules: Rules) returns (trace: seq<Effect>, ok: bool)
    ensures ok <==>
      && SaysAuth(second, rules) && AuthOf(second, rules).name == hello.name
      && rules.validate(AuthOf(second, rules).name, AuthOf(second, rules).token) == Valid
    ensures Announced(trace)
    ensures ok ==> trace == []
    ensures !ok ==> See(trace) == Refused(second, rules)
  {
    trace, ok := [], false;
    if second.TimedOut? {
      trace := Refuse([], AuthErr(HANDSHAKE_TIMEOUT), HANDSHAKE_TIMEOUT);
    } else if second.Broken? || rules.auth(second.raw).None? {
      trace := [Close(OUT_OF_ORDER)];
    } else {
      var auth := rules.auth(second.raw).value;
      if auth.name != hello.name {
        trace := Refuse([], AuthErr(AUTH_FAILED), AUTH_FAILED);
      } else {
        match rules.validate(auth.name, auth.token) {
          case Valid => ok := true;
          case Invalid => trace := Refuse([], AuthErr(AUTH_FAILED), AUTH_FAILED);
          case StoreError => trace := Refuse([], AuthErr(AUTH_FAILED), AUTH_FAILED);
        }
      }
    }
  }

  /** What hearing a message adds. */
  function Heard(name: string, msg: Json): Seen {
    Seen(if IsPing(msg) then [Pong] else [], [], [], [Touch(name)])
  }

  /** Every frame counts as a heartbeat, and a ping is answered. */
  method Hear(name: string, msg: Json, before: seq<Effect>) returns (trace: seq<Effect>)
    requires Announced(before)
    ensures Announced(trace) && See(trace) == Plus(See(before), Heard(name, msg))
  {
    Snoc(before, Touch(name));
    SnocAnnounced(before, Touch(name));
    trace := before + [Touch(name)];
    if msg.Obj? && Get(msg, "type") == Str("ping") {
      Snoc(trace, Send(Pong));
      SnocAnnounced(trace, Send(Pong));
      trace := trace + [Send(Pong)];
    }
  }

  /** How the loop goes on after a message. */
  datatype Next = Again | NoObject | OverLimit

  /** What the limiter's answer adds. */
  function Judged(name: string, msg: Json, next: Next): Seen {
    match next
    case Again => Seen([], [], [], [Route(name, msg)])
    case NoObject => Seen([], [], [], [])
    case OverLimit => Seen([RateLimit(RATE_LIMIT_EXCEEDED)], [RATE_LIMIT_EXCEEDED], [], [])
  }

  /** A message within the limit is routed, the first over it ends the connection. */
  method Judge(name: string, msg: Json, admitted: bool, before: seq<Effect>) returns (trace: seq<Effect>, next: Next)
    requires Announced(before)
    ensures next == if !msg.Obj? then NoObject else if admitted then Again else OverLimit
    ensures Announced(trace) && See(trace) == Plus(See(before), Judged(name, msg, next))
  {
    if !msg.Obj? {
      PlusNothing(See(before));
      return before, NoObject;
    }
    if !admitted {
      trace := Refuse(before, RateLimit(RATE_LIMIT_EXCEEDED), RATE_LIMIT_EXCEEDED);
      return trace, OverLimit;
    }
    Snoc(before, Route(name, msg));
    SnocAnnounced(before, Route(name, msg));
    return before + [Route(name, msg)], Again;
  }

  lemma PlusNothing(a: Seen)
    ensures Plus(a, Seen([], [], [], [])) == a
  {}

  /** What the first `n` messages come to. */
  function HeardSoFar(name: string, n: nat, inbox: seq<Json>): Seen
    requires n <= |inbox|
  {
    Seen(Pongs(Pings(inbox, n)), [], [], Traffic(name, n, inbox))
  }

  /** What the loop comes to when `n` messages were routed. */
  function HeardInAll(name: string, n: nat, inbox: seq<Json>): Seen
    requires n <= |inbox|
  {
    Seen(HeldFrames(n, inbox), if Limited(n, inbox) then [RATE_LIMIT_EXCEEDED] else [], [],
         HeldTraffic(name, n, inbox))
  }

  lemma HearingGoesOn(name: string, n: nat, inbox: seq<Json>, next: Next)
    requires n < |inbox| && (next.NoObject? <==> !inbox[n].Obj?)
    ensures Plus(Plus(HeardSoFar(name, n, inbox), Heard(name, inbox[n])), Judged(name, inbox[n], next))
      == if next.Again? then HeardSoFar(name, n + 1, inbox) else HeardInAll(name, n, inbox)
  {
    assert Pongs(Pings(inbox, n)) + (if IsPing(inbox[n]) then [Pong] else []) == Pongs(Pings(inbox, n + 1));
    var traffic, touch, route := Traffic(name, n, inbox), Touch(name), Route(name, inbox[n]);
    assert traffic + [touch] + [route] == traffic + [touch, route];
    assert traffic + [touch] + [] == traffic + [touch];
  }

  lemma HearingEnds(name: string, inbox: seq<Json>)
    ensures HeardSoFar(name, |inbox|, inbox) == HeardInAll(name, |inbox|, inbox)
    ensures HeardSoFar(name, 0, inbox) == Seen([], [], [], [])
  {
    var traffic := Traffic(name, |inbox|, inbox);
    assert Pongs(0) == [] && traffic + [] == traffic;
  }

  /** A ping is answered before the limiter is asked. */
  method HoldOne(name: string, inbox: seq<Json>, n: nat, admitted: bool, before: seq<Effect>)
    returns (trace: seq<Effect>, next: Next)
    requires n < |inbox| && Announced(before) && See(before) == HeardSoFar(name, n, inbox)
    ensures next == if !inbox[n].Obj? then NoObject else if admitted then Again else OverLimit
    ensures Announced(trace)
    ensures See(trace) == if next.Again? then HeardSoFar(name, n + 1, inbox) else HeardInAll(name, n, inbox)
  {
    trace := Hear(name, inbox[n], before);
    trace, next := Judge(name, inbox[n], admitted, trace);
    HearingGoesOn(name, n, inbox, next);
  }

  predicate AllRouted(n: nat, inbox: seq<Json>, admits: seq<bool>)
    requires |admits| == |inbox|
  {
    n <= |inbox| && forall i :: 0 <= i < n ==> inbox[i].Obj? && admits[i]
  }

  /** The connection ends with the inbox, with a frame that is no object, or at the limit. */
  method Hold(name: string, inbox: seq<Json>, admits: seq<bool>) returns (trace: seq<Effect>, routed: nat)
    requires |admits| == |inbox|
    ensures RoutedExactly(routed, inbox, admits)
    ensures Announced(trace) && See(trace) == HeardInAll(name, routed, inbox)
  {
    trace, routed := [], 0;
    HearingEnds(name, inbox);
    while routed < |inbox|
      invariant AllRouted(routed, inbox, admits) && Announced(trace)
      invariant See(trace) == HeardSoFar(name, routed, inbox)
    {
      var next;
      trace, next := HoldOne(name, inbox, routed, admits[routed], trace);
      if !next.Again? {
        return;
      }
      routed := routed + 1;
    }
  }

  /** The handler's `finally`. */
  method Leave(name: string, before: seq<Effect>) returns (trace: seq<Effect>)
    requires Announced(before)
    ensures trace == before + [Unregister(name)] && Announced(trace)
    ensures See(trace) == See(before).(entries := See(before).entries + [Unregister(name)])
  {
    Snoc(before, Unregister(name));
    SnocAnnounced(before, Unregister(name));
    trace := before + [Unregister(name)];
  }

  /** The node is answered last. */
  function Entry(name: string, previous: Option<string>): seq<Effect> {
    [Register(name)] + Closed(previous) + [Send(AuthOk)]
  }

  /** Registration, the close of whom it displaced, and the answer to the node. */
  method Enter(name: string, previous: Option<string>) returns (trace: seq<Effect>)
    ensures Announced(trace) && See(trace) == Seen([AuthOk], [], [Register(name)] + Closed(previous), [])
    ensures trace == Entry(name, previous)
  {
    trace := [Register(name)];
    if previous.Some? {
      Snoc(trace, ClosePrevious(previous.value, NORMAL_CLOSURE));
      trace := trace + [ClosePrevious(previous.value, NORMAL_CLOSURE)];
    }
    Snoc(trace, Send(AuthOk));
    trace := trace + [Send(AuthOk)];
  }

  function Served(name: string, previous: Option<string>, routed: nat, inbox: seq<Json>): Seen
    requires routed <= |inbox|
  {
    var heard := HeardInAll(name, routed, inbox);
    Seen([AuthOk] + heard.frames, heard.closes, [Register(name)] + Closed(previous) + [Unregister(name)], heard.traffic)
  }

  lemma EnteredThenHeld(name: string, previous: Option<string>, routed: nat, inbox: seq<Json>)
    requires routed <= |inbox|
    ensures
      var entered := Seen([AuthOk], [], [Register(name)] + Closed(previous), []);
      var seen := Plus(entered, HeardInAll(name, routed, inbox));
      seen.(entries := seen.entries + [Unregister(name)]) == Served(name, previous, routed, inbox)
  {
    var heard := HeardInAll(name, routed, inbox);
    assert [] + heard.closes == heard.closes && [] + heard.traffic == heard.traffic;
    var entries := [Register(name)] + Closed(previous);
    assert entries + [] == entries;
  }

  /** The handler once the node is authenticated. */
  method Serve(name: string, previous: Option<string>, inbox: seq<Json>, admits: seq<bool>)
    returns (trace: seq<Effect>, routed: nat)
    requires |admits| == |inbox|
    ensures RoutedExactly(routed, inbox, admits)
    ensures Announced(trace) && Entry(name, previous) <= trace && trace[|trace| - 1] == Unregister(name)
    ensures See(trace) == Served(name, previous, routed, inbox)
  {
    var entered := Enter(name, previous);
    var held;
    held, routed := Hold(name, inbox, admits);
    Append(entered, held);
    AppendAnnounced(entered, held);
    EnteredThenHeld(name, previous, routed, inbox);
    trace := Leave(name, entered + held);
  }

  /** Registration follows the hello_ack and precedes the auth_ok; unregistering comes last. */
  predicate Framed(trace: seq<Effect>, name: string, previous: Option<string>) {
    [Send(HelloAck)] + Entry(name, previous) <= trace && trace[|trace| - 1] == Unregister(name)
  }

  lemma FramedAfter(name: string, previous: Option<string>, more: seq<Effect>)
    requires Entry(name, previous) <= more && more[|more| - 1] == Unregister(name)
    ensures Framed([Send(HelloAck)] + more, name, previous)
  {
    var trace := [Send(HelloAck)] + more;
    assert trace[|trace| - 1] == more[|more| - 1];
    assert trace[..1 + |Entry(name, previous)|] == [Send(HelloAck)] + more[..|Entry(name, previous)|];
  }

  /** The whole handler. An error frame is followed at once by the close it announces. */
  method WsNodes(first: Inbound, second: Inbound, previous: Option<string>, inbox: seq<Json>, admits: seq<bool>,
                 rules: Rules)
    returns (trace: seq<Effect>, routed: nat)
    requires |admits| == |inbox|
    ensures Sound(See(trace), routed, first, second, previous, inbox, admits, rules)
    ensures Announced(trace)
    ensures Admitted(first, second, rules) ==> Framed(trace, HelloOf(first, rules).name, previous)
  {
    var hello: Option<Hello>;
    routed := 0;
    trace, hello := SayHello(first, rules);
    if hello.None? {
      UngreetedIsSound(See(trace), first, second, previous, inbox, admits, rules);
      return;
    }
    var more: seq<Effect>;
    var ok: bool;
    more, ok := Authenticate(hello.value, second, rules);
    if ok {
      more, routed := Serve(hello.value.name, previous, inbox, admits);
      FramedAfter(hello.value.name, previous, more);
      ServedIsSound(See(more), routed, first, second, previous, inbox, admits, rules);
    } else {
      RefusedIsSound(See(more), first, second, previous, inbox, admits, rules);
    }
    Append(trace, more);
    AppendAnnounced(trace, more);
    trace := trace + more;
  }

  lemma UngreetedIsSound(seen: Seen, first: Inbound, second: Inbound, previous: Option<string>,
                         inbox: seq<Json>, admits: seq<bool>, rules: Rules)
    requires |admits| == |inbox| && !Compatible(first, rules) && seen == Ungreeted(first, rules)
    ensures Sound(seen, 0, first, second, previous, inbox, admits, rules)
  {}

  lemma RefusedIsSound(seen: Seen, first: Inbound, second: Inbound, previous: Option<string>,
                       inbox: seq<Json>, admits: seq<bool>, rules: Rules)
    requires |admits| == |inbox| && Compatible(first, rules) && !Admitted(first, second, rules)
    requires seen == Refused(second, rules)
    ensures Sound(Plus(Seen([HelloAck], [], [], []), seen), 0, first, second, previous, inbox, admits, rules)
  {
    var frames := [HelloAck] + seen.frames;
    assert frames[0] == HelloAck && (|frames| == 2 ==> frames == [HelloAck, seen.frames[0]]);
  }

  lemma ServedIsSound(seen: Seen, routed: nat, first: Inbound, second: Inbound, previous: Option<string>,
                      inbox: seq<Json>, admits: seq<bool>, rules: Rules)
    requires |admits| == |inbox| && RoutedExactly(routed, inbox, admits) && Admitted(first, second, rules)
    requires seen == Served(HelloOf(first, rules).name, previous, routed, inbox)
    ensures Sound(Plus(Seen([HelloAck], [], [], []), seen), routed, first, second, previous, inbox, admits, rules)
  {
    HeldConversation(routed, inbox);
    assert [HelloAck] + seen.frames == [HelloAck, AuthOk] + HeldFrames(routed, inbox);
  }
}
