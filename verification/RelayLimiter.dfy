/** The rate limit over every run of the relay: sessions of one node share one window, so reconnecting
or overlapping sessions route no more than the cap. */
module RelayLimiter {
  import opened Relay
  import RelayReplies
  import RelayRuns
  import RateLimiter

  ghost predicate ChecksOk(checks: seq<RateLimiter.Event>, now: real, cfg: Config) {
    && RateLimiter.Monotone(checks)
    && (forall i :: 0 <= i < |checks| ==> checks[i].at <= now)
    && RateLimiter.Faithful(checks, cfg.maxCalls, cfg.window)
  }

  /** What a session step does to the limiter: nothing, or one more check at the present time. */
  predicate OneCheck(checks: seq<RateLimiter.Event>, checks': seq<RateLimiter.Event>, name: string, now: real,
                     cfg: Config)
  {
    || checks' == checks
    || (cfg.maxCalls > 0 && checks' == checks
          + [RateLimiter.Event(name, now, RateLimiter.Admits(checks, name, now, cfg.maxCalls, cfg.window))])
  }

  lemma SessionChecksOnce(st: State, s: Sid, a: Action, cfg: Config)
    requires Named(st.desk, s)
    ensures OneCheck(st.checks, SessionStep(st, s, a, cfg).checks, st.desk.past.authed[s], st.now, cfg)
    ensures SessionStep(st, s, a, cfg).now == st.now
  {}

  lemma CheckKeepsChecks(checks: seq<RateLimiter.Event>, checks': seq<RateLimiter.Event>, name: string, now: real,
                         cfg: Config)
    requires ChecksOk(checks, now, cfg) && OneCheck(checks, checks', name, now, cfg)
    ensures ChecksOk(checks', now, cfg)
  {
    if checks' != checks {
      RateLimiter.FaithfulExtend(checks, checks'[|checks|], cfg.maxCalls, cfg.window);
    }
  }

  lemma StepKeepsChecks(st: State, a: Action, cfg: Config)
    requires ChecksOk(st.checks, st.now, cfg)
    ensures ChecksOk(Step(st, a, cfg).checks, Step(st, a, cfg).now, cfg)
  {
    if IsSessionAction(a) && Named(st.desk, a.s) {
      SessionChecksOnce(st, a.s, a, cfg);
      CheckKeepsChecks(st.checks, SessionStep(st, a.s, a, cfg).checks, st.desk.past.authed[a.s], st.now, cfg);
    }
  }

  lemma {:induction false} RunKeepsChecks(actions: seq<Action>, cfg: Config)
    ensures ChecksOk(Run(actions, cfg).checks, Run(actions, cfg).now, cfg)
  {
    if actions != [] {
      RunKeepsChecks(actions[..|actions| - 1], cfg);
      StepKeepsChecks(Run(actions[..|actions| - 1], cfg), actions[|actions| - 1], cfg);
    }
  }

  // ---------------------------------------------------------------------
  // Main results

  /** A session comes to route a frame only by a check the limiter accepted just then under the name it
  authenticated as, so frames routed and accepted checks are the same thing. */
  lemma RoutingIsAccepted(st: State, a: Action, cfg: Config, s: Sid)
    requires cfg.maxCalls > 0 && s in st.desk.phases && !st.desk.phases[s].Routing?
    ensures
      var st' := Step(st, a, cfg);
      s in st'.desk.phases && st'.desk.phases[s].Routing?
      ==> a == Check(s) && Named(st.desk, s)
          && st'.checks == st.checks + [RateLimiter.Event(st.desk.past.authed[s], st.now, true)]
  {
    if IsSessionAction(a) {
      if Named(st.desk, a.s) {
        RelayReplies.SessionMovesOne(st, a.s, a, cfg);
        if a.s == s {
          RoutingStep(st, s, a, cfg);
        }
      }
    }
  }

  lemma RoutingStep(st: State, s: Sid, a: Action, cfg: Config)
    requires cfg.maxCalls > 0 && Named(st.desk, s) && !st.desk.phases[s].Routing?
    ensures
      var st' := SessionStep(st, s, a, cfg);
      s in st'.desk.phases && st'.desk.phases[s].Routing?
      ==> a.Check? && st'.checks == st.checks + [RateLimiter.Event(st.desk.past.authed[s], st.now, true)]
  {}

  /** The action takes a frame of a session of `n` to routing. */
  predicate Routes(st: State, a: Action, cfg: Config, n: string) {
    && IsSessionAction(a) && Named(st.desk, a.s) && st.desk.past.authed[a.s] == n && !st.desk.phases[a.s].Routing?
    && var phases' := Step(st, a, cfg).desk.phases;
       a.s in phases' && phases'[a.s].Routing?
  }

  /** When frames of `n` went to routing, over all its sessions. */
  function RoutedAt(actions: seq<Action>, cfg: Config, n: string): seq<real> {
    if actions == [] then []
    else
      var front, a := actions[..|actions| - 1], actions[|actions| - 1];
      RoutedAt(front, cfg, n) + if Routes(Run(front, cfg), a, cfg, n) then [Run(front, cfg).now] else []
  }

  /** A step routes a frame of `n` exactly if it adds an accepted check of `n`. */
  lemma StepRoutesAccepted(st: State, a: Action, cfg: Config, n: string)
    requires cfg.maxCalls > 0
    ensures RateLimiter.Accepted(Step(st, a, cfg).checks, n)
      == RateLimiter.Accepted(st.checks, n) + if Routes(st, a, cfg, n) then [st.now] else []
  {
    if IsSessionAction(a) && Named(st.desk, a.s) {
      CheckingStep(st, a.s, a, cfg);
      OneCheckAccepted(st.checks, Step(st, a, cfg).checks, st.desk.past.authed[a.s], st.now, n);
    } else {
      var acc := RateLimiter.Accepted(st.checks, n);
      assert acc + [] == acc;
    }
  }

  lemma OneCheckAccepted(checks: seq<RateLimiter.Event>, checks': seq<RateLimiter.Event>, name: string, now: real,
                         n: string)
    ensures
      var acc, acc' := RateLimiter.Accepted(checks, n), RateLimiter.Accepted(checks', n);
      && (checks' == checks || (checks' == checks + [RateLimiter.Event(name, now, false)]) ==> acc' == acc + [])
      && (checks' == checks + [RateLimiter.Event(name, now, true)] ==> acc' == acc + if name == n then [now] else [])
  {
    var acc := RateLimiter.Accepted(checks, n);
    assert acc + [] == acc;
    RateLimiter.AcceptedSnoc(checks, RateLimiter.Event(name, now, false), n);
    RateLimiter.AcceptedSnoc(checks, RateLimiter.Event(name, now, true), n);
  }

  /** Either nothing is checked and nothing comes to be routed, or one check decides. */
  lemma CheckingStep(st: State, s: Sid, a: Action, cfg: Config)
    requires cfg.maxCalls > 0 && Named(st.desk, s)
    ensures
      var st' := SessionStep(st, s, a, cfg);
      var routes := !st.desk.phases[s].Routing? && s in st'.desk.phases && st'.desk.phases[s].Routing?;
      if st'.checks == st.checks then !routes
      else st'.checks == st.checks + [RateLimiter.Event(st.desk.past.authed[s], st.now, routes)]
  {}

  /** Routed frames and accepted checks are the same, in the same order. */
  lemma {:induction false} RoutedAreAccepted(actions: seq<Action>, cfg: Config, n: string)
    requires cfg.maxCalls > 0
    ensures RoutedAt(actions, cfg, n) == RateLimiter.Accepted(Run(actions, cfg).checks, n)
  {
    if actions != [] {
      var front := actions[..|actions| - 1];
      RoutedAreAccepted(front, cfg, n);
      StepRoutesAccepted(Run(front, cfg), actions[|actions| - 1], cfg, n);
    }
  }

  /** At most `k` caps in the `k` windows after `t`. */
  predicate WithinCap(times: seq<real>, cfg: Config, t: real, k: nat) {
    0 <= RateLimiter.Between(times, t, t + k as real * cfg.window) <= k * cfg.maxCalls
  }

  lemma AcceptedWithinCap(checks: seq<RateLimiter.Event>, now: real, cfg: Config, n: string, t: real, k: nat)
    requires ChecksOk(checks, now, cfg) && cfg.maxCalls > 0 && cfg.window > 0.0
    ensures WithinCap(RateLimiter.Accepted(checks, n), cfg, t, k)
  {
    RateLimiter.WindowBound(checks, n, cfg.maxCalls, cfg.window, t, k);
  }

  /** Frames of `n` that went to routing, over all its sessions, in any half-open interval of `k`
  windows. */
  lemma RoutedWithinCap(actions: seq<Action>, cfg: Config, n: string, t: real, k: nat)
    requires cfg.maxCalls > 0 && cfg.window > 0.0
    ensures WithinCap(RoutedAt(actions, cfg, n), cfg, t, k)
  {
    RunKeepsChecks(actions, cfg);
    RoutedAreAccepted(actions, cfg, n);
    AcceptedWithinCap(Run(actions, cfg).checks, Run(actions, cfg).now, cfg, n, t, k);
  }

  /** The check of a frame, given when frames of its node went to routing before. */
  predicate Judged(st: State, st': State, s: Sid, routed: seq<real>, cfg: Config)
    requires s in st.desk.phases && st.desk.phases[s].Received?
  {
    var msg := st.desk.phases[s].msg;
    var room := cfg.maxCalls <= 0 || RateLimiter.Between(routed, st.now - cfg.window, st.now) < cfg.maxCalls;
    st'.desk.phases == st.desk.phases[s := if msg.Obj? && room then Routing(msg) else Leaving]
  }

  /** The converse: a frame goes to routing exactly if it is an object and fewer than `max` frames of its
  node, over all its sessions, went there in the last window; otherwise its session leaves. */
  lemma CheckedExactly(actions: seq<Action>, cfg: Config, s: Sid)
    requires Named(Run(actions, cfg).desk, s) && Run(actions, cfg).desk.phases[s].Received?
    ensures
      var st, st' := Run(actions, cfg), Run(actions + [Check(s)], cfg);
      Judged(st, st', s, RoutedAt(actions, cfg, st.desk.past.authed[s]), cfg)
  {
    RelayRuns.RunSnoc(actions, Check(s), cfg);
    RunKeepsChecks(actions, cfg);
    var st := Run(actions, cfg);
    var n := st.desk.past.authed[s];
    if cfg.maxCalls > 0 {
      RoutedAreAccepted(actions, cfg, n);
    }
    AcceptedJudge(st, s, RoutedAt(actions, cfg, n), cfg);
  }

  lemma AcceptedJudge(st: State, s: Sid, routed: seq<real>, cfg: Config)
    requires Named(st.desk, s) && st.desk.phases[s].Received? && ChecksOk(st.checks, st.now, cfg)
    requires cfg.maxCalls > 0 ==> routed == RateLimiter.Accepted(st.checks, st.desk.past.authed[s])
    ensures Judged(st, Step(st, Check(s), cfg), s, routed, cfg)
  {
    AllUpToNow(st.checks, st.now, cfg, st.desk.past.authed[s]);
  }

  lemma AllUpToNow(checks: seq<RateLimiter.Event>, now: real, cfg: Config, n: string)
    requires ChecksOk(checks, now, cfg)
    ensures RateLimiter.UpTo(RateLimiter.Accepted(checks, n), now) == |RateLimiter.Accepted(checks, n)|
  {
    var ts := RateLimiter.Accepted(checks, n);
    RateLimiter.AcceptedSorted(checks, n);
    RateLimiter.UpToAtLeast(ts, now, |ts|);
  }

  /** A registered session leaves its loop only because its socket failed or at a check; a reply it
  delivered or a frame nobody waits for brings it back to the loop. */
  lemma LeavesOnlyBy(st: State, a: Action, cfg: Config, s: Sid)
    requires Named(st.desk, s)
    ensures
      var from, phases' := st.desk.phases[s], Step(st, a, cfg).desk.phases;
      && s in phases'
      && (phases'[s].Leaving? && !from.Leaving? ==>
            (a == Drop(s) && from.Holding?) || (a == Check(s) && from.Received?))
      && (from.Routing? || from.Delivering? ==> phases'[s] == from || phases'[s].Delivering? || phases'[s].Holding?)
  {
    if IsSessionAction(a) {
      if Named(st.desk, a.s) {
        RelayReplies.SessionMovesOne(st, a.s, a, cfg);
        if a.s == s {
          LeavingStep(st, s, a, cfg);
        }
      }
    }
  }

  lemma LeavingStep(st: State, s: Sid, a: Action, cfg: Config)
    requires Named(st.desk, s) && IsSessionAction(a)
    ensures
      var from, phases' := st.desk.phases[s], SessionStep(st, s, a, cfg).desk.phases;
      && s in phases'
      && (phases'[s].Leaving? && !from.Leaving? ==> (a.Drop? && from.Holding?) || (a.Check? && from.Received?))
      && (from.Routing? || from.Delivering? ==> phases'[s] == from || phases'[s].Delivering? || phases'[s].Holding?)
  {}
}
