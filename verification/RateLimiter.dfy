/** The per-node sliding-window rate limiter (ratelimit.py).

The specification is a history of `check` calls. `Faithful` is the naive reading of the cap: a call
is accepted exactly when fewer than `max` accepted calls of the same node lie in `(now - W, now]`.
The `Limiter` class keeps deques; its methods are proved against that history. The theorems about
the cap (window bound, greedy optimality, isolation of nodes) are about every faithful history. */
module RateLimiter {

  datatype Event = Event(node: string, at: real, ok: bool)

  /** Accepted times of node `n`, in call order. */
  function Accepted(h: seq<Event>, n: string): seq<real> {
    if h == [] then []
    else
      var last := h[|h| - 1];
      Accepted(h[..|h| - 1], n) + if last.node == n && last.ok then [last.at] else []
  }

  /** Positions in `h` of the accepted calls of node `n`. */
  function Chosen(h: seq<Event>, n: string): seq<nat> {
    if h == [] then []
    else
      var last := h[|h| - 1];
      Chosen(h[..|h| - 1], n) + if last.node == n && last.ok then [|h| - 1] else []
  }

  /** Number of entries of `ts` at or before `x`. */
  function UpTo(ts: seq<real>, x: real): nat
    ensures UpTo(ts, x) <= |ts|
  {
    if ts == [] then 0
    else UpTo(ts[..|ts| - 1], x) + if ts[|ts| - 1] <= x then 1 else 0
  }

  /** Number of entries in the half-open interval `(lo, hi]`. */
  function Between(ts: seq<real>, lo: real, hi: real): int {
    UpTo(ts, hi) - UpTo(ts, lo)
  }

  predicate Sorted(ts: seq<real>) {
    forall i, j :: 0 <= i < j < |ts| ==> ts[i] <= ts[j]
  }

  /** The clock never runs backwards. */
  predicate Monotone(h: seq<Event>) {
    forall i, j :: 0 <= i < j < |h| ==> h[i].at <= h[j].at
  }

  /** Fewer than `max` accepted calls of `n` lie in `(now - w, now]`. */
  predicate Admits(h: seq<Event>, n: string, now: real, max: int, w: real) {
    |Accepted(h, n)| - UpTo(Accepted(h, n), now - w) < max
  }

  /** The answer to call `i` is what the calls before it demand. */
  predicate AnswerRight(h: seq<Event>, i: nat, max: int, w: real)
    requires i < |h|
  {
    h[i].ok <==> Admits(h[..i], h[i].node, h[i].at, max, w)
  }

  predicate Faithful(h: seq<Event>, max: int, w: real) {
    forall i :: 0 <= i < |h| ==> AnswerRight(h, i, max, w)
  }

  /** Of any `max + 1` consecutive entries, the first is at least `w` before the last. */
  ghost predicate Spaced(ts: seq<real>, max: int, w: real) {
    max > 0 && forall i, j :: 0 <= i && j == i + max && j < |ts| ==> ts[i] <= ts[j] - w
  }

  // ---------------------------------------------------------------------
  // Facts about histories

  lemma {:induction false} UpToAtMost(ts: seq<real>, x: real, k: nat)
    requires Sorted(ts) && k <= |ts| && (k < |ts| ==> ts[k] > x)
    ensures UpTo(ts, x) <= k
  {
    if k < |ts| {
      UpToAtMost(ts[..|ts| - 1], x, k);
    }
  }

  lemma {:induction false} UpToAtLeast(ts: seq<real>, x: real, k: nat)
    requires Sorted(ts) && k <= |ts| && (k > 0 ==> ts[k - 1] <= x)
    ensures k <= UpTo(ts, x)
  {
    if ts != [] {
      UpToAtLeast(ts[..|ts| - 1], x, if k == |ts| then k - 1 else k);
    }
  }

  lemma {:induction false} AcceptedAreEvents(h: seq<Event>, n: string)
    ensures |Chosen(h, n)| == |Accepted(h, n)|
    ensures forall j :: 0 <= j < |Chosen(h, n)| ==>
      && Chosen(h, n)[j] < |h|
      && h[Chosen(h, n)[j]] == Event(n, Accepted(h, n)[j], true)
    ensures forall i, j :: 0 <= i < j < |Chosen(h, n)| ==> Chosen(h, n)[i] < Chosen(h, n)[j]
  {
    if h != [] {
      AcceptedAreEvents(h[..|h| - 1], n);
    }
  }

  lemma AcceptedSorted(h: seq<Event>, n: string)
    requires Monotone(h)
    ensures Sorted(Accepted(h, n))
    ensures forall i :: 0 <= i < |Accepted(h, n)| ==> h != [] && Accepted(h, n)[i] <= h[|h| - 1].at
  {
    AcceptedAreEvents(h, n);
  }

  lemma FaithfulPrefix(h: seq<Event>, k: nat, max: int, w: real)
    requires k <= |h| && Faithful(h, max, w)
    ensures Faithful(h[..k], max, w)
  {
    forall i | 0 <= i < k ensures AnswerRight(h[..k], i, max, w) {
      assert AnswerRight(h, i, max, w);
      assert h[..k][..i] == h[..i];
    }
  }

  lemma FaithfulExtend(h: seq<Event>, e: Event, max: int, w: real)
    requires Faithful(h, max, w)
    requires e.ok <==> Admits(h, e.node, e.at, max, w)
    ensures Faithful(h + [e], max, w)
  {
    forall i | 0 <= i < |h + [e]| ensures AnswerRight(h + [e], i, max, w) {
      if i < |h| {
        assert AnswerRight(h, i, max, w);
        assert (h + [e])[..i] == h[..i];
      } else {
        assert (h + [e])[..i] == h;
      }
    }
  }

  lemma {:induction false} AcceptedSpaced(h: seq<Event>, n: string, max: int, w: real)
    requires Monotone(h) && Faithful(h, max, w) && max > 0
    ensures Spaced(Accepted(h, n), max, w)
  {
    if h != [] {
      var front, last := h[..|h| - 1], h[|h| - 1];
      FaithfulPrefix(h, |h| - 1, max, w);
      AcceptedSpaced(front, n, max, w);
      AcceptedSorted(front, n);
      assert AnswerRight(h, |h| - 1, max, w);
      if last.node == n && last.ok {
        SpacedExtend(Accepted(front, n), last.at, max, w);
      }
    }
  }

  /** A call that finds room is a window away from the one `max` before it. */
  lemma SpacedExtend(acc: seq<real>, at: real, max: int, w: real)
    requires Sorted(acc) && Spaced(acc, max, w) && |acc| - UpTo(acc, at - w) < max
    ensures Spaced(acc + [at], max, w)
  {
    var k := |acc| - max;
    if k >= 0 && acc[k] > at - w {
      UpToAtMost(acc, at - w, k);
    }
    forall i, j | 0 <= i && j == i + max && j < |acc + [at]| ensures (acc + [at])[i] <= (acc + [at])[j] - w {
      if j < |acc| {
        assert acc[i] <= acc[j] - w;
      }
    }
  }

  // ---------------------------------------------------------------------
  // The cap

  /** Any interval of length `k * w` holds at most `k * max` accepted calls of a node. */
  lemma {:induction false} WindowBound(h: seq<Event>, n: string, max: int, w: real, t: real, k: nat)
    requires Monotone(h) && Faithful(h, max, w) && max > 0 && w > 0.0
    ensures 0 <= Between(Accepted(h, n), t, t + k as real * w) <= k * max
  {
    if k > 0 {
      var lo := t + (k - 1) as real * w;
      WindowBound(h, n, max, w, t, k - 1);
      OneWindow(h, n, max, w, lo);
      assert lo + w == t + k as real * w by {
        assert k as real == (k - 1) as real + 1.0;
      }
      assert k * max == (k - 1) * max + max;
    }
  }

  lemma OneWindow(h: seq<Event>, n: string, max: int, w: real, t: real)
    requires Monotone(h) && Faithful(h, max, w) && max > 0 && w > 0.0
    ensures 0 <= Between(Accepted(h, n), t, t + w) <= max
  {
    AcceptedSpaced(h, n, max, w);
    AcceptedSorted(h, n);
    SpacedWindow(Accepted(h, n), max, w, t);
  }

  lemma SpacedWindow(ts: seq<real>, max: int, w: real, t: real)
    requires Sorted(ts) && Spaced(ts, max, w) && w > 0.0
    ensures 0 <= Between(ts, t, t + w) <= max
  {
    var i := UpTo(ts, t);
    UpToMonotone(ts, t, t + w);
    if i + max < |ts| {
      NextIsLater(ts, t);
      assert ts[i] <= ts[i + max] - w;
      UpToAtMost(ts, t + w, i + max);
    }
  }

  lemma {:induction false} UpToMonotone(ts: seq<real>, lo: real, hi: real)
    requires lo <= hi
    ensures UpTo(ts, lo) <= UpTo(ts, hi)
  {
    if ts != [] {
      UpToMonotone(ts[..|ts| - 1], lo, hi);
    }
  }

  lemma NextIsLater(ts: seq<real>, x: real)
    requires Sorted(ts) && UpTo(ts, x) < |ts|
    ensures ts[UpTo(ts, x)] > x
  {
    if ts[UpTo(ts, x)] <= x {
      UpToAtLeast(ts, x, UpTo(ts, x) + 1);
    }
  }

  /** A choice of calls of node `n`, by position, that respects the cap in every window. */
  ghost predicate Admissible(h: seq<Event>, n: string, sel: seq<nat>, max: int, w: real)
  {
    && max > 0
    && (forall j :: 0 <= j < |sel| ==> sel[j] < |h| && h[sel[j]].node == n)
    && (forall i, j :: 0 <= i < j < |sel| ==> sel[i] < sel[j])
    && (forall i, j :: 0 <= i && j == i + max && j < |sel| ==> h[sel[i]].at <= h[sel[j]].at - w)
  }

  /** Greedy optimality: the limiter accepts at least as many calls as any admissible choice, and
  its j-th accepted call comes no later. It applies to every prefix, a prefix of a faithful history
  being faithful. */
  lemma {:induction false} GreedyOptimal(h: seq<Event>, n: string, sel: seq<nat>, max: int, w: real)
    requires Monotone(h) && Faithful(h, max, w) && max > 0 && w > 0.0
    requires Admissible(h, n, sel, max, w)
    ensures |sel| <= |Chosen(h, n)|
    ensures forall j :: 0 <= j < |sel| ==> Chosen(h, n)[j] <= sel[j]
    decreases |h|, 1
  {
    if sel != [] {
      assert sel[|sel| - 1] < |h|;
      var front, last := h[..|h| - 1], h[|h| - 1];
      FaithfulPrefix(h, |h| - 1, max, w);
      if sel[|sel| - 1] < |front| {
        assert forall j :: 0 <= j < |sel| ==> h[sel[j]] == front[sel[j]];
        GreedyOptimal(front, n, sel, max, w);
      } else {
        GreedyTakesLast(h, n, sel, max, w);
      }
    }
  }

  lemma {:induction false} GreedyTakesLast(h: seq<Event>, n: string, sel: seq<nat>, max: int, w: real)
    requires Monotone(h) && Faithful(h, max, w) && max > 0 && w > 0.0
    requires Admissible(h, n, sel, max, w) && sel != [] && sel[|sel| - 1] == |h| - 1
    ensures |sel| <= |Chosen(h, n)|
    ensures forall j :: 0 <= j < |sel| ==> Chosen(h, n)[j] <= sel[j]
    decreases |h|, 0
  {
    var front, head := h[..|h| - 1], sel[..|sel| - 1];
    FaithfulPrefix(h, |h| - 1, max, w);
    assert forall j :: 0 <= j < |head| ==> h[head[j]] == front[head[j]];
    GreedyOptimal(front, n, head, max, w);
    if |Chosen(front, n)| == |head| {
      LastIsAccepted(h, n, sel, max, w);
    } else {
      AcceptedAreEvents(front, n);
    }
  }

  /** When the limiter is level with an admissible choice, it has room for the chosen call. */
  lemma LastIsAccepted(h: seq<Event>, n: string, sel: seq<nat>, max: int, w: real)
    requires Monotone(h) && Faithful(h, max, w) && max > 0 && w > 0.0
    requires Admissible(h, n, sel, max, w) && sel != [] && h != [] && sel[|sel| - 1] == |h| - 1
    requires |Chosen(h[..|h| - 1], n)| == |sel| - 1
    requires forall j :: 0 <= j < |sel| - 1 ==> Chosen(h[..|h| - 1], n)[j] <= sel[j]
    ensures h[|h| - 1].node == n && h[|h| - 1].ok
  {
    LastHasRoom(h, n, sel, max, w);
    assert AnswerRight(h, |h| - 1, max, w);
    assert h[sel[|sel| - 1]].node == n;
  }

  lemma LastHasRoom(h: seq<Event>, n: string, sel: seq<nat>, max: int, w: real)
    requires Monotone(h) && Admissible(h, n, sel, max, w) && sel != [] && h != [] && sel[|sel| - 1] == |h| - 1
    requires |Chosen(h[..|h| - 1], n)| == |sel| - 1
    requires forall j :: 0 <= j < |sel| - 1 ==> Chosen(h[..|h| - 1], n)[j] <= sel[j]
    ensures Admits(h[..|h| - 1], n, h[|h| - 1].at, max, w)
  {
    var front, i := h[..|h| - 1], |sel| - 1 - max;
    AcceptedAreEvents(front, n);
    AcceptedSorted(front, n);
    if i >= 0 {
      EarlierIsOld(h, n, sel, max, w, i);
    }
    HasRoom(Accepted(front, n), h[|h| - 1].at - w, max);
  }

  lemma HasRoom(acc: seq<real>, cutoff: real, max: int)
    requires Sorted(acc) && max > 0 && (max <= |acc| ==> acc[|acc| - max] <= cutoff)
    ensures |acc| - UpTo(acc, cutoff) < max
  {
    if max <= |acc| {
      UpToAtLeast(acc, cutoff, |acc| - max + 1);
    }
  }

  lemma EarlierIsOld(h: seq<Event>, n: string, sel: seq<nat>, max: int, w: real, i: nat)
    requires Monotone(h) && Admissible(h, n, sel, max, w) && h != []
    requires i + max == |sel| - 1 && sel[|sel| - 1] == |h| - 1
    requires i < |Chosen(h[..|h| - 1], n)| && Chosen(h[..|h| - 1], n)[i] <= sel[i]
    ensures i < |Accepted(h[..|h| - 1], n)| && Accepted(h[..|h| - 1], n)[i] <= h[|h| - 1].at - w
  {
    var front := h[..|h| - 1];
    AcceptedAreEvents(front, n);
    var mine := Chosen(front, n)[i];
    assert front[mine] == h[mine] && h[mine].at <= h[sel[i]].at;
  }

  /** At no point of a run has any admissible policy let more calls through than the limiter. */
  lemma NoPolicyAcceptsMore(h: seq<Event>, n: string, p: nat, sel: seq<nat>, max: int, w: real)
    requires Monotone(h) && Faithful(h, max, w) && max > 0 && w > 0.0
    requires p <= |h| && Admissible(h[..p], n, sel, max, w)
    ensures |sel| <= |Accepted(h[..p], n)|
  {
    FaithfulPrefix(h, p, max, w);
    GreedyOptimal(h[..p], n, sel, max, w);
    AcceptedAreEvents(h[..p], n);
  }

  // ---------------------------------------------------------------------
  // Isolation of nodes

  /** The calls of node `n` alone. */
  function Project(h: seq<Event>, n: string): seq<Event> {
    if h == [] then []
    else Project(h[..|h| - 1], n) + if h[|h| - 1].node == n then [h[|h| - 1]] else []
  }

  lemma {:induction false} ProjectAccepted(h: seq<Event>, n: string)
    ensures Accepted(Project(h, n), n) == Accepted(h, n)
  {
    if h != [] {
      var front, p := Project(h[..|h| - 1], n), Project(h, n);
      ProjectAccepted(h[..|h| - 1], n);
      if h[|h| - 1].node == n {
        assert p == front + [h[|h| - 1]];
        assert p[..|p| - 1] == front;
      } else {
        assert p == front;
      }
    }
  }

  lemma {:induction false} ProjectFaithful(h: seq<Event>, n: string, max: int, w: real)
    requires Faithful(h, max, w)
    ensures Faithful(Project(h, n), max, w)
  {
    if h != [] {
      var front, last := h[..|h| - 1], h[|h| - 1];
      FaithfulPrefix(h, |h| - 1, max, w);
      ProjectFaithful(front, n, max, w);
      if last.node == n {
        assert AnswerRight(h, |h| - 1, max, w);
        ProjectAccepted(front, n);
        FaithfulExtend(Project(front, n), last, max, w);
      } else {
        assert Project(h, n) == Project(front, n);
      }
    }
  }

  /** What a limiter is asked, without its answers. */
  predicate SameCalls(g: seq<Event>, h: seq<Event>) {
    |g| == |h| && forall i :: 0 <= i < |g| ==> g[i].node == h[i].node && g[i].at == h[i].at
  }

  lemma {:induction false} Deterministic(g: seq<Event>, h: seq<Event>, max: int, w: real)
    requires Faithful(g, max, w) && Faithful(h, max, w) && SameCalls(g, h)
    ensures g == h
  {
    if g != [] {
      FaithfulPrefix(g, |g| - 1, max, w);
      FaithfulPrefix(h, |h| - 1, max, w);
      Deterministic(g[..|g| - 1], h[..|h| - 1], max, w);
      assert AnswerRight(g, |g| - 1, max, w) && AnswerRight(h, |h| - 1, max, w);
      assert g == g[..|g| - 1] + [g[|g| - 1]];
      assert h == h[..|h| - 1] + [h[|h| - 1]];
    }
  }

  /** The answers node `n` gets in an interleaved run are those of a limiter it has to itself. */
  lemma NodesAreIsolated(h: seq<Event>, solo: seq<Event>, n: string, max: int, w: real)
    requires Faithful(h, max, w) && Faithful(solo, max, w)
    requires SameCalls(solo, Project(h, n))
    ensures solo == Project(h, n)
  {
    ProjectFaithful(h, n, max, w);
    Deterministic(solo, Project(h, n), max, w);
  }

  // ---------------------------------------------------------------------
  // The implementation

  /** `d` is the end of `acc`, and nothing after `cutoff` is missing from it. */
  predicate TailSince(d: seq<real>, acc: seq<real>, cutoff: real) {
    && |d| <= |acc|
    && d == acc[|acc| - |d|..]
    && forall i :: 0 <= i < |acc| - |d| ==> acc[i] <= cutoff
  }

  function LastTime(h: seq<Event>): real {
    if h == [] then 0.0 else h[|h| - 1].at
  }

  lemma TailLater(d: seq<real>, acc: seq<real>, cutoff: real, later: real)
    requires TailSince(d, acc, cutoff) && (acc == [] || cutoff <= later)
    ensures TailSince(d, acc, later)
  {}

  /** The entries later than `cutoff`. */
  function After(acc: seq<real>, cutoff: real): seq<real> {
    acc[UpTo(acc, cutoff)..]
  }

  lemma AfterSnoc(acc: seq<real>, x: real, cutoff: real)
    requires cutoff < x
    ensures After(acc + [x], cutoff) == After(acc, cutoff) + [x]
  {
    assert (acc + [x])[..|acc|] == acc;
    DropSnoc(acc, UpTo(acc, cutoff), x);
  }

  lemma DropSnoc(acc: seq<real>, k: nat, x: real)
    requires k <= |acc|
    ensures (acc + [x])[k..] == acc[k..] + [x]
  {}

  /** Once nothing expired is left at its front, the tail is exactly the live part. */
  lemma TailIsLive(d: seq<real>, acc: seq<real>, cutoff: real)
    requires Sorted(acc) && TailSince(d, acc, cutoff) && (d != [] ==> d[0] > cutoff)
    ensures UpTo(acc, cutoff) == |acc| - |d|
    ensures d == After(acc, cutoff)
  {
    UpToAtMost(acc, cutoff, |acc| - |d|);
    UpToAtLeast(acc, cutoff, |acc| - |d|);
  }

  /** The deque of `n`; a missing key stands for an empty one. */
  function Deque(windows: map<string, seq<real>>, n: string): seq<real> {
    if n in windows then windows[n] else []
  }

  /** The deque of `n` is the end of its accepted calls, within the cap, never empty under a key,
  and what was evicted from it has aged out. */
  ghost predicate Tracks(windows: map<string, seq<real>>, h: seq<Event>, n: string, max: int, w: real) {
    && TailSince(Deque(windows, n), Accepted(h, n), LastTime(h) - w)
    && |Deque(windows, n)| <= max
    && (n in windows ==> windows[n] != [])
  }

  ghost predicate Refines(windows: map<string, seq<real>>, h: seq<Event>, max: int, w: real) {
    Monotone(h) && Faithful(h, max, w) && forall n :: Tracks(windows, h, n, max, w)
  }

  /** The live part of the accepted calls, as seen at `now`. */
  function Live(h: seq<Event>, n: string, now: real, w: real): seq<real> {
    After(Accepted(h, n), now - w)
  }

  lemma AcceptedSnoc(h: seq<Event>, e: Event, n: string)
    ensures e.node == n && e.ok ==> Accepted(h + [e], n) == Accepted(h, n) + [e.at]
    ensures !(e.node == n && e.ok) ==> Accepted(h + [e], n) == Accepted(h, n)
  {
    assert (h + [e])[..|h|] == h;
    var acc := Accepted(h, n);
    assert acc + [] == acc;
  }

  lemma LiveSnoc(h: seq<Event>, e: Event, w: real)
    requires w > 0.0
    ensures e.ok ==> Live(h + [e], e.node, e.at, w) == Live(h, e.node, e.at, w) + [e.at]
    ensures !e.ok ==> Live(h + [e], e.node, e.at, w) == Live(h, e.node, e.at, w)
  {
    AcceptedSnoc(h, e, e.node);
    var cutoff := e.at - w;
    assert cutoff < e.at;
    if e.ok {
      AfterSnoc(Accepted(h, e.node), e.at, cutoff);
    }
  }

  lemma LiveIsTail(h: seq<Event>, n: string, now: real, w: real)
    requires Monotone(h)
    ensures TailSince(Live(h, n, now, w), Accepted(h, n), now - w)
  {
    var acc := Accepted(h, n);
    AcceptedSorted(h, n);
    forall i | 0 <= i < UpTo(acc, now - w) ensures acc[i] <= now - w {
      if acc[i] > now - w {
        UpToAtMost(acc, now - w, i);
      }
    }
  }

  lemma LastSnoc(h: seq<Event>, e: Event, n: string)
    ensures LastTime(h + [e]) == e.at
    ensures h == [] ==> Accepted(h, n) == []
  {}

  /** Answering one node leaves the deques of the others what they were. */
  lemma OthersUntouched(windows: map<string, seq<real>>, h: seq<Event>, e: Event, n: string, max: int, w: real,
                        d: seq<real>)
    requires Tracks(windows, h, n, max, w) && n != e.node && (h != [] ==> LastTime(h) <= e.at)
    ensures Tracks(windows[e.node := d], h + [e], n, max, w)
  {
    AcceptedSnoc(h, e, n);
    LastSnoc(h, e, n);
    TailLater(Deque(windows, n), Accepted(h, n), LastTime(h) - w, e.at - w);
  }

  /** What the popleft loop may rely on. */
  lemma ReadyToEvict(windows: map<string, seq<real>>, h: seq<Event>, n: string, now: real, max: int, w: real)
    requires Tracks(windows, h, n, max, w) && Monotone(h) && (h != [] ==> LastTime(h) <= now)
    ensures Sorted(Accepted(h, n)) && TailSince(Deque(windows, n), Accepted(h, n), now - w)
    ensures |Deque(windows, n)| <= max
  {
    AcceptedSorted(h, n);
    TailLater(Deque(windows, n), Accepted(h, n), LastTime(h) - w, now - w);
  }

  lemma AfterIsShort(d: seq<real>, acc: seq<real>, cutoff: real)
    requires Sorted(acc) && TailSince(d, acc, cutoff)
    ensures |After(acc, cutoff)| <= |d|
  {
    UpToAtLeast(acc, cutoff, |acc| - |d|);
  }

  lemma MonotoneExtend(h: seq<Event>, e: Event)
    requires Monotone(h) && (h != [] ==> LastTime(h) <= e.at)
    ensures Monotone(h + [e])
  {}

  lemma NodeTracks(windows: map<string, seq<real>>, h: seq<Event>, e: Event, max: int, w: real)
    requires Tracks(windows, h, e.node, max, w) && Monotone(h)
    requires max > 0 && w > 0.0 && (h != [] ==> LastTime(h) <= e.at)
    requires e.ok <==> Admits(h, e.node, e.at, max, w)
    ensures Tracks(windows[e.node := Live(h + [e], e.node, e.at, w)], h + [e], e.node, max, w)
  {
    ReadyToEvict(windows, h, e.node, e.at, max, w);
    AfterIsShort(Deque(windows, e.node), Accepted(h, e.node), e.at - w);
    LiveCount(h, e, max, w);
    MonotoneExtend(h, e);
    LiveIsTail(h + [e], e.node, e.at, w);
    LastSnoc(h, e, e.node);
  }

  /** The answer leaves at least one live call and at most `max`. */
  lemma LiveCount(h: seq<Event>, e: Event, max: int, w: real)
    requires max > 0 && w > 0.0 && |Live(h, e.node, e.at, w)| <= max
    requires e.ok <==> Admits(h, e.node, e.at, max, w)
    ensures 0 < |Live(h + [e], e.node, e.at, w)| <= max
  {
    LiveSnoc(h, e, w);
  }

  lemma AnswerKeepsRefinement(windows: map<string, seq<real>>, h: seq<Event>, e: Event, max: int, w: real)
    requires Refines(windows, h, max, w) && max > 0 && w > 0.0 && (h != [] ==> LastTime(h) <= e.at)
    requires e.ok <==> Admits(h, e.node, e.at, max, w)
    ensures Refines(windows[e.node := Live(h + [e], e.node, e.at, w)], h + [e], max, w)
  {
    MonotoneExtend(h, e);
    FaithfulExtend(h, e, max, w);
    assert Tracks(windows, h, e.node, max, w);
    NodeTracks(windows, h, e, max, w);
    var d := Live(h + [e], e.node, e.at, w);
    var h', windows' := h + [e], windows[e.node := d];
    forall n | n != e.node ensures Tracks(windows', h', n, max, w) {
      assert Tracks(windows, h, n, max, w);
      OthersUntouched(windows, h, e, n, max, w, d);
    }
  }

  lemma BeforeEviction(windows: map<string, seq<real>>, h: seq<Event>, n: string, now: real, max: int, w: real)
    requires Refines(windows, h, max, w) && (h != [] ==> LastTime(h) <= now)
    ensures Sorted(Accepted(h, n)) && TailSince(Deque(windows, n), Accepted(h, n), now - w)
  {
    assert Tracks(windows, h, n, max, w);
    ReadyToEvict(windows, h, n, now, max, w);
  }

  /** What the deque holds when the check answers. */
  lemma AfterEviction(windows: map<string, seq<real>>, h: seq<Event>, n: string, now: real, live: seq<real>, ok: bool,
                      d: seq<real>, max: int, w: real)
    requires Refines(windows, h, max, w) && max > 0 && w > 0.0 && (h != [] ==> LastTime(h) <= now)
    requires live == After(Accepted(h, n), now - w) && (ok <==> |live| < max)
    requires d == if ok then live + [now] else live
    ensures ok <==> Admits(h, n, now, max, w)
    ensures windows[n := d] == windows[n := Live(h + [Event(n, now, ok)], n, now, w)]
    ensures Refines(windows[n := d], h + [Event(n, now, ok)], max, w)
  {
    var e := Event(n, now, ok);
    LiveSnoc(h, e, w);
    AnswerKeepsRefinement(windows, h, e, max, w);
  }

  class Limiter {
    const maxCalls: int
    const window: real
    var windows: map<string, seq<real>>
    ghost var history: seq<Event>

    ghost predicate Valid()
      reads this
    {
      && window > 0.0
      && (maxCalls <= 0 ==> windows == map[] && history == [])
      && (maxCalls > 0 ==> Refines(windows, history, maxCalls, window))
    }

    constructor (maxCalls: int, window: real)
      requires window > 0.0
      ensures Valid() && this.maxCalls == maxCalls && this.window == window
      ensures history == [] && windows == map[]
    {
      this.maxCalls := maxCalls;
      this.window := window;
      windows := map[];
      history := [];
    }

    /** One call of `node` at clock reading `now`. */
    method Check(node: string, now: real) returns (ok: bool)
      requires Valid()
      requires history != [] ==> LastTime(history) <= now
      modifies this
      ensures Valid()
      ensures maxCalls <= 0 ==> ok && windows == old(windows) && history == old(history)
      ensures maxCalls > 0 ==>
        && ok == Admits(old(history), node, now, maxCalls, window)
        && history == old(history) + [Event(node, now, ok)]
        && windows == old(windows)[node := Live(history, node, now, window)]
    {
      if maxCalls <= 0 {
        ok := true;
      } else {
        ok := CheckCapped(node, now);
      }
    }

    method CheckCapped(node: string, now: real) returns (ok: bool)
      requires maxCalls > 0 && Valid()
      requires history != [] ==> LastTime(history) <= now
      modifies this
      ensures Refines(windows, history, maxCalls, window)
      ensures ok == Admits(old(history), node, now, maxCalls, window)
      ensures history == old(history) + [Event(node, now, ok)]
      ensures windows == old(windows)[node := Live(history, node, now, window)]
    {
      var w;
      ok, w := Decide(node, now);
      windows := windows[node := w];
      history := history + [Event(node, now, ok)];
    }

    /** The answer, and the node's deque with it. */
    method Decide(node: string, now: real) returns (ok: bool, w: seq<real>)
      requires maxCalls > 0 && Valid()
      requires history != [] ==> LastTime(history) <= now
      ensures ok == Admits(history, node, now, maxCalls, window)
      ensures windows[node := w] == windows[node := Live(history + [Event(node, now, ok)], node, now, window)]
      ensures Refines(windows[node := w], history + [Event(node, now, ok)], maxCalls, window)
    {
      BeforeEviction(windows, history, node, now, maxCalls, window);
      var live := Evict(Deque(windows, node), now - window, Accepted(history, node));
      ok := |live| < maxCalls;
      w := if ok then live + [now] else live;
      AfterEviction(windows, history, node, now, live, ok, w, maxCalls, window);
    }

    /** The popleft loop. */
    static method Evict(d: seq<real>, cutoff: real, ghost acc: seq<real>) returns (w: seq<real>)
      requires Sorted(acc) && TailSince(d, acc, cutoff)
      ensures w == After(acc, cutoff)
    {
      w := d;
      while w != [] && w[0] <= cutoff
        invariant TailSince(w, acc, cutoff)
      {
        w := w[1..];
      }
      TailIsLive(w, acc, cutoff);
    }

    /** The prune of `tracked_nodes` never finds an empty deque: every key has a live entry. */
    method TrackedNodes() returns (names: set<string>)
      requires Valid()
      modifies this
      ensures Valid() && windows == old(windows) && history == old(history)
      ensures names == windows.Keys
      ensures forall n :: n in names ==> Accepted(history, n) != []
    {
      forall n | n in windows ensures windows[n] != [] && Accepted(history, n) != [] {
        assert Tracks(windows, history, n, maxCalls, window);
      }
      var empty := set n | n in windows && windows[n] == [];
      assert windows - empty == windows;
      windows := windows - empty;
      names := windows.Keys;
    }

    method Reset()
      requires Valid()
      modifies this
      ensures Valid() && windows == map[] && history == []
    {
      windows, history := map[], [];
    }
  }
}
