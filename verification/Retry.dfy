/** The HTTP retry loop (tools.py). `server(k)` is what attempt `k` meets. */
module Retry {

  /** A field of a JSON object, as `get` and `or` see it. */
  datatype Field = Absent | Str(text: string) | Falsy | OtherTruthy

  /** A decoded response body; `blank` bodies are falsy in Python. */
  datatype Body = Dict(reason: Field, error: Field, blank: bool, id: int) | NotDict(blank: bool, id: int)

  datatype Attempt = Failure(message: string) | Reply(status: int, body: Body)

  datatype Outcome =
    | Returned(body: Body)
    | Exhausted(attempts: int, message: string)
    | UnknownError
    | Raised

  function LowerChar(c: char): char {
    if 'A' <= c <= 'Z' then ((c as int) + 32) as char else c
  }

  function Lower(s: string): string {
    if s == "" then "" else [LowerChar(s[0])] + Lower(s[1..])
  }

  predicate Contains(s: string, t: string) {
    t <= s || (s != "" && Contains(s[1..], t))
  }

  /** `reason or error`. */
  function ReasonOf(b: Body): Field {
    if b.NotDict? then Str("")
    else if b.reason.OtherTruthy? || (b.reason.Str? && b.reason.text != "") then b.reason
    else if b.error.Absent? then Str("")
    else b.error
  }

  datatype Verdict = Transient | Final | Crash

  /** `_should_retry`: lower-casing a reason that is no string raises, unless the status decided. */
  function Classify(a: Attempt): Verdict {
    if a.Failure? || a.status >= 500 then Transient
    else if !ReasonOf(a.body).Str? then Crash
    else if Contains(Lower(ReasonOf(a.body).text), "not connected") then Transient
    else Final
  }

  function Min(x: real, y: real): real {
    if x <= y then x else y
  }

  function Pow2(k: nat): nat {
    if k == 0 then 1 else 2 * Pow2(k - 1)
  }

  function Delay(backoff: real, attempt: nat): real {
    Min(backoff * Pow2(attempt) as real, 30.0)
  }

  /** Total sleep before attempt `n`. */
  function Sleeps(backoff: real, n: nat): real {
    if n == 0 then 0.0 else Sleeps(backoff, n - 1) + Delay(backoff, n - 1)
  }

  /** Every attempt before `k` is transient. */
  ghost predicate AllTransient(server: nat -> Attempt, k: nat) {
    forall i :: 0 <= i < k ==> Classify(server(i)).Transient?
  }

  /** What the loop must return after `n` attempts. */
  ghost predicate Verdicted(server: nat -> Attempt, maxRetries: int, n: nat, out: Outcome) {
    if n == 0 then maxRetries < 0 && out == UnknownError
    else
      var last := server(n - 1);
      && n <= maxRetries + 1
      && AllTransient(server, n - 1)
      && match Classify(last)
         case Final => out == Returned(last.body)
         case Crash => out == Raised
         case Transient =>
           && n == maxRetries + 1
           && out == if last.Failure? then Exhausted(maxRetries + 1, last.message)
                     else if last.body.blank then UnknownError
                     else Returned(last.body)
  }

  method RequestWithRetry(server: nat -> Attempt, maxRetries: int, backoff: real)
    returns (out: Outcome, attempts: nat, slept: real)
    requires backoff >= 0.0
    ensures Verdicted(server, maxRetries, attempts, out)
    ensures slept == Sleeps(backoff, if attempts == 0 then 0 else attempts - 1)
  {
    attempts, slept := 0, 0.0;
    var lastError: string, lastResult: Body := "", NotDict(true, 0);
    var failed := false;
    while attempts < maxRetries + 1
      invariant attempts <= if maxRetries < 0 then 0 else maxRetries + 1
      invariant AllTransient(server, attempts)
      invariant slept == Sleeps(backoff, if attempts == maxRetries + 1 && attempts > 0 then attempts - 1 else attempts)
      invariant attempts == 0 ==> !failed && lastResult.blank
      invariant attempts > 0 ==> failed == server(attempts - 1).Failure?
      invariant attempts > 0 && failed ==> lastError == server(attempts - 1).message
      invariant attempts > 0 && !failed ==> lastResult == server(attempts - 1).body
    {
      var attempt := server(attempts);
      failed := attempt.Failure?;
      if failed {
        lastError := attempt.message;
      } else {
        match Classify(attempt)
        case Final => return Returned(attempt.body), attempts + 1, slept;
        case Crash => return Raised, attempts + 1, slept;
        case Transient => lastResult := attempt.body;
      }
      if attempts < maxRetries {
        slept := slept + Delay(backoff, attempts);
      }
      attempts := attempts + 1;
    }
    if failed {
      out := Exhausted(maxRetries + 1, lastError);
    } else if !lastResult.blank {
      out := Returned(lastResult);
    } else {
      out := UnknownError;
    }
  }

  // ---------------------------------------------------------------------
  // What counts as transient

  lemma {:induction false} LowerIsCharwise(s: string)
    ensures |Lower(s)| == |s| && forall i :: 0 <= i < |s| ==> Lower(s)[i] == LowerChar(s[i])
  {
    if s != "" {
      LowerIsCharwise(s[1..]);
    }
  }

  predicate Occurs(s: string, t: string, i: nat) {
    i <= |s| && t <= s[i..]
  }

  lemma {:induction false} ContainsExactly(s: string, t: string)
    ensures Contains(s, t) <==> exists i: nat :: Occurs(s, t, i)
  {
    assert s[0..] == s;
    if t <= s {
      assert Occurs(s, t, 0);
    }
    if s != "" {
      ContainsExactly(s[1..], t);
      if Contains(s[1..], t) {
        var i: nat :| Occurs(s[1..], t, i);
        assert s[i + 1..] == s[1..][i..];
        assert Occurs(s, t, i + 1);
      }
      forall i: nat | Occurs(s, t, i) ensures t <= s || Contains(s[1..], t) {
        if i > 0 {
          assert s[i..] == s[1..][i - 1..];
          assert Occurs(s[1..], t, i - 1);
        }
      }
    }
  }

  /** "not connected" stands at position `i`, in letters of either case. */
  predicate SaysNotConnected(text: string, i: nat) {
    i + 13 <= |text| && Lower(text[i..i + 13]) == "not connected"
  }

  lemma MentionsExactly(text: string)
    ensures Contains(Lower(text), "not connected") <==> exists i: nat :: SaysNotConnected(text, i)
  {
    ContainsExactly(Lower(text), "not connected");
    forall i: nat ensures Occurs(Lower(text), "not connected", i) <==> SaysNotConnected(text, i) {
      LowerIsCharwise(text);
      if i + 13 <= |text| {
        LowerIsCharwise(text[i..i + 13]);
        assert Lower(text[i..i + 13]) == Lower(text)[i..i + 13];
        assert Lower(text)[i..][..13] == Lower(text)[i..i + 13];
      }
    }
  }

  /** The text a body gives for its failure: a non-empty `reason`, or else `error`. */
  predicate Gives(b: Body, text: string) {
    b.Dict? && text != ""
    && (b.reason == Str(text)
        || ((b.reason.Absent? || b.reason.Falsy? || b.reason == Str("")) && b.error == Str(text)))
  }

  /** An attempt is retried exactly if no response could be read, or its status is 500 or more, or its body
  gives a text that mentions "not connected"; below 500, a `reason` or `error` that is no text raises. */
  lemma TransientExactly(a: Attempt)
    ensures Classify(a).Transient? <==>
      || a.Failure?
      || a.status >= 500
      || exists text: string, i: nat :: Gives(a.body, text) && SaysNotConnected(text, i)
    ensures Classify(a).Crash? <==>
      && a.Reply? && a.status < 500 && a.body.Dict?
      && (a.body.reason.OtherTruthy?
          || ((a.body.reason.Absent? || a.body.reason.Falsy? || a.body.reason == Str(""))
              && (a.body.error.Falsy? || a.body.error.OtherTruthy?)))
  {
    if a.Reply? && a.status < 500 && ReasonOf(a.body).Str? {
      var text := ReasonOf(a.body).text;
      MentionsExactly(text);
      assert forall t: string :: Gives(a.body, t) ==> t == text;
      assert text != "" ==> Gives(a.body, text);
    }
  }

  /** The number of attempts and the outcome are determined by the server's answers. */
  lemma VerdictIsUnique(server: nat -> Attempt, maxRetries: int, n: nat, out: Outcome, n': nat, out': Outcome)
    requires Verdicted(server, maxRetries, n, out) && Verdicted(server, maxRetries, n', out')
    ensures n == n' && out == out'
  {}

  /** All attempts are used exactly if every one before the last met a transient failure. */
  lemma UsesAllAttemptsExactly(server: nat -> Attempt, maxRetries: int, n: nat, out: Outcome)
    requires Verdicted(server, maxRetries, n, out) && maxRetries >= 0
    ensures n == maxRetries + 1 <==> AllTransient(server, maxRetries)
  {
    if n < maxRetries + 1 {
      assert !Classify(server(n - 1)).Transient?;
    }
  }

  /** Allowing more retries changes neither a conclusive answer nor the attempts it took. */
  lemma MoreRetriesKeepAnswer(server: nat -> Attempt, maxRetries: int, n: nat, out: Outcome,
                              more: int, n': nat, out': Outcome)
    requires Verdicted(server, maxRetries, n, out) && Verdicted(server, more, n', out')
    requires n > 0 && !Classify(server(n - 1)).Transient? && more >= maxRetries
    ensures n' == n && out' == out
  {
    VerdictIsUnique(server, more, n, out, n', out');
  }

  /** Both bounds on the total sleep; the exponential one is reached while the cap is not. */
  lemma {:induction false} SleepBounds(backoff: real, n: nat)
    requires backoff >= 0.0
    ensures 0.0 <= Sleeps(backoff, n) <= 30.0 * n as real
    ensures Sleeps(backoff, n) <= backoff * (Pow2(n) - 1) as real
    ensures (n == 0 || backoff * Pow2(n - 1) as real <= 30.0) ==>
      Sleeps(backoff, n) == backoff * (Pow2(n) - 1) as real
  {
    if n > 0 {
      SleepBounds(backoff, n - 1);
      var p := Pow2(n - 1) as real;
      assert (Pow2(n) - 1) as real == (Pow2(n - 1) - 1) as real + p;
      assert backoff * (Pow2(n) - 1) as real == backoff * (Pow2(n - 1) - 1) as real + backoff * p;
      if n > 1 {
        var q := Pow2(n - 2) as real;
        assert p == 2.0 * q;
        assert backoff * p == 2.0 * (backoff * q);
        assert 0.0 <= backoff * q;
      }
    }
  }

  lemma {:induction false} Pow2Grows(m: nat, n: nat)
    requires m <= n
    ensures 1 <= Pow2(m) <= Pow2(n)
  {
    if m < n {
      Pow2Grows(m, n - 1);
    } else if m > 0 {
      Pow2Grows(m - 1, n - 1);
    }
  }

  lemma DelayCapped(backoff: real, m: nat, n: nat)
    requires m <= n && backoff >= 0.0 && backoff * Pow2(m) as real >= 30.0
    ensures Delay(backoff, n) == 30.0
  {
    Pow2Grows(m, n);
    var x, y := Pow2(m) as real, Pow2(n) as real;
    TimesGrows(backoff, x, y);
    MinCaps(backoff * y);
  }

  lemma MinCaps(x: real)
    requires x >= 30.0
    ensures Min(x, 30.0) == 30.0
  {}

  lemma TimesGrows(b: real, x: real, y: real)
    requires b >= 0.0 && x <= y
    ensures b * x <= b * y
  {}

  /** Once the cap is reached, every further sleep is the cap. */
  lemma {:induction false} SleepBeyondCap(backoff: real, m: nat, n: nat)
    requires m <= n && backoff >= 0.0 && backoff * Pow2(m) as real >= 30.0
    ensures Sleeps(backoff, n) == Sleeps(backoff, m) + 30.0 * (n - m) as real
  {
    if m < n {
      SleepBeyondCap(backoff, m, n - 1);
      DelayCapped(backoff, m, n - 1);
    }
  }
}
