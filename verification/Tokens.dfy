/** The token store (tokens.py): the record list `create`, `revoke`, `delete` and `validate` work on,
and what a whole history of such calls means. Calls are sequential. */
module Tokens {
  import opened Text
  import opened Wrappers

  /** SHA-256 stands for an injective function of the token. */
  datatype Digest = Sha256(token: string)

  datatype Record = Record(name: string, tokenHash: Digest, createdAt: string, revoked: bool, lastUsedAt: string)

  const NAME_MAX := 64

  predicate Printable(s: string) {
    forall i :: 0 <= i < |s| ==> 0x20 <= s[i] as int <= 0x7E
  }

  predicate HasDots(s: string) {
    exists i :: 0 <= i < |s| - 1 && s[i] == '.' && s[i + 1] == '.'
  }

  /** The name policy, applied to the stripped name. */
  predicate ValidName(name: string) {
    var s := Strip(name);
    0 < |s| <= NAME_MAX && Printable(s) && '/' !in s && '\\' !in s && !HasDots(s)
  }

  /** What `validate` lets through to the hash comparison. */
  predicate Presentable(token: string) {
    token != "" && Printable(token) && '/' !in token && '\\' !in token
  }

  /** Where a rewrite of the file breaks off: before the rename, or after it, when the directory
  cannot be opened for its fsync. Either way the caller sees an exception. */
  datatype Fault = NoFault | BeforeRename | AfterRename

  datatype Reply = Issued(token: string) | Done | Answer(ok: bool) | Raised

  datatype Call =
    | Create(name: string, token: string, at: string)
    | Revoke(name: string)
    | Delete(name: string)
    | Validate(name: string, token: string, at: string)

  datatype Event = Event(call: Call, fault: Fault)

  /** First position of a non-revoked record of `name`, or the length. */
  function Find(rs: seq<Record>, name: string): nat
    ensures Find(rs, name) <= |rs|
  {
    if rs == [] then 0
    else if rs[0].name == name && !rs[0].revoked then 0
    else 1 + Find(rs[1..], name)
  }

  function RevokeAll(rs: seq<Record>, name: string): seq<Record> {
    if rs == [] then []
    else [if rs[0].name == name then rs[0].(revoked := true) else rs[0]] + RevokeAll(rs[1..], name)
  }

  function Without(rs: seq<Record>, name: string): seq<Record> {
    if rs == [] then []
    else (if rs[0].name == name then [] else [rs[0]]) + Without(rs[1..], name)
  }

  /** The read-modify-write of `_mutate`: what is on disk afterwards, and the reply. */
  function Persist(was: seq<Record>, now: seq<Record>, fault: Fault, reply: Reply): (seq<Record>, Reply) {
    match fault
    case NoFault => (now, reply)
    case BeforeRename => (was, Raised)
    case AfterRename => (now, Raised)
  }

  function Apply(rs: seq<Record>, e: Event): (seq<Record>, Reply) {
    match e.call
    case Create(name, token, at) =>
      if !ValidName(name) || Find(rs, Strip(name)) < |rs| then (rs, Raised)
      else Persist(rs, rs + [Record(Strip(name), Sha256(token), at, false, "")], e.fault, Issued(token))
    case Revoke(name) =>
      if !ValidName(name) then (rs, Raised) else Persist(rs, RevokeAll(rs, Strip(name)), e.fault, Done)
    case Delete(name) =>
      if !ValidName(name) then (rs, Raised) else Persist(rs, Without(rs, Strip(name)), e.fault, Done)
    case Validate(name, token, at) =>
      var i := Find(rs, name);
      if name == "" || !Presentable(token) || i == |rs| || rs[i].tokenHash != Sha256(token) then (rs, Answer(false))
      else (Persist(rs, rs[i := rs[i].(lastUsedAt := at)], e.fault, Done).0, Answer(true))
  }

  function Run(es: seq<Event>): seq<Record> {
    if es == [] then [] else Apply(Run(es[..|es| - 1]), es[|es| - 1]).0
  }

  /** The specification: the token issued last for `n` with no revoke or delete of `n` since. A call
  counts when its rewrite reached the disk; a create is refused while an earlier one stands. */
  function Live(es: seq<Event>, n: string): Option<string> {
    if es == [] then None else LiveAfter(Live(es[..|es| - 1], n), es[|es| - 1], n)
  }

  function LiveAfter(before: Option<string>, e: Event, n: string): Option<string> {
    if e.fault.BeforeRename? || e.call.Validate? || !ValidName(e.call.name) || Strip(e.call.name) != n then before
    else match e.call
      case Create(_, token, _) => if before.Some? then before else Some(token)
      case _ => None
  }

  /** The token hashes of the non-revoked records of `n`. */
  function Hashes(rs: seq<Record>, n: string): seq<Digest> {
    if rs == [] then []
    else (if rs[0].name == n && !rs[0].revoked then [rs[0].tokenHash] else []) + Hashes(rs[1..], n)
  }

  /** The record list holds exactly the live tokens, at most one for each name. */
  ghost predicate Represents(rs: seq<Record>, es: seq<Event>) {
    forall n :: Hashes(rs, n) == Expected(Live(es, n))
  }

  function Expected(live: Option<string>): seq<Digest> {
    match live case None => [] case Some(t) => [Sha256(t)]
  }

  // ---------------------------------------------------------------------

  lemma {:induction false} FindIsFirstHash(rs: seq<Record>, n: string)
    ensures Find(rs, n) < |rs| <==> Hashes(rs, n) != []
    ensures Find(rs, n) < |rs| ==>
      var r := rs[Find(rs, n)]; r.name == n && !r.revoked && r.tokenHash == Hashes(rs, n)[0]
  {
    if rs != [] {
      FindIsFirstHash(rs[1..], n);
    }
  }

  lemma {:induction false} HashesSnoc(rs: seq<Record>, r: Record, n: string)
    ensures Hashes(rs + [r], n) == Hashes(rs, n) + if r.name == n && !r.revoked then [r.tokenHash] else []
  {
    if rs != [] {
      HashesSnoc(rs[1..], r, n);
      assert (rs + [r])[1..] == rs[1..] + [r];
    }
  }

  lemma {:induction false} HashesRevoked(rs: seq<Record>, m: string, n: string)
    ensures Hashes(RevokeAll(rs, m), n) == if n == m then [] else Hashes(rs, n)
  {
    if rs != [] {
      HashesRevoked(rs[1..], m, n);
    }
  }

  lemma {:induction false} HashesDeleted(rs: seq<Record>, m: string, n: string)
    ensures Hashes(Without(rs, m), n) == if n == m then [] else Hashes(rs, n)
  {
    if rs != [] {
      HashesDeleted(rs[1..], m, n);
      if rs[0].name != m {
        assert ([rs[0]] + Without(rs[1..], m))[1..] == Without(rs[1..], m);
      } else {
        assert Without(rs, m) == Without(rs[1..], m);
      }
    }
  }

  lemma {:induction false} HashesTouched(rs: seq<Record>, i: nat, at: string, n: string)
    requires i < |rs|
    ensures Hashes(rs[i := rs[i].(lastUsedAt := at)], n) == Hashes(rs, n)
  {
    if i > 0 {
      HashesTouched(rs[1..], i - 1, at, n);
      assert rs[i := rs[i].(lastUsedAt := at)][1..] == rs[1..][i - 1 := rs[i].(lastUsedAt := at)];
    }
  }

  /** A name `strip` would change never has a live token, so presenting it never succeeds. */
  lemma {:induction false} LiveNamesAreStripped(es: seq<Event>, n: string)
    requires Live(es, n).Some?
    ensures Strip(n) == n
  {
    if es != [] {
      var e := es[|es| - 1];
      StripIsStripped(e.call.name);
      if Live(es[..|es| - 1], n).Some? {
        LiveNamesAreStripped(es[..|es| - 1], n);
      }
    }
  }

  /** One event: the hashes of each name move as the specification says. */
  lemma EventRepresents(rs: seq<Record>, es: seq<Event>, e: Event, n: string)
    requires Represents(rs, es)
    ensures Hashes(Apply(rs, e).0, n) == Expected(LiveAfter(Live(es, n), e, n))
  {
    assert Hashes(rs, n) == Expected(Live(es, n));
    if e.call.Create? {
      var m := Strip(e.call.name);
      assert Hashes(rs, m) == Expected(Live(es, m));
      CreateMoves(rs, e, Live(es, m), Live(es, n), n);
    } else if e.call.Validate? {
      ValidateMoves(rs, e, n);
    } else {
      RemovalMoves(rs, e, Live(es, n), n);
    }
  }

  lemma RemovalMoves(rs: seq<Record>, e: Event, before: Option<string>, n: string)
    requires (e.call.Revoke? || e.call.Delete?) && Hashes(rs, n) == Expected(before)
    ensures Hashes(Apply(rs, e).0, n) == Expected(LiveAfter(before, e, n))
  {
    var m := Strip(e.call.name);
    if ValidName(e.call.name) {
      HashesRevoked(rs, m, n);
      HashesDeleted(rs, m, n);
      PersistMoves(rs, if e.call.Revoke? then RevokeAll(rs, m) else Without(rs, m), e.fault, n);
    }
  }

  /** A rewrite moves the hashes exactly if it reaches the disk. */
  lemma PersistMoves(was: seq<Record>, now: seq<Record>, fault: Fault, n: string)
    ensures Hashes(Persist(was, now, fault, Done).0, n)
      == if fault.BeforeRename? then Hashes(was, n) else Hashes(now, n)
  {}

  lemma ValidateMoves(rs: seq<Record>, e: Event, n: string)
    requires e.call.Validate?
    ensures Hashes(Apply(rs, e).0, n) == Hashes(rs, n)
  {
    if Find(rs, e.call.name) < |rs| {
      HashesTouched(rs, Find(rs, e.call.name), e.call.at, n);
    }
  }

  lemma CreateMoves(rs: seq<Record>, e: Event, own: Option<string>, before: Option<string>, n: string)
    requires e.call.Create? && Hashes(rs, Strip(e.call.name)) == Expected(own) && Hashes(rs, n) == Expected(before)
    ensures Hashes(Apply(rs, e).0, n) == Expected(LiveAfter(before, e, n))
  {
    var m := Strip(e.call.name);
    FindIsFirstHash(rs, m);
    if own.None? {
      HashesSnoc(rs, Record(m, Sha256(e.call.token), e.call.at, false, ""), n);
    }
  }

  /** How one event moves the specification. */
  lemma LiveSnoc(es: seq<Event>, e: Event)
    ensures forall n :: Live(es + [e], n) == LiveAfter(Live(es, n), e, n)
  {
    assert (es + [e])[..|es|] == es;
  }

  /** Over every history, whatever rewrites fail, the list holds exactly the live tokens. */
  lemma {:induction false} HistoryIsRepresented(es: seq<Event>)
    ensures Represents(Run(es), es)
  {
    if es != [] {
      var front, e := es[..|es| - 1], es[|es| - 1];
      HistoryIsRepresented(front);
      forall n ensures Hashes(Run(es), n) == Expected(Live(es, n)) {
        EventRepresents(Run(front), front, e, n);
      }
    }
  }

  /** At most one non-revoked record exists for a name. */
  lemma OneLiveRecord(es: seq<Event>, n: string)
    ensures |Hashes(Run(es), n)| <= 1
  {
    HistoryIsRepresented(es);
  }

  /** `validate(n, t)` is True exactly when `t` is the live token of `n`. */
  lemma ValidatesLiveToken(es: seq<Event>, n: string, token: string, at: string, fault: Fault)
    ensures Apply(Run(es), Event(Validate(n, token, at), fault)).1
      == Answer(Presentable(token) && Live(es, n) == Some(token))
  {
    HistoryIsRepresented(es);
    FindIsFirstHash(Run(es), n);
    EmptyNameNeverLives(es);
  }

  lemma {:induction false} EmptyNameNeverLives(es: seq<Event>)
    ensures Live(es, "").None?
  {
    if es != [] {
      EmptyNameNeverLives(es[..|es| - 1]);
    }
  }

  /** `create` hands out a token exactly when the name is valid, nothing stands for it, and the
  rewrite went through. */
  lemma CreateSucceedsExactly(es: seq<Event>, name: string, token: string, at: string, fault: Fault)
    ensures Apply(Run(es), Event(Create(name, token, at), fault)).1.Issued?
      <==> ValidName(name) && Live(es, Strip(name)).None? && fault.NoFault?
  {
    HistoryIsRepresented(es);
    FindIsFirstHash(Run(es), Strip(name));
  }

  /** `pair --force`: delete, then create. It always succeeds for a valid name, its token is the one
  that validates, and no other name notices. */
  lemma ForcePair(es: seq<Event>, name: string, token: string, at: string, m: string)
    requires ValidName(name)
    ensures
      var deleted := es + [Event(Delete(name), NoFault)];
      var paired := deleted + [Event(Create(name, token, at), NoFault)];
      && Apply(Run(deleted), Event(Create(name, token, at), NoFault)).1 == Issued(token)
      && Live(paired, Strip(name)) == Some(token)
      && (m != Strip(name) ==> Live(paired, m) == Live(es, m))
  {
    var deleted := es + [Event(Delete(name), NoFault)];
    DeleteFrees(es, name, m);
    CreateTakes(deleted, name, token, at, m);
  }

  lemma DeleteFrees(es: seq<Event>, name: string, m: string)
    requires ValidName(name)
    ensures
      var after := es + [Event(Delete(name), NoFault)];
      Live(after, Strip(name)).None? && (m != Strip(name) ==> Live(after, m) == Live(es, m))
  {
    LiveSnoc(es, Event(Delete(name), NoFault));
  }

  lemma CreateTakes(es: seq<Event>, name: string, token: string, at: string, m: string)
    requires ValidName(name) && Live(es, Strip(name)).None?
    ensures
      var e := Event(Create(name, token, at), NoFault);
      && Apply(Run(es), e).1 == Issued(token)
      && Live(es + [e], Strip(name)) == Some(token) && (m != Strip(name) ==> Live(es + [e], m) == Live(es, m))
  {
    LiveSnoc(es, Event(Create(name, token, at), NoFault));
    CreateSucceedsExactly(es, name, token, at, NoFault);
  }

  /** A padded name: `create` accepts it, but presenting the same padded name never validates; the
  stripped name does. */
  lemma PaddedNameNeverValidates(es: seq<Event>, name: string, token: string, at: string, fault: Fault)
    requires Strip(name) != name
    ensures Apply(Run(es), Event(Validate(name, token, at), fault)).1 == Answer(false)
  {
    ValidatesLiveToken(es, name, token, at, fault);
    if Live(es, name).Some? {
      LiveNamesAreStripped(es, name);
    }
  }

  /** Right after a token was issued, presenting it under the name given to `create` validates exactly
  if `strip` leaves that name alone. */
  lemma IssuedTokenValidatesExactly(es: seq<Event>, name: string, token: string, at: string, later: string,
                                    fault: Fault)
    requires ValidName(name) && Live(es, Strip(name)).None?
    ensures
      var e := Event(Create(name, token, at), NoFault);
      && Apply(Run(es), e).1 == Issued(token)
      && Apply(Run(es + [e]), Event(Validate(name, token, later), fault)).1
         == Answer(Presentable(token) && Strip(name) == name)
  {
    var e := Event(Create(name, token, at), NoFault);
    CreateSucceedsExactly(es, name, token, at, NoFault);
    LiveSnoc(es, e);
    ValidatesLiveToken(es + [e], name, token, later, fault);
    if Strip(name) != name {
      PaddedNameNeverValidates(es + [e], name, token, later, fault);
    }
  }

  /** A create that raises changes a live token exactly if it fails after its rename, for a valid name
  nothing stands for. Then its token is live, although it was never handed out. */
  lemma RaisedCreateExactly(es: seq<Event>, name: string, token: string, at: string, fault: Fault)
    requires Apply(Run(es), Event(Create(name, token, at), fault)).1.Raised?
    ensures
      var after := es + [Event(Create(name, token, at), fault)];
      var effective := ValidName(name) && Live(es, Strip(name)).None? && fault.AfterRename?;
      && ((exists n :: Live(after, n) != Live(es, n)) <==> effective)
      && (effective ==> Live(after, Strip(name)) == Some(token) && Hashes(Run(after), Strip(name)) == [Sha256(token)])
  {
    var e := Event(Create(name, token, at), fault);
    LiveSnoc(es, e);
    CreateSucceedsExactly(es, name, token, at, fault);
    HistoryIsRepresented(es + [e]);
    var m := Strip(name);
    assert Hashes(Run(es + [e]), m) == Expected(Live(es + [e], m));
    forall n | n != m ensures Live(es + [e], n) == Live(es, n) {}
  }

  /** For example " a": a token is issued for it and does not validate under it. */
  lemma PaddedNameExample(token: string, at: string)
    ensures ValidName(" a") && Apply([], Event(Create(" a", token, at), NoFault)).1 == Issued(token)
    ensures
      var e := Event(Create(" a", token, at), NoFault);
      Apply(Run([e]), Event(Validate(" a", token, at), NoFault)).1 == Answer(false)
  {
    var e := Event(Create(" a", token, at), NoFault);
    assert TrimLeft(" a") == TrimLeft("a") == "a" by {
      assert " a"[1..] == "a";
    }
    assert Strip(" a") == "a";
    IssuedTokenValidatesExactly([], " a", token, at, at, NoFault);
    assert [] + [e] == [e];
  }

  /** For example "a": a create that fails after its rename raises, and its token validates. */
  lemma LateFailureExample(token: string, at: string)
    requires Presentable(token)
    ensures
      var e := Event(Create("a", token, at), AfterRename);
      Apply([], e).1.Raised? && Apply(Run([e]), Event(Validate("a", token, at), NoFault)).1 == Answer(true)
  {
    var e := Event(Create("a", token, at), AfterRename);
    assert Strip("a") == "a";
    CreateSucceedsExactly([], "a", token, at, AfterRename);
    RaisedCreateExactly([], "a", token, at, AfterRename);
    assert [] + [e] == [e];
    ValidatesLiveToken([e], "a", token, at, NoFault);
  }

  // ---------------------------------------------------------------------
  // The store as the source has it

  class Store {
    var records: seq<Record>
    ghost var history: seq<Event>

    ghost predicate Valid()
      reads this
    {
      records == Run(history)
    }

    constructor ()
      ensures Valid() && history == []
    {
      records, history := [], [];
    }

    ghost method Log(e: Event)
      requires records == Apply(Run(history), e).0
      modifies this`history
      ensures history == old(history) + [e] && Valid()
    {
      history := history + [e];
      assert history[..|history| - 1] == old(history);
    }

    /** `token` is what the generator returned. */
    method Create(name: string, token: string, at: string, fault: Fault) returns (reply: Reply)
      requires Valid()
      modifies this
      ensures Valid() && history == old(history) + [Event(Call.Create(name, token, at), fault)]
      ensures reply == Apply(old(records), Event(Call.Create(name, token, at), fault)).1
    {
      reply := Raised;
      if ValidName(name) {
        var taken := Search(Strip(name));
        if taken == |records| {
          records, reply := Persist(records, records + [Record(Strip(name), Sha256(token), at, false, "")],
                                    fault, Issued(token)).0,
                            if fault.NoFault? then Issued(token) else Raised;
        }
      }
      Log(Event(Call.Create(name, token, at), fault));
    }

    /** The scan for a live record of `name`. */
    method Search(name: string) returns (i: nat)
      ensures i == Find(records, name)
    {
      i := 0;
      while i < |records| && !(records[i].name == name && !records[i].revoked)
        invariant i <= |records| && Find(records, name) == i + Find(records[i..], name)
      {
        i := i + 1;
      }
    }

    /** The loop of `revoke` over the records. */
    static method MarkRevoked(was: seq<Record>, name: string) returns (rs: seq<Record>)
      ensures rs == RevokeAll(was, name)
    {
      rs := was;
      var i := 0;
      while i < |rs|
        invariant 0 <= i <= |rs| && |rs| == |was| && rs[i..] == was[i..]
        invariant rs[..i] + RevokeAll(was[i..], name) == RevokeAll(was, name)
      {
        assert rs[i] == was[i] && was[i..][1..] == was[i + 1..];
        if rs[i].name == name {
          rs := rs[i := rs[i].(revoked := true)];
        }
        i := i + 1;
      }
      assert rs[..i] == rs;
    }

    method Revoke(name: string, fault: Fault) returns (reply: Reply)
      requires Valid()
      modifies this
      ensures Valid() && history == old(history) + [Event(Call.Revoke(name), fault)]
      ensures reply == Apply(old(records), Event(Call.Revoke(name), fault)).1
    {
      reply := Raised;
      if ValidName(name) {
        var rs := MarkRevoked(records, Strip(name));
        records := Persist(records, rs, fault, Done).0;
        reply := if fault.NoFault? then Done else Raised;
      }
      Log(Event(Call.Revoke(name), fault));
    }

    method Delete(name: string, fault: Fault) returns (reply: Reply)
      requires Valid()
      modifies this
      ensures Valid() && history == old(history) + [Event(Call.Delete(name), fault)]
      ensures reply == Apply(old(records), Event(Call.Delete(name), fault)).1
    {
      reply := Raised;
      if ValidName(name) {
        records := Persist(records, Without(records, Strip(name)), fault, Done).0;
        reply := if fault.NoFault? then Done else Raised;
      }
      Log(Event(Call.Delete(name), fault));
    }

    /** True exactly for the live token; a failed write-back does not change the answer. */
    method Validate(name: string, token: string, at: string, fault: Fault) returns (ok: bool)
      requires Valid()
      modifies this
      ensures Valid() && history == old(history) + [Event(Call.Validate(name, token, at), fault)]
      ensures ok <==> Presentable(token) && Live(old(history), name) == Some(token)
    {
      ValidatesLiveToken(history, name, token, at, fault);
      ok := false;
      if name != "" && Presentable(token) {
        var i := Search(name);
        if i < |records| && records[i].tokenHash == Sha256(token) {
          records := Persist(records, records[i := records[i].(lastUsedAt := at)], fault, Done).0;
          ok := true;
        }
      }
      Log(Event(Call.Validate(name, token, at), fault));
    }
  }
}
