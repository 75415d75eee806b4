/** More about histories of the token store: which names and tokens can be live at all, and what the live
record of a name shows to whoever lists it. */
module TokenRecords {
  import opened Text
  import opened Wrappers
  import opened Tokens

  // ---------------------------------------------------------------------
  // Names and tokens

  /** A name may hold a token exactly if it is 1 to 64 printable ASCII characters without white space at
  the ends, without a slash or a backslash, and without two dots in a row. */
  lemma NamesExactly(n: string, token: string, at: string)
    ensures (exists es: seq<Event> :: Live(es, n).Some?)
      <==> && 1 <= |n| <= 64 && n[0] != ' ' && n[|n| - 1] != ' '
           && (forall i :: 0 <= i < |n| ==> ' ' <= n[i] <= '~' && n[i] != '/' && n[i] != '\\')
           && (forall a, b :: n != a + ".." + b)
  {
    DotsExactly(n);
    if es: seq<Event> :| Live(es, n).Some? {
      var i := LiveIsIssued(es, n);
      StripIsStripped(es[i].call.name);
    }
    if ValidName(n) && Strip(n) == n {
      var e := Event(Create(n, token, at), NoFault);
      LiveSnoc([], e);
      assert Live([] + [e], n).Some?;
    }
    if 1 <= |n| && n[0] != ' ' && n[|n| - 1] != ' ' && forall i :: 0 <= i < |n| ==> ' ' <= n[i] <= '~' {
      StrippedUnchanged(n);
    }
  }

  lemma DotsExactly(s: string)
    ensures HasDots(s) <==> exists a, b :: s == a + ".." + b
  {
    if HasDots(s) {
      var i :| 0 <= i < |s| - 1 && s[i] == '.' && s[i + 1] == '.';
      assert s == s[..i] + ".." + s[i + 2..];
    }
    forall a, b | s == a + ".." + b ensures HasDots(s) {
      assert s[|a|] == '.' && s[|a| + 1] == '.';
    }
  }

  /** A live token was issued by some create of the history, for that name. */
  lemma {:induction false} LiveIsIssued(es: seq<Event>, n: string) returns (i: nat)
    requires Live(es, n).Some?
    ensures i < |es| && es[i].call.Create? && ValidName(es[i].call.name) && Strip(es[i].call.name) == n
    ensures Live(es, n) == Some(es[i].call.token)
  {
    var m := |es| - 1;
    if Live(es[..m], n) == Live(es, n) {
      i := LiveIsIssued(es[..m], n);
    } else {
      i := m;
    }
  }

  /** What `secrets.token_urlsafe` draws from. */
  predicate UrlSafe(token: string) {
    token != "" && forall i :: 0 <= i < |token| ==>
      'a' <= token[i] <= 'z' || 'A' <= token[i] <= 'Z' || '0' <= token[i] <= '9' || token[i] == '-' || token[i] == '_'
  }

  lemma UrlSafeIsPresentable(token: string)
    requires UrlSafe(token)
    ensures Presentable(token)
  {}

  /** With the tokens the generator makes, nothing but being live decides: a token validates for a name
  exactly if it was issued for it and not revoked or deleted since. */
  lemma GeneratedTokensValidate(es: seq<Event>, n: string, token: string, at: string, fault: Fault)
    requires forall i :: 0 <= i < |es| && es[i].call.Create? ==> UrlSafe(es[i].call.token)
    ensures Apply(Run(es), Event(Validate(n, token, at), fault)).1 == Answer(Live(es, n) == Some(token))
  {
    ValidatesLiveToken(es, n, token, at, fault);
    if Live(es, n) == Some(token) {
      var i := LiveIsIssued(es, n);
      UrlSafeIsPresentable(es[i].call.token);
    }
  }

  /** A presented token that is empty, holds a character that is not printable ASCII, or holds a slash or a
  backslash never validates and changes nothing, whatever was issued. */
  lemma OddTokensNeverValidate(rs: seq<Record>, n: string, token: string, at: string, fault: Fault)
    requires token == ""
      || exists i :: 0 <= i < |token| && (token[i] < ' ' || token[i] > '~' || token[i] == '/' || token[i] == '\\')
    ensures Apply(rs, Event(Validate(n, token, at), fault)) == (rs, Answer(false))
  {}

  // ---------------------------------------------------------------------
  // The live record

  /** The non-revoked records of `n`. */
  function Current(rs: seq<Record>, n: string): seq<Record> {
    if rs == [] then []
    else (if rs[0].name == n && !rs[0].revoked then [rs[0]] else []) + Current(rs[1..], n)
  }

  /** The record a name should have: made by the create that issued its token, and marked with the time of
  each successful validation since whose write reached the disk. */
  function EntryAfter(before: Option<Record>, e: Event, n: string): Option<Record> {
    if e.fault.BeforeRename? then before
    else match e.call
      case Create(name, token, at) =>
        if before.None? && ValidName(name) && Strip(name) == n then Some(Record(n, Sha256(token), at, false, ""))
        else before
      case Revoke(name) => if ValidName(name) && Strip(name) == n then None else before
      case Delete(name) => if ValidName(name) && Strip(name) == n then None else before
      case Validate(name, token, at) =>
        if name == n != "" && Presentable(token) && before.Some? && before.value.tokenHash == Sha256(token)
        then Some(before.value.(lastUsedAt := at))
        else before
  }

  function Entry(es: seq<Event>, n: string): Option<Record> {
    if es == [] then None else EntryAfter(Entry(es[..|es| - 1], n), es[|es| - 1], n)
  }

  function Listed(entry: Option<Record>): seq<Record> {
    if entry.Some? then [entry.value] else []
  }

  lemma {:induction false} CurrentSnoc(rs: seq<Record>, r: Record, n: string)
    ensures Current(rs + [r], n) == Current(rs, n) + if r.name == n && !r.revoked then [r] else []
  {
    if rs != [] {
      CurrentSnoc(rs[1..], r, n);
      assert (rs + [r])[1..] == rs[1..] + [r];
    }
  }

  lemma {:induction false} CurrentRevoked(rs: seq<Record>, m: string, n: string)
    ensures Current(RevokeAll(rs, m), n) == if n == m then [] else Current(rs, n)
  {
    if rs != [] {
      CurrentRevoked(rs[1..], m, n);
    }
  }

  lemma {:induction false} CurrentDeleted(rs: seq<Record>, m: string, n: string)
    ensures Current(Without(rs, m), n) == if n == m then [] else Current(rs, n)
  {
    if rs != [] {
      CurrentDeleted(rs[1..], m, n);
      if rs[0].name != m {
        assert ([rs[0]] + Without(rs[1..], m))[1..] == Without(rs[1..], m);
      } else {
        assert Without(rs, m) == Without(rs[1..], m);
      }
    }
  }

  lemma {:induction false} FindIsFirst(rs: seq<Record>, n: string)
    ensures Find(rs, n) < |rs| <==> Current(rs, n) != []
    ensures Find(rs, n) < |rs| ==> rs[Find(rs, n)] == Current(rs, n)[0]
  {
    if rs != [] {
      FindIsFirst(rs[1..], n);
    }
  }

  lemma {:induction false} OthersUntouched(rs: seq<Record>, i: nat, r: Record, n: string)
    requires i < |rs| && rs[i].name != n && r.name != n
    ensures Current(rs[i := r], n) == Current(rs, n)
  {
    if i > 0 {
      OthersUntouched(rs[1..], i - 1, r, n);
      assert rs[i := r][1..] == rs[1..][i - 1 := r];
    }
  }

  lemma {:induction false} OwnTouched(rs: seq<Record>, m: string, r: Record)
    requires |Current(rs, m)| == 1 && Find(rs, m) < |rs| && r.name == m && !r.revoked
    ensures Current(rs[Find(rs, m) := r], m) == [r]
  {
    var i := Find(rs, m);
    if i > 0 {
      OwnTouched(rs[1..], m, r);
      assert rs[i := r][0] == rs[0] && rs[i := r][1..] == rs[1..][i - 1 := r];
    } else {
      assert rs[i := r][1..] == rs[1..];
    }
  }

  lemma ValidateRecords(rs: seq<Record>, e: Event, own: Option<Record>, before: Option<Record>, n: string)
    requires e.call.Validate? && Current(rs, e.call.name) == Listed(own) && Current(rs, n) == Listed(before)
    ensures Current(Apply(rs, e).0, n) == Listed(EntryAfter(before, e, n))
  {
    var name, i := e.call.name, Find(rs, e.call.name);
    FindIsFirst(rs, name);
    if i < |rs| {
      var r := rs[i].(lastUsedAt := e.call.at);
      FindIsLive(rs, name);
      if n == name {
        OwnTouched(rs, name, r);
      } else {
        OthersUntouched(rs, i, r, n);
      }
    }
  }

  lemma FindIsLive(rs: seq<Record>, n: string)
    requires Find(rs, n) < |rs|
    ensures rs[Find(rs, n)].name == n && !rs[Find(rs, n)].revoked
  {
    FindIsFirstHash(rs, n);
  }

  lemma CreateRecords(rs: seq<Record>, e: Event, own: Option<Record>, before: Option<Record>, n: string)
    requires e.call.Create? && Current(rs, Strip(e.call.name)) == Listed(own) && Current(rs, n) == Listed(before)
    ensures Current(Apply(rs, e).0, n) == Listed(EntryAfter(before, e, n))
  {
    var m := Strip(e.call.name);
    FindIsFirst(rs, m);
    if own.None? {
      CurrentSnoc(rs, Record(m, Sha256(e.call.token), e.call.at, false, ""), n);
    }
  }

  lemma RemovalRecords(rs: seq<Record>, e: Event, before: Option<Record>, n: string)
    requires (e.call.Revoke? || e.call.Delete?) && Current(rs, n) == Listed(before)
    ensures Current(Apply(rs, e).0, n) == Listed(EntryAfter(before, e, n))
  {
    var m := Strip(e.call.name);
    if ValidName(e.call.name) {
      CurrentRevoked(rs, m, n);
      CurrentDeleted(rs, m, n);
      PersistRecords(rs, if e.call.Revoke? then RevokeAll(rs, m) else Without(rs, m), e.fault, n);
    }
  }

  lemma PersistRecords(was: seq<Record>, now: seq<Record>, fault: Fault, n: string)
    ensures Current(Persist(was, now, fault, Done).0, n)
      == if fault.BeforeRename? then Current(was, n) else Current(now, n)
  {}

  /** Revoking a name marks its records and keeps everything else about the list. */
  lemma {:induction false} RevokeKeepsRecords(rs: seq<Record>, m: string)
    ensures |RevokeAll(rs, m)| == |rs|
    ensures forall i :: 0 <= i < |rs| ==>
      && RevokeAll(rs, m)[i].(revoked := false) == rs[i].(revoked := false)
      && (RevokeAll(rs, m)[i].revoked <==> rs[i].revoked || rs[i].name == m)
  {
    if rs != [] {
      RevokeKeepsRecords(rs[1..], m);
    }
  }

  /** Deleting a name removes its records, revoked ones included, and no other. */
  lemma {:induction false} DeleteRemovesRecords(rs: seq<Record>, m: string, r: Record)
    ensures multiset(Without(rs, m))[r] == if r.name == m then 0 else multiset(rs)[r]
  {
    if rs != [] {
      DeleteRemovesRecords(rs[1..], m, r);
      assert rs == [rs[0]] + rs[1..];
    }
  }

  /** Over every history, whatever rewrites fail, the one record a live name shows is exactly that. */
  lemma {:induction false} RecordsAreEntries(es: seq<Event>, n: string)
    ensures Current(Run(es), n) == Listed(Entry(es, n))
  {
    if es != [] {
      var front, e := es[..|es| - 1], es[|es| - 1];
      var own := if e.call.Validate? then e.call.name else Strip(e.call.name);
      RecordsAreEntries(front, n);
      RecordsAreEntries(front, own);
      if e.call.Create? {
        CreateRecords(Run(front), e, Entry(front, own), Entry(front, n), n);
      } else if e.call.Validate? {
        ValidateRecords(Run(front), e, Entry(front, own), Entry(front, n), n);
      } else {
        RemovalRecords(Run(front), e, Entry(front, n), n);
      }
    }
  }

  /** The record belongs to the live token. */
  lemma {:induction false} EntriesAreLive(es: seq<Event>, n: string)
    ensures Entry(es, n).None? <==> Live(es, n).None?
    ensures Entry(es, n).Some? ==>
      && Entry(es, n).value.name == n && !Entry(es, n).value.revoked
      && Entry(es, n).value.tokenHash == Sha256(Live(es, n).value)
  {
    if es != [] {
      EntriesAreLive(es[..|es| - 1], n);
    }
  }
}
