/** The audit writer (audit.py): what `record`, `close` and `purge_expired_rotations` do, over any
run, with any file operation failing at any point. */
module AuditLog {
  import opened AuditDisk

  datatype Config = Config(keep: nat, maxBytes: nat, retentionDays: nat)

  /** `isOpen`: the writer holds a handle on the active log. `kept`: the rows for which `record`
  returned True, oldest first. */
  datatype Log = Log(disk: Disk, isOpen: bool, closed: bool, kept: seq<Row>)

  datatype Outcome = Written | Dropped | Refused

  const STATUSES := {"ok", "error", "timeout", "not_connected"}

  /** The argument checks of `record`; it raises ValueError when they fail. */
  predicate Acceptable(row: Row) {
    row.node != "" && row.requestId != "" && row.status in STATUSES
  }

  function Append(d: Disk, row: Row, now: real): Disk
    requires Active in d
  {
    d[Active := File(d[Active].rows + [row], now)]
  }

  /** Lazy open, size check, rotation, write. */
  function Recorded(log: Log, row: Row, f: Faults, now: real, c: Config): (Log, Outcome) {
    if !Acceptable(row) then (log, Refused)
    else if log.closed then (log, Dropped)
    else if !log.isOpen && f.open then (log, Dropped)
    else
      var ready := Opened(log.disk, now);
      if !f.stat && Bytes(ready[Active].rows) >= c.maxBytes then
        var (rotated, ok) := Rotated(ready, c.keep, f, now);
        if !ok then (log.(disk := rotated, isOpen := false), Dropped)
        else WrittenTo(log, rotated, row, f, now)
      else WrittenTo(log, ready, row, f, now)
  }

  function WrittenTo(log: Log, d: Disk, row: Row, f: Faults, now: real): (Log, Outcome) {
    if f.write || Active !in d then (log.(disk := d, isOpen := true), Dropped)
    else (log.(disk := Append(d, row, now), isOpen := true, kept := log.kept + [row]), Written)
  }

  function Cutoff(now: real, c: Config): real {
    now - c.retentionDays as real * 86400.0
  }

  /** The files old enough to purge; the active log is never one of them. */
  function Expired(d: Disk, cutoff: real): set<Name> {
    set n | n in d && n != Active && d[n].mtime < cutoff
  }

  datatype Op =
    | Record(row: Row, faults: Faults)
    | Close
    | Restart
    | Purge(failing: set<Name>)

  datatype Timed = Timed(at: real, op: Op)

  function Step(log: Log, t: Timed, c: Config): Log {
    match t.op
    case Record(row, f) => Recorded(log, row, f, t.at, c).0
    case Close => log.(isOpen := false, closed := true)
    case Restart => log.(isOpen := false, closed := false)
    case Purge(failing) => log.(disk := log.disk - (Expired(log.disk, Cutoff(t.at, c)) - failing))
  }

  const EMPTY := Log(map[], false, false, [])

  function Run(ops: seq<Timed>, c: Config): Log {
    if ops == [] then EMPTY else Step(Run(ops[..|ops| - 1], c), ops[|ops| - 1], c)
  }

  /** A `record` during which nothing fails. */
  function Writes(at: real, row: Row): Timed {
    Timed(at, Record(row, NO_FAULTS))
  }

  lemma RunSnoc(ops: seq<Timed>, t: Timed, c: Config)
    ensures Run(ops + [t], c) == Step(Run(ops, c), t, c)
  {
    assert (ops + [t])[..|ops|] == ops;
  }

  predicate Clocked(ops: seq<Timed>) {
    forall i, j :: 0 <= i < j < |ops| ==> ops[i].at <= ops[j].at
  }

  function Held(log: Log, c: Config): seq<Row> {
    Chain(log.disk, Oldest(c.keep))
  }

  ghost predicate Sound(log: Log, c: Config, now: real) {
    && Suffix(Held(log, c), log.kept)
    && Aged(log.disk, Oldest(c.keep), now)
    && (log.isOpen ==> Active in log.disk)
  }

  // ---------------------------------------------------------------------
  // The log on disk is always the end of what was recorded

  lemma AppendKeeps(d: Disk, row: Row, now: real, k: nat)
    requires Active in d && Aged(d, k, now)
    ensures Chain(Append(d, row, now), k) == Chain(d, k) + [row]
    ensures Aged(Append(d, row, now), k, now)
  {
    var e := Append(d, row, now);
    ChainAppend(d, e, row, k);
    assert forall j: nat :: j > 0 && At(j) in e ==> At(j) in d && e[At(j)] == d[At(j)];
  }

  lemma {:induction false} ChainAppend(d: Disk, e: Disk, row: Row, k: nat)
    requires Rows(e, 0) == Rows(d, 0) + [row]
    requires forall j: nat :: 0 < j <= k ==> Rows(e, j) == Rows(d, j)
    ensures Chain(e, k) == Chain(d, k) + [row]
  {
    if k > 0 {
      ChainAppend(d, e, row, k - 1);
    }
  }

  lemma WriteKeepsSound(log: Log, d: Disk, row: Row, f: Faults, now: real, c: Config)
    requires Suffix(Chain(d, Oldest(c.keep)), log.kept) && Aged(d, Oldest(c.keep), now) && Active in d
    ensures Sound(WrittenTo(log, d, row, f, now).0, c, now)
  {
    if !f.write {
      AppendKeeps(d, row, now, Oldest(c.keep));
      SuffixSnoc(Chain(d, Oldest(c.keep)), log.kept, row);
    }
  }

  lemma SuffixSnoc(s: seq<Row>, t: seq<Row>, row: Row)
    requires Suffix(s, t)
    ensures Suffix(s + [row], t + [row])
  {}

  /** However a rotation breaks off, the next rows still continue a suffix of the history. */
  lemma RecordKeepsSound(log: Log, row: Row, f: Faults, now: real, c: Config)
    requires Sound(log, c, now)
    ensures Sound(Recorded(log, row, f, now, c).0, c, now)
  {
    var ready, k := Opened(log.disk, now), Oldest(c.keep);
    OpenKeepsChain(log.disk, now, k);
    OpenKeepsAge(log.disk, k, now);
    if !f.stat && Bytes(ready[Active].rows) >= c.maxBytes {
      RotationLeavesSuffix(ready, c.keep, f, now);
      RotationKeepsAge(ready, c.keep, f, now);
      var (rotated, ok) := Rotated(ready, c.keep, f, now);
      SuffixTrans(Chain(rotated, k), Chain(ready, k), log.kept);
      if ok {
        WriteKeepsSound(log, rotated, row, f, now, c);
      }
    } else {
      WriteKeepsSound(log, ready, row, f, now, c);
    }
  }

  /** The expired files of the chain are its oldest end: once a slot expires, so does every
  older one. */
  lemma ExpiryIsAnOldestEnd(d: Disk, k: nat, cutoff: real, now: real, i: nat, j: nat)
    requires Aged(d, k, now) && 0 < i < j <= k
    requires At(i) in Expired(d, cutoff) && At(j) in d
    ensures At(j) in Expired(d, cutoff)
  {
    assert d[At(j)].mtime <= d[At(i)].mtime;
  }

  /** No file with rows that goes is younger than one with rows that stays. */
  ghost predicate Orderly(d: Disk, gone: set<Name>, k: nat) {
    forall i: nat, j: nat ::
      i < j <= k && Rows(d, i) != [] && Rows(d, j) != [] && At(i) in gone ==> At(j) in gone
  }

  lemma {:induction false} OrderlyLeavesSuffix(d: Disk, gone: set<Name>, k: nat)
    requires Orderly(d, gone, k)
    ensures Suffix(Chain(d - gone, k), Chain(d, k))
  {
    var e := d - gone;
    if Rows(d, k) != [] && At(k) !in gone {
      forall i: nat | i <= k ensures Rows(e, i) == Rows(d, i) {}
      ChainSame(d, e, k);
    } else if k > 0 {
      OrderlyLeavesSuffix(d, gone, k - 1);
      assert Rows(e, k) == [] && Chain(e, k) == [] + Chain(e, k - 1) == Chain(e, k - 1);
      ShortSuffix(Chain(e, k - 1), Rows(d, k), Chain(d, k - 1));
    }
  }

  /** Removing every expired file leaves a suffix of the chain. */
  lemma PurgeLeavesSuffix(d: Disk, k: nat, cutoff: real, now: real)
    requires Aged(d, k, now)
    ensures Orderly(d, Expired(d, cutoff), k)
    ensures Suffix(Chain(d - Expired(d, cutoff), k), Chain(d, k))
  {
    forall i: nat, j: nat | i < j <= k && Rows(d, j) != [] && At(i) in Expired(d, cutoff)
      ensures At(j) in Expired(d, cutoff)
    {
      ExpiryIsAnOldestEnd(d, k, cutoff, now, i, j);
    }
    OrderlyLeavesSuffix(d, Expired(d, cutoff), k);
  }

  /** What a purge removes. */
  function Purged(d: Disk, at: real, failing: set<Name>, c: Config): set<Name> {
    Expired(d, Cutoff(at, c)) - failing
  }

  /** Retention: a purge keeps a file exactly if it is the active log, its unlink fails, or it was last
  written within the last `retentionDays` days. */
  lemma PurgeKeepsExactly(log: Log, at: real, failing: set<Name>, c: Config, n: Name)
    ensures
      var after := Step(log, Timed(at, Purge(failing)), c).disk;
      var kept := n in log.disk
        && (n == Active || n in failing
            || log.disk[n].mtime + c.retentionDays as real * (24.0 * 60.0 * 60.0) >= at);
      && (n in after <==> kept)
      && (kept ==> after[n] == log.disk[n])
  {}

  lemma PurgeKeepsSound(log: Log, at: real, failing: set<Name>, c: Config)
    requires Sound(log, c, at) && Orderly(log.disk, Purged(log.disk, at, failing, c), Oldest(c.keep))
    ensures Sound(Step(log, Timed(at, Purge(failing)), c), c, at)
  {
    var gone := Purged(log.disk, at, failing, c);
    OrderlyLeavesSuffix(log.disk, gone, Oldest(c.keep));
    SuffixTrans(Chain(log.disk - gone, Oldest(c.keep)), Held(log, c), log.kept);
  }

  /** If operation `i` is a purge, it is an orderly one. */
  ghost predicate OrderlyAt(ops: seq<Timed>, c: Config, i: nat)
    requires i < |ops|
  {
    ops[i].op.Purge? ==>
      var d := Run(ops[..i], c).disk;
      Orderly(d, Purged(d, ops[i].at, ops[i].op.failing, c), Oldest(c.keep))
  }

  lemma OrderlyFront(ops: seq<Timed>, c: Config, k: nat)
    requires k <= |ops| && forall i :: 0 <= i < |ops| ==> OrderlyAt(ops, c, i)
    ensures forall i :: 0 <= i < k ==> OrderlyAt(ops[..k], c, i)
  {
    forall i | 0 <= i < k ensures OrderlyAt(ops[..k], c, i) {
      assert ops[..k][..i] == ops[..i] && OrderlyAt(ops, c, i);
    }
  }

  lemma StepKeepsSound(log: Log, t: Timed, c: Config)
    requires Sound(log, c, t.at)
    requires t.op.Purge? ==> Orderly(log.disk, Purged(log.disk, t.at, t.op.failing, c), Oldest(c.keep))
    ensures Sound(Step(log, t, c), c, t.at)
  {
    match t.op
    case Record(row, f) => RecordKeepsSound(log, row, f, t.at, c);
    case Close =>
    case Restart =>
    case Purge(failing) => PurgeKeepsSound(log, t.at, failing, c);
  }

  function LastAt(ops: seq<Timed>): real {
    if ops == [] then 0.0 else ops[|ops| - 1].at
  }

  /** Over every run, with file operations failing anywhere in any `record`, closes, restarts, and
  purges that leave no hole: the files read oldest first are the end of the recorded history. */
  lemma {:induction false} HistoryOnDisk(ops: seq<Timed>, c: Config)
    requires Clocked(ops) && forall i :: 0 <= i < |ops| ==> OrderlyAt(ops, c, i)
    ensures Sound(Run(ops, c), c, LastAt(ops))
  {
    if ops == [] {
      EmptyIsSound(c, 0.0);
    } else {
      var n := |ops| - 1;
      var front, t := ops[..n], ops[n];
      OrderlyFront(ops, c, n);
      HistoryOnDisk(front, c);
      if front == [] {
        EmptyIsSound(c, t.at);
      } else {
        LaterIsSound(Run(front, c), c, LastAt(front), t.at);
      }
      assert OrderlyAt(ops, c, n);
      StepKeepsSound(Run(front, c), t, c);
    }
  }

  lemma EmptyIsSound(c: Config, now: real)
    ensures Sound(EMPTY, c, now)
  {
    EmptyChain(Oldest(c.keep));
  }

  /** A purge whose unlinks all succeed is orderly, so then nothing more is asked of a run. */
  lemma {:induction false} CleanPurgesAreOrderly(ops: seq<Timed>, c: Config)
    requires Clocked(ops)
    requires forall i :: 0 <= i < |ops| && ops[i].op.Purge? ==> ops[i].op.failing == {}
    ensures forall i :: 0 <= i < |ops| ==> OrderlyAt(ops, c, i)
    ensures Sound(Run(ops, c), c, LastAt(ops))
  {
    if ops != [] {
      var n := |ops| - 1;
      var front, t := ops[..n], ops[n];
      CleanPurgesAreOrderly(front, c);
      forall i | 0 <= i < n ensures OrderlyAt(ops, c, i) {
        assert front[..i] == ops[..i] && OrderlyAt(front, c, i);
      }
      CleanPurgeIsOrderly(Run(front, c), LastAt(front), t, c);
      assert OrderlyAt(ops, c, n);
    }
    HistoryOnDisk(ops, c);
  }

  lemma CleanPurgeIsOrderly(log: Log, now: real, t: Timed, c: Config)
    requires Sound(log, c, now) && (t.op.Purge? ==> t.op.failing == {})
    ensures t.op.Purge? ==> Orderly(log.disk, Purged(log.disk, t.at, t.op.failing, c), Oldest(c.keep))
  {
    var expired := Expired(log.disk, Cutoff(t.at, c));
    PurgeLeavesSuffix(log.disk, Oldest(c.keep), Cutoff(t.at, c), now);
    assert expired - {} == expired;
  }

  /** After a close and until a restart nothing is recorded and no file is written or renamed, whatever
  is called; only purges still remove files. */
  lemma {:induction false} ClosedUntilRestart(ops: seq<Timed>, i: nat, c: Config)
    requires i < |ops| && ops[i].op.Close? && forall j :: i < j < |ops| ==> !ops[j].op.Restart?
    ensures
      var before, after := Run(ops[..i], c), Run(ops, c);
      && after.closed && after.kept == before.kept && after.disk.Items <= before.disk.Items
      && ((forall j :: i < j < |ops| ==> !ops[j].op.Purge?) ==> after.disk == before.disk)
  {
    var n := |ops| - 1;
    var front := ops[..n];
    if i < n {
      assert front[..i] == ops[..i];
      ClosedUntilRestart(front, i, c);
      ClosedStep(Run(front, c), ops[n], c);
    } else {
      assert ops[..i] == front;
    }
  }

  lemma ClosedStep(log: Log, t: Timed, c: Config)
    requires log.closed && !t.op.Restart?
    ensures
      var after := Step(log, t, c);
      && after.closed && after.kept == log.kept && after.disk.Items <= log.disk.Items
      && (!t.op.Purge? ==> after.disk == log.disk)
  {}

  /** The writer is closed exactly if it was closed at some point and not restarted since. */
  lemma {:induction false} ClosedExactly(ops: seq<Timed>, c: Config)
    ensures Run(ops, c).closed
      <==> exists i :: 0 <= i < |ops| && ops[i].op.Close? && forall j :: i < j < |ops| ==> !ops[j].op.Restart?
  {
    if ops != [] {
      var n := |ops| - 1;
      var front := ops[..n];
      ClosedExactly(front, c);
      StepCloses(Run(front, c), ops[n], c);
      if Run(front, c).closed && !ops[n].op.Restart? {
        var i :| 0 <= i < n && front[i].op.Close? && forall j :: i < j < n ==> !front[j].op.Restart?;
        assert ops[i].op.Close? && forall j :: i < j < |ops| ==> !ops[j].op.Restart?;
      }
      if i :| 0 <= i < n && ops[i].op.Close? && forall j :: i < j < |ops| ==> !ops[j].op.Restart? {
        assert front[i].op.Close? && forall j :: i < j < n ==> !front[j].op.Restart?;
      }
    }
  }

  lemma StepCloses(log: Log, t: Timed, c: Config)
    ensures Step(log, t, c).closed == (t.op.Close? || (log.closed && !t.op.Restart?))
  {}

  lemma {:induction false} ShiftCompletesExactly(d: Disk, i: nat, bad: set<nat>)
    ensures Shift(d, i, bad).1 <==> forall j: nat :: 1 <= j <= i && Slot(j) in d ==> j !in bad
    ensures Active in Shift(d, i, bad).0 <==> Active in d
    decreases i
  {
    if i > 0 {
      if Slot(i) !in d {
        ShiftCompletesExactly(d, i - 1, bad);
      } else if i !in bad {
        var e := Move(d, Slot(i), Slot(i + 1));
        ShiftCompletesExactly(e, i - 1, bad);
        assert forall j: nat :: j < i ==> (Slot(j) in e <==> Slot(j) in d);
      }
    }
  }

  /** No step of the rotation fails. */
  ghost predicate Rotates(d: Disk, keep: nat, f: Faults) {
    !f.unlink && !f.reopen && 0 !in f.rename && forall j: nat :: 1 <= j < keep && Slot(j) in d ==> j !in f.rename
  }

  lemma RotatesExactly(d: Disk, keep: nat, f: Faults, now: real)
    requires Active in d
    ensures Rotated(d, keep, f, now).1 <==> Rotates(d, keep, f)
    ensures Rotates(d, keep, f) ==> Active in Rotated(d, keep, f, now).0
  {
    ShiftCompletesExactly(d - {Slot(keep)}, if keep == 0 then 0 else keep - 1, f.rename);
  }

  /** `record` raises exactly for a row without a node, a request id or one of the four statuses. For the
  others it returns True exactly if the writer is not closed, its log is or gets opened, a rotation that
  is due goes through, and the write does; a failed write leaves the log open. */
  lemma RecordSucceedsExactly(log: Log, row: Row, f: Faults, now: real, c: Config)
    requires log.isOpen ==> Active in log.disk
    ensures
      var acceptable := row.node != "" && row.requestId != ""
        && (row.status == "ok" || row.status == "error" || row.status == "timeout" || row.status == "not_connected");
      var size := if Active in log.disk then Bytes(log.disk[Active].rows) else 0;
      var ready := !log.closed && (log.isOpen || !f.open)
        && (!f.stat && size >= c.maxBytes ==> Rotates(log.disk, c.keep, f));
      var (after, out) := Recorded(log, row, f, now, c);
      && (out.Refused? <==> !acceptable)
      && (out.Written? <==> acceptable && ready && !f.write)
      && (acceptable && ready ==> after.isOpen)
      && (acceptable && !log.closed && !ready ==> !after.isOpen)
  {
    var ready := Opened(log.disk, now);
    RotatesExactly(ready, c.keep, f, now);
    assert forall j: nat :: Slot(j) in ready <==> Slot(j) in log.disk;
  }

  lemma {:induction false} ShiftKeepsOldFiles(d: Disk, i: nat, bad: set<nat>, n: Name)
    requires n in Shift(d, i, bad).0
    ensures Shift(d, i, bad).0[n] in d.Values
    decreases i
  {
    if i > 0 {
      if Slot(i) !in d {
        ShiftKeepsOldFiles(d, i - 1, bad, n);
      } else if i !in bad {
        ShiftKeepsOldFiles(Move(d, Slot(i), Slot(i + 1)), i - 1, bad, n);
      }
    }
  }

  lemma RotationKeepsOldFiles(d: Disk, keep: nat, f: Faults, now: real, n: Name)
    requires n in Rotated(d, keep, f, now).0
    ensures Rotated(d, keep, f, now).0[n] in d.Values || (n == Active && Rotated(d, keep, f, now).0[n] == File([], now))
  {
    var freed, from := d - {Slot(keep)}, if keep == 0 then 0 else keep - 1;
    var shifted := Shift(freed, from, f.rename).0;
    forall m | m in shifted ensures shifted[m] in freed.Values {
      ShiftKeepsOldFiles(freed, from, f.rename, m);
    }
  }

  /** The age of a file is the time since it was last written: what an operation does not write to keeps its
  rows and its time, whatever slot it moves to, and everything else carries the operation's time. */
  lemma AgeIsLastWrite(log: Log, t: Timed, c: Config, n: Name)
    requires c.maxBytes > 0 && n in Step(log, t, c).disk
    ensures
      var file := Step(log, t, c).disk[n];
      file in log.disk.Values || (t.op.Record? && n == Active && file.mtime == t.at)
  {
    if t.op.Record? {
      var ready := Opened(log.disk, t.at);
      assert Bytes(ready[Active].rows) > 0 ==> ready == log.disk;
      if n in Rotated(ready, c.keep, t.op.faults, t.at).0 {
        RotationKeepsOldFiles(ready, c.keep, t.op.faults, t.at, n);
      }
    }
  }

  lemma LaterIsSound(log: Log, c: Config, now: real, later: real)
    requires Sound(log, c, now) && now <= later
    ensures Sound(log, c, later)
  {}

  lemma {:induction false} EmptyChain(k: nat)
    ensures Chain(map[], k) == []
  {
    if k > 0 {
      EmptyChain(k - 1);
    }
  }

  /** A row is the last one on disk exactly when `record` says it was written; otherwise nothing
  is added. */
  lemma WrittenIsLast(log: Log, row: Row, f: Faults, now: real, c: Config)
    requires Sound(log, c, now)
    ensures
      var (after, out) := Recorded(log, row, f, now, c);
      && (out.Written? ==> after.kept == log.kept + [row] && EndsWith(Held(after, c), row))
      && (!out.Written? ==> after.kept == log.kept && Suffix(Held(after, c), Held(log, c)))
  {
    var ready, k := Opened(log.disk, now), Oldest(c.keep);
    OpenKeepsChain(log.disk, now, k);
    OpenKeepsAge(log.disk, k, now);
    if !f.stat && Bytes(ready[Active].rows) >= c.maxBytes {
      RotationLeavesSuffix(ready, c.keep, f, now);
      RotationKeepsAge(ready, c.keep, f, now);
      WriteEnds(log, Rotated(ready, c.keep, f, now).0, row, f, now, c);
    } else {
      WriteEnds(log, ready, row, f, now, c);
    }
  }

  predicate EndsWith(s: seq<Row>, row: Row) {
    s != [] && s[|s| - 1] == row
  }

  lemma WriteEnds(log: Log, d: Disk, row: Row, f: Faults, now: real, c: Config)
    requires Aged(d, Oldest(c.keep), now)
    ensures
      var (after, out) := WrittenTo(log, d, row, f, now);
      if out.Written? then after.kept == log.kept + [row] && EndsWith(Held(after, c), row)
      else after.kept == log.kept && Held(after, c) == Chain(d, Oldest(c.keep))
  {
    if Active in d {
      AppendKeeps(d, row, now, Oldest(c.keep));
    }
  }

  // ---------------------------------------------------------------------
  // Purging when some unlinks fail

  /** `e` is `d` with the rows of some slots gone. */
  ghost predicate Thinned(d: Disk, e: Disk, k: nat) {
    forall i: nat :: i <= k ==> Rows(e, i) == Rows(d, i) || Rows(e, i) == []
  }

  /** The `k` youngest files keep their rows. */
  ghost predicate LosesNone(d: Disk, e: Disk, k: nat) {
    forall i: nat :: i < k ==> Rows(e, i) == Rows(d, i)
  }

  /** No slot with rows that stays is older than one whose rows go. */
  ghost predicate Tidy(d: Disk, e: Disk, k: nat) {
    forall j: nat :: j <= k && Rows(e, j) != [] ==> LosesNone(d, e, j)
  }

  predicate Distinct(s: seq<Row>) {
    forall i, j :: 0 <= i < j < |s| ==> s[i] != s[j]
  }

  lemma {:induction false} ThinningLength(d: Disk, e: Disk, k: nat)
    requires Thinned(d, e, k)
    ensures |Chain(e, k)| <= |Chain(d, k)|
    ensures |Chain(e, k)| == |Chain(d, k)| <==> LosesNone(d, e, k + 1)
    ensures LosesNone(d, e, k + 1) ==> Chain(e, k) == Chain(d, k)
  {
    if k > 0 {
      ThinningLength(d, e, k - 1);
      assert LosesNone(d, e, k + 1) <==> LosesNone(d, e, k) && Rows(e, k) == Rows(d, k);
    } else {
      assert LosesNone(d, e, 1) <==> Rows(e, 0) == Rows(d, 0);
    }
  }

  lemma StayingSlot(d: Disk, e: Disk, k: nat)
    requires k > 0 && Rows(d, k) != [] && Rows(e, k) == Rows(d, k) && Distinct(Chain(d, k))
    requires |Chain(e, k - 1)| <= |Chain(d, k - 1)|
    ensures Suffix(Chain(e, k), Chain(d, k)) <==> Chain(e, k - 1) == Chain(d, k - 1)
  {
    HeadPinsSuffix(Rows(d, k), Chain(e, k - 1), Chain(d, k - 1));
  }

  lemma GoingSlot(d: Disk, e: Disk, k: nat)
    requires k > 0 && Rows(e, k) == []
    requires |Chain(e, k - 1)| <= |Chain(d, k - 1)|
    ensures Suffix(Chain(e, k), Chain(d, k)) <==> Suffix(Chain(e, k - 1), Chain(d, k - 1))
  {
    assert Chain(e, k) == Chain(e, k - 1);
    ShortSuffix(Chain(e, k - 1), Rows(d, k), Chain(d, k - 1));
  }

  lemma {:induction false} TidyLeavesSuffix(d: Disk, e: Disk, k: nat)
    requires Thinned(d, e, k) && Distinct(Chain(d, k))
    ensures Suffix(Chain(e, k), Chain(d, k)) <==> Tidy(d, e, k)
  {
    TidyUnfolds(d, e, k);
    if k == 0 {
      AllOrNothing(Rows(e, 0), Rows(d, 0));
    } else if Rows(e, k) != [] {
      TidyStays(d, e, k);
    } else {
      DistinctTail(Rows(d, k), Chain(d, k - 1));
      TidyLeavesSuffix(d, e, k - 1);
      TidyGoes(d, e, k);
    }
  }

  lemma TidyStays(d: Disk, e: Disk, k: nat)
    requires k > 0 && Thinned(d, e, k) && Distinct(Chain(d, k)) && Rows(e, k) != []
    ensures Suffix(Chain(e, k), Chain(d, k)) <==> LosesNone(d, e, k)
  {
    ThinningLength(d, e, k - 1);
    StayingSlot(d, e, k);
  }

  lemma TidyGoes(d: Disk, e: Disk, k: nat)
    requires k > 0 && Thinned(d, e, k) && Rows(e, k) == []
    ensures Suffix(Chain(e, k), Chain(d, k)) <==> Suffix(Chain(e, k - 1), Chain(d, k - 1))
  {
    ThinningLength(d, e, k - 1);
    GoingSlot(d, e, k);
  }

  lemma AllOrNothing(s: seq<Row>, t: seq<Row>)
    requires s == t || s == []
    ensures Suffix(s, t)
  {}

  lemma TidyUnfolds(d: Disk, e: Disk, k: nat)
    ensures Rows(e, k) != [] ==> (Tidy(d, e, k) <==> LosesNone(d, e, k))
    ensures Rows(e, k) == [] && k > 0 ==> (Tidy(d, e, k) <==> Tidy(d, e, k - 1))
    ensures k == 0 ==> Tidy(d, e, k)
  {}

  lemma DistinctTail(head: seq<Row>, t: seq<Row>)
    requires Distinct(head + t)
    ensures Distinct(t)
  {
    assert t == (head + t)[|head|..];
  }

  /** Exactly when a purge leaves a suffix, rows being distinct: no expired file with rows whose
  unlink succeeds is younger than a file with rows that stays. */
  lemma PurgeSuffixExactly(d: Disk, k: nat, cutoff: real, failing: set<Name>)
    requires Distinct(Chain(d, k))
    ensures
      var gone := Expired(d, cutoff) - failing;
      Suffix(Chain(d - gone, k), Chain(d, k)) <==> Orderly(d, gone, k)
  {
    var gone := Expired(d, cutoff) - failing;
    var e := d - gone;
    assert forall i: nat :: Rows(e, i) == if At(i) in gone then [] else Rows(d, i);
    TidyLeavesSuffix(d, e, k);
    forall i: nat, j: nat | i < j <= k && Rows(d, i) != [] && Rows(d, j) != [] && Tidy(d, e, k) && At(i) in gone
      ensures At(j) in gone
    {
      assert Rows(e, j) == [] || LosesNone(d, e, j);
    }
  }

  lemma ShortSuffix(s: seq<Row>, head: seq<Row>, t: seq<Row>)
    requires |s| <= |t|
    ensures Suffix(s, head + t) <==> Suffix(s, t)
  {
    assert (head + t)[|head + t| - |s|..] == t[|t| - |s|..];
  }

  /** With distinct rows, a suffix that starts with the first row is everything. */
  lemma HeadPinsSuffix(head: seq<Row>, s: seq<Row>, t: seq<Row>)
    requires head != [] && |s| <= |t| && Distinct(head + t)
    ensures Suffix(head + s, head + t) <==> s == t
  {
    if Suffix(head + s, head + t) {
      assert (head + t)[|t| - |s|] == (head + s)[0];
      assert (head + s)[0] == (head + t)[0];
      assert |s| == |t|;
      assert s == (head + s)[|head|..];
      assert t == (head + t)[|head|..];
    }
  }
}
