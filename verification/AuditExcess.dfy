/** Exactly when the documented bound on the audit log, `(keep + 1) * max_bytes`, holds of every run:
the size is checked before a row is written, so each file can end one row over the threshold. */
module AuditExcess {
  import opened AuditDisk
  import opened AuditLog
  import opened AuditBounds

  /** The first `r` slots are filled. */
  ghost predicate Filled(d: Disk, r: nat, keep: nat) {
    forall j: nat :: 0 < j <= keep ==> (Slot(j) in d <==> j <= r)
  }

  /** The first `r` slots are filled, and nothing that was recorded is gone. */
  ghost predicate Clean(log: Log, r: nat, c: Config) {
    && !log.closed && Slot(0) !in log.disk && Filled(log.disk, r, Oldest(c.keep)) && Held(log, c) == log.kept
  }

  function ActiveBytes(log: Log): nat {
    Bytes(Rows(log.disk, 0))
  }

  lemma BytesSnoc(rows: seq<Row>, row: Row)
    ensures Bytes(rows + [row]) == Bytes(rows) + row.bytes
  {
    assert (rows + [row])[..|rows|] == rows;
  }

  lemma {:induction false} BytesConcat(a: seq<Row>, b: seq<Row>)
    ensures Bytes(a + b) == Bytes(a) + Bytes(b)
  {
    if b == [] {
      assert a + b == a;
    } else {
      var n := |b| - 1;
      BytesConcat(a, b[..n]);
      assert (a + b)[..|a| + n] == a + b[..n];
    }
  }

  lemma {:induction false} TotalIsChain(d: Disk, k: nat)
    ensures TotalBytes(d, k) == Bytes(Chain(d, k))
  {
    if k > 0 {
      TotalIsChain(d, k - 1);
      BytesConcat(Rows(d, k), Chain(d, k - 1));
    } else {
      assert Rows(d, 0) + [] == Rows(d, 0);
    }
  }

  /** A rotation that finds its oldest slot free loses nothing. */
  lemma CleanlyRotated(d: Disk, r: nat, keep: nat, now: real)
    requires r < Oldest(keep) && Active in d && Filled(d, r, Oldest(keep)) && Slot(0) !in d
    ensures
      var (after, ok) := Rotated(d, keep, NO_FAULTS, now);
      && ok && Active in after && Rows(after, 0) == [] && Chain(after, Oldest(keep)) == Chain(d, Oldest(keep))
      && Filled(after, r + 1, Oldest(keep)) && Slot(0) !in after
  {
    assert d - {Slot(keep)} == d;
    if keep > 0 {
      RotationDropsOnlyOldest(d, keep, NO_FAULTS, now);
      ShiftedSlots(d, r, keep, now);
    } else {
      SwapKeepsChain(d, NO_FAULTS, now, 1);
    }
  }

  lemma ShiftedSlots(d: Disk, r: nat, keep: nat, now: real)
    requires r < keep && Active in d && Filled(d, r, keep) && Slot(0) !in d
    ensures
      var (after, ok) := Rotated(d, keep, NO_FAULTS, now);
      && ok && Active in after && Rows(after, 0) == [] && Filled(after, r + 1, keep) && Slot(0) !in after
  {
    assert d - {Slot(keep)} == d;
    CleanShift(d, keep - 1);
    ShiftSparesZero(d, keep - 1);
    var (shifted, _) := Shift(d, keep - 1, {});
    var after := Rotated(d, keep, NO_FAULTS, now).0;
    assert forall j: nat :: 0 < j < keep ==> (Slot(j + 1) in after <==> Slot(j) in d);
    forall j: nat | 0 < j <= keep ensures Slot(j) in after <==> j <= r + 1 {
      if j > 1 {
        assert Slot(j - 1) in d <==> j - 1 <= r;
      }
    }
  }

  lemma {:induction false} ShiftSparesZero(d: Disk, i: nat)
    requires Slot(0) !in d
    ensures Slot(0) !in Shift(d, i, {}).0
    decreases i
  {
    if i > 0 {
      ShiftSparesZero(if Slot(i) in d then Move(d, Slot(i), Slot(i + 1)) else d, i - 1);
    }
  }

  lemma OpenedStaysClean(d: Disk, r: nat, keep: nat)
    requires Filled(d, r, keep)
    ensures Filled(Opened(d, 0.0), r, keep) && Chain(Opened(d, 0.0), keep) == Chain(d, keep)
    ensures Rows(Opened(d, 0.0), 0) == Rows(d, 0) && (Slot(0) in Opened(d, 0.0) <==> Slot(0) in d)
  {
    OpenKeepsChain(d, 0.0, keep);
  }

  lemma AppendStaysClean(d: Disk, row: Row, r: nat, keep: nat)
    requires Active in d && Filled(d, r, keep)
    ensures
      var after := Append(d, row, 0.0);
      && Filled(after, r, keep) && Chain(after, keep) == Chain(d, keep) + [row]
      && Bytes(Rows(after, 0)) == Bytes(Rows(d, 0)) + row.bytes
  {
    AppendedRows(d, row);
    BytesSnoc(Rows(d, 0), row);
    ChainAppend(d, Append(d, row, 0.0), row, keep);
  }

  lemma AppendedRows(d: Disk, row: Row)
    requires Active in d
    ensures Append(d, row, 0.0).Keys == d.Keys && Rows(Append(d, row, 0.0), 0) == Rows(d, 0) + [row]
    ensures forall j: nat :: j > 0 ==> Rows(Append(d, row, 0.0), j) == Rows(d, j)
  {}

  /** Where a faultless write finds the log: as it is, or rotated if it is full. */
  function Target(log: Log, c: Config): Disk {
    var ready := Opened(log.disk, 0.0);
    if ActiveBytes(log) >= c.maxBytes then Rotated(ready, c.keep, NO_FAULTS, 0.0).0 else ready
  }

  lemma TargetIsClean(log: Log, r: nat, c: Config)
    requires Clean(log, r, c) && (ActiveBytes(log) >= c.maxBytes ==> r < Oldest(c.keep))
    ensures
      var d, full := Target(log, c), ActiveBytes(log) >= c.maxBytes;
      && Active in d && Slot(0) !in d
      && Filled(d, if full then r + 1 else r, Oldest(c.keep)) && Chain(d, Oldest(c.keep)) == log.kept
      && Bytes(Rows(d, 0)) == if full then 0 else ActiveBytes(log)
    ensures ActiveBytes(log) >= c.maxBytes ==> Rotated(Opened(log.disk, 0.0), c.keep, NO_FAULTS, 0.0).1
  {
    OpenedStaysClean(log.disk, r, Oldest(c.keep));
    if ActiveBytes(log) >= c.maxBytes {
      CleanlyRotated(Opened(log.disk, 0.0), r, c.keep, 0.0);
    }
  }

  lemma WriteGoesThrough(log: Log, row: Row, c: Config)
    requires !log.closed && Acceptable(row) && Active in Target(log, c)
    requires ActiveBytes(log) >= c.maxBytes ==> Rotated(Opened(log.disk, 0.0), c.keep, NO_FAULTS, 0.0).1
    ensures Step(log, Writes(0.0, row), c) == Log(Append(Target(log, c), row, 0.0), true, false, log.kept + [row])
  {
    assert Rows(Opened(log.disk, 0.0), 0) == Rows(log.disk, 0);
  }

  /** Writing a row, after a rotation if the active log is full. */
  lemma WriteIsClean(log: Log, row: Row, r: nat, c: Config)
    requires Clean(log, r, c) && Acceptable(row) && (ActiveBytes(log) >= c.maxBytes ==> r < Oldest(c.keep))
    ensures
      var after, full := Step(log, Writes(0.0, row), c), ActiveBytes(log) >= c.maxBytes;
      && Clean(after, if full then r + 1 else r, c)
      && ActiveBytes(after) == (if full then 0 else ActiveBytes(log)) + row.bytes
      && Bytes(after.kept) == Bytes(log.kept) + row.bytes
  {
    TargetIsClean(log, r, c);
    WriteGoesThrough(log, row, c);
    AppendStaysClean(Target(log, c), row, if ActiveBytes(log) >= c.maxBytes then r + 1 else r, Oldest(c.keep));
    BytesSnoc(log.kept, row);
  }

  /** The state of a run with `r` slots filled, `active` bytes in the log and `total` on disk. */
  ghost predicate Stands(ops: seq<Timed>, c: Config, line: nat, r: nat, active: nat, total: nat) {
    && Modest(ops, line)
    && Clean(Run(ops, c), r, c) && ActiveBytes(Run(ops, c)) == active && Bytes(Run(ops, c).kept) == total
  }

  lemma Add(ops: seq<Timed>, row: Row, c: Config, line: nat, r: nat, active: nat, total: nat)
    requires Stands(ops, c, line, r, active, total) && Acceptable(row) && row.bytes <= line
    requires c.maxBytes > 0 && (active >= c.maxBytes ==> r < Oldest(c.keep))
    ensures
      if active >= c.maxBytes then Stands(ops + [Writes(0.0, row)], c, line, r + 1, row.bytes, total + row.bytes)
      else Stands(ops + [Writes(0.0, row)], c, line, r, active + row.bytes, total + row.bytes)
  {
    ModestSnoc(ops, row, line);
    RunSnoc(ops, Writes(0.0, row), c);
    WriteIsClean(Run(ops, c), row, r, c);
  }

  lemma ModestSnoc(ops: seq<Timed>, row: Row, line: nat)
    requires Modest(ops, line) && row.bytes <= line
    ensures Modest(ops + [Writes(0.0, row)], line)
  {}

  /** One-byte rows up to one byte below the threshold. */
  lemma {:induction false} Pour(ops: seq<Timed>, small: Row, n: nat, c: Config, line: nat,
                                r: nat, active: nat, total: nat)
    returns (more: seq<Timed>)
    requires Stands(ops, c, line, r, active, total) && Acceptable(small) && small.bytes == 1 <= line
    requires active + n < c.maxBytes
    ensures Stands(more, c, line, r, active + n, total + n)
    decreases n
  {
    if n == 0 {
      more := ops;
    } else {
      Add(ops, small, c, line, r, active, total);
      more := Pour(ops + [Writes(0.0, small)], small, n - 1, c, line, r, active + 1, total + 1);
    }
  }

  /** One more file, as full as it can get. */
  lemma FillFile(ops: seq<Timed>, small: Row, big: Row, c: Config, r: nat, active: nat, total: nat)
    returns (more: seq<Timed>)
    requires Acceptable(small) && Acceptable(big) && small.bytes == 1 <= big.bytes
    requires c.maxBytes > 0 && r < Oldest(c.keep) && active >= c.maxBytes
    requires Stands(ops, c, big.bytes, r, active, total)
    ensures Stands(more, c, big.bytes, r + 1, c.maxBytes - 1 + big.bytes, total + c.maxBytes - 1 + big.bytes)
  {
    var line := big.bytes;
    if c.maxBytes == 1 {
      Add(ops, big, c, line, r, active, total);
      more := ops + [Writes(0.0, big)];
    } else {
      Add(ops, small, c, line, r, active, total);
      more := Pour(ops + [Writes(0.0, small)], small, c.maxBytes - 2, c, line, r + 1, 1, total + 1);
      Add(more, big, c, line, r + 1, c.maxBytes - 1, total + c.maxBytes - 1);
      more := more + [Writes(0.0, big)];
    }
  }

  lemma FillFirst(small: Row, big: Row, c: Config) returns (ops: seq<Timed>)
    requires Acceptable(small) && Acceptable(big) && small.bytes == 1 <= big.bytes && c.maxBytes > 0
    ensures Stands(ops, c, big.bytes, 0, c.maxBytes - 1 + big.bytes, c.maxBytes - 1 + big.bytes)
  {
    EmptyStands(c, big.bytes);
    ops := Pour([], small, c.maxBytes - 1, c, big.bytes, 0, 0, 0);
    Add(ops, big, c, big.bytes, 0, c.maxBytes - 1, c.maxBytes - 1);
    ops := ops + [Writes(0.0, big)];
  }

  lemma EmptyStands(c: Config, line: nat)
    ensures Stands([], c, line, 0, 0, 0)
  {
    EmptyChain(Oldest(c.keep));
  }

  lemma {:induction false} FillAll(small: Row, big: Row, c: Config, r: nat, file: nat) returns (ops: seq<Timed>)
    requires Acceptable(small) && Acceptable(big) && small.bytes == 1 <= big.bytes
    requires c.maxBytes > 0 && r <= Oldest(c.keep) && file == c.maxBytes - 1 + big.bytes
    ensures Stands(ops, c, big.bytes, r, file, (r + 1) * file)
  {
    if r == 0 {
      ops := FillFirst(small, big, c);
      assert 1 * file == file;
    } else {
      ops := FillAll(small, big, c, r - 1, file);
      OneMore(r, file);
      ops := FillFile(ops, small, big, c, r - 1, file, r * file);
    }
  }

  // ---------------------------------------------------------------------

  /** What the documentation promises of every run with rows of up to `line` bytes. */
  ghost predicate BoundHolds(c: Config, line: nat) {
    forall ops :: Modest(ops, line) ==> TotalBytes(Run(ops, c).disk, Oldest(c.keep)) <= (c.keep + 1) * c.maxBytes
  }

  /** The documented bound holds of every run exactly if no row is longer than one byte, or, when
  `keep` is 0 and a `.1` file is kept all the same, if every row is empty. */
  lemma DocumentedBoundExactly(c: Config, line: nat)
    requires c.maxBytes > 0
    ensures BoundHolds(c, line) <==> line <= if c.keep > 0 then 1 else 0
  {
    if line <= if c.keep > 0 then 1 else 0 {
      forall ops | Modest(ops, line)
        ensures TotalBytes(Run(ops, c).disk, Oldest(c.keep)) <= (c.keep + 1) * c.maxBytes
      {
        ShortRowsKeepBound(ops, c, line);
      }
    } else {
      var ops := LongRowsBreakBound(c, line);
    }
  }

  lemma ShortRowsKeepBound(ops: seq<Timed>, c: Config, line: nat)
    requires c.maxBytes > 0 && Modest(ops, line) && line <= if c.keep > 0 then 1 else 0
    ensures TotalBytes(Run(ops, c).disk, Oldest(c.keep)) <= (c.keep + 1) * c.maxBytes
  {
    if c.keep > 0 {
      DiskFootprint(ops, c, line);
      Scales(c.keep + 1, c.maxBytes - 1 + line, c.maxBytes);
    } else {
      EmptyRowsNeverRotate(ops, c);
      assert TotalBytes(Run(ops, c).disk, 1) == Bytes([]) + TotalBytes(Run(ops, c).disk, 0);
    }
  }

  lemma {:induction false} EmptyRowsNeverRotate(ops: seq<Timed>, c: Config)
    requires c.maxBytes > 0 && Short(ops, 0)
    ensures Run(ops, c).disk.Keys <= {Active} && ActiveBytes(Run(ops, c)) == 0
  {
    if ops != [] {
      var front, t := ops[..|ops| - 1], ops[|ops| - 1];
      EmptyRowsNeverRotate(front, c);
      if t.op.Record? {
        var log := Run(front, c);
        assert Rows(Opened(log.disk, t.at), 0) == Rows(log.disk, 0);
        BytesSnoc(Rows(log.disk, 0), t.op.row);
      }
    }
  }

  /** For every configuration the proved bound is reached: a run that fills every file to the brim. */
  lemma FootprintIsTight(c: Config, line: nat) returns (ops: seq<Timed>)
    requires c.maxBytes > 0 && line > 0
    ensures Modest(ops, line)
    ensures TotalBytes(Run(ops, c).disk, Oldest(c.keep)) == (Oldest(c.keep) + 1) * (c.maxBytes - 1 + line)
  {
    ops := FillAll(RowOf(1), RowOf(line), c, Oldest(c.keep), c.maxBytes - 1 + line);
    TotalIsChain(Run(ops, c).disk, Oldest(c.keep));
  }

  lemma LongRowsBreakBound(c: Config, line: nat) returns (ops: seq<Timed>)
    requires c.maxBytes > 0 && line > if c.keep > 0 then 1 else 0
    ensures Modest(ops, line) && TotalBytes(Run(ops, c).disk, Oldest(c.keep)) > (c.keep + 1) * c.maxBytes
  {
    ops := FootprintIsTight(c, line);
    if c.keep > 0 {
      Exceeds(c.keep + 1, c.maxBytes, line);
    }
  }

  function RowOf(bytes: nat): (row: Row)
    ensures Acceptable(row) && row.bytes == bytes
  {
    Row("n", "id", "ok", 0, bytes)
  }

  lemma Exceeds(k: nat, m: nat, line: nat)
    requires k > 0 && line > 1
    ensures k * (m - 1 + line) > k * m
  {
    assert k * (m - 1 + line) == k * m + k * (line - 1);
  }

  /** For example: ten bytes a file, one rotation and rows of at most nine bytes can come to 36 bytes
  on disk, where the documentation promises at most 20. */
  lemma DocumentedBoundFails() returns (ops: seq<Timed>)
    ensures Modest(ops, 9) && TotalBytes(Run(ops, Config(1, 10, 365)).disk, 1) == 36 > (1 + 1) * 10
  {
    ops := FootprintIsTight(Config(1, 10, 365), 9);
  }

  // ---------------------------------------------------------------------
  // When the size of the active log cannot be read

  /** Rows of at most `line` bytes, and no other condition. */
  predicate Short(ops: seq<Timed>, line: nat) {
    forall i :: 0 <= i < |ops| && ops[i].op.Record? ==> ops[i].op.row.bytes <= line
  }

  /** The promise without the condition that the size of the active log can always be read. */
  ghost predicate BoundAlwaysHolds(c: Config, line: nat) {
    forall ops :: Short(ops, line) ==> TotalBytes(Run(ops, c).disk, Oldest(c.keep)) <= (c.keep + 1) * c.maxBytes
  }

  const BLIND := Faults(false, true, false, {}, false, false)

  /** While the size cannot be read nothing rotates, and the active log grows without limit. */
  lemma {:induction false} BlindRun(c: Config, row: Row, n: nat) returns (ops: seq<Timed>)
    requires Acceptable(row) && row.bytes == 1
    ensures Short(ops, 1) && !Run(ops, c).closed && Run(ops, c).disk.Keys <= {Active} && ActiveBytes(Run(ops, c)) == n
  {
    if n == 0 {
      ops := [];
    } else {
      var front := BlindRun(c, row, n - 1);
      var t := Timed(0.0, Record(row, BLIND));
      ops := front + [t];
      RunSnoc(front, t, c);
      BlindStep(Run(front, c), row, t, c);
    }
  }

  lemma BlindStep(log: Log, row: Row, t: Timed, c: Config)
    requires Acceptable(row) && t == Timed(0.0, Record(row, BLIND)) && !log.closed && log.disk.Keys <= {Active}
    ensures
      var after := Step(log, t, c);
      !after.closed && after.disk.Keys <= {Active} && ActiveBytes(after) == ActiveBytes(log) + row.bytes
  {
    assert Rows(Opened(log.disk, 0.0), 0) == Rows(log.disk, 0);
    BytesSnoc(Rows(log.disk, 0), row);
  }

  lemma {:induction false} ActiveIsAll(d: Disk, k: nat)
    requires d.Keys <= {Active}
    ensures TotalBytes(d, k) == Bytes(Rows(d, 0))
  {
    if k > 0 {
      ActiveIsAll(d, k - 1);
    }
  }

  /** If reading the size of the active log may fail, the documented bound holds of every run exactly if
  every row is empty. */
  lemma BoundAlwaysHoldsExactly(c: Config, line: nat)
    requires c.maxBytes > 0
    ensures BoundAlwaysHolds(c, line) <==> line == 0
  {
    if line == 0 {
      forall ops | Short(ops, line)
        ensures TotalBytes(Run(ops, c).disk, Oldest(c.keep)) <= (c.keep + 1) * c.maxBytes
      {
        EmptyRowsNeverRotate(ops, c);
        ActiveIsAll(Run(ops, c).disk, Oldest(c.keep));
        Scales(c.keep + 1, 0, c.maxBytes);
      }
    } else {
      var ops := BlindRun(c, RowOf(1), (c.keep + 1) * c.maxBytes + 1);
      ActiveIsAll(Run(ops, c).disk, Oldest(c.keep));
      assert Short(ops, line);
    }
  }

  lemma Scales(k: nat, x: int, y: int)
    requires x <= y
    ensures k * x <= k * y
  {}
}
