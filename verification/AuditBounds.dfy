/** How large the audit log can grow and how much it is sure to retain (audit.py). */
module AuditBounds {
  import opened AuditDisk
  import opened AuditLog

  /** No file exceeds the threshold by more than one row; every rotated file has reached it. */
  ghost predicate Bounded(d: Disk, k: nat, max: nat, line: nat) {
    forall i: nat :: i <= k && At(i) in d ==>
      Bytes(d[At(i)].rows) <= max - 1 + line && (i > 0 ==> Bytes(d[At(i)].rows) >= max)
  }

  function TotalBytes(d: Disk, k: nat): nat {
    Bytes(Rows(d, k)) + if k == 0 then 0 else TotalBytes(d, k - 1)
  }

  function RotatedBytes(d: Disk, k: nat): nat {
    if k == 0 then 0 else Bytes(Rows(d, k)) + RotatedBytes(d, k - 1)
  }

  lemma {:induction false} ShiftKeepsBounded(d: Disk, i: nat, bad: set<nat>, k: nat, max: nat, line: nat)
    requires Bounded(d, k, max, line) && i < k
    ensures Bounded(Shift(d, i, bad).0, k, max, line)
    ensures At(0) in Shift(d, i, bad).0 ==> At(0) in d && Shift(d, i, bad).0[At(0)] == d[At(0)]
    decreases i
  {
    if i > 0 {
      if Slot(i) !in d {
        ShiftKeepsBounded(d, i - 1, bad, k, max, line);
      } else if i !in bad {
        var e := Move(d, Slot(i), Slot(i + 1));
        assert forall j: nat :: At(j) in e ==>
          if j == i + 1 then e[At(j)] == d[At(i)] else At(j) in d && e[At(j)] == d[At(j)];
        ShiftKeepsBounded(e, i - 1, bad, k, max, line);
      }
    }
  }

  lemma RotationKeepsBounded(d: Disk, keep: nat, f: Faults, now: real, max: nat, line: nat)
    requires max > 0 && Bounded(d, Oldest(keep), max, line)
    requires Active in d && Bytes(d[Active].rows) >= max
    ensures
      var (after, ok) := Rotated(d, keep, f, now);
      Bounded(after, Oldest(keep), max, line) && (ok ==> Active in after && Bytes(after[Active].rows) < max)
  {
    if !f.unlink {
      var freed, from := d - {Slot(keep)}, if keep == 0 then 0 else keep - 1;
      assert Bounded(freed, Oldest(keep), max, line);
      ShiftKeepsBounded(freed, from, f.rename, Oldest(keep), max, line);
      var (shifted, ok) := Shift(freed, from, f.rename);
      if ok && Active in shifted && 0 !in f.rename {
        var moved := Move(shifted, Active, Slot(1));
        assert forall j: nat :: At(j) in moved ==>
          if j == 1 then moved[At(j)] == d[Active] else At(j) in shifted && moved[At(j)] == shifted[At(j)];
        assert Bounded(moved, Oldest(keep), max, line);
      }
    }
  }

  lemma AppendKeepsBounded(d: Disk, row: Row, now: real, k: nat, max: nat, line: nat)
    requires Bounded(d, k, max, line) && Active in d && Bytes(d[Active].rows) < max && row.bytes <= line
    ensures Bounded(Append(d, row, now), k, max, line)
  {
    var rows, e := d[Active].rows, Append(d, row, now);
    assert (rows + [row])[..|rows|] == rows;
    assert forall j: nat :: j > 0 && At(j) in e ==> At(j) in d && e[At(j)] == d[At(j)];
  }

  lemma RecordKeepsBounded(log: Log, row: Row, f: Faults, now: real, c: Config, line: nat)
    requires c.maxBytes > 0 && Bounded(log.disk, Oldest(c.keep), c.maxBytes, line)
    requires !f.stat && row.bytes <= line
    ensures Bounded(Recorded(log, row, f, now, c).0.disk, Oldest(c.keep), c.maxBytes, line)
  {
    var ready, k := Opened(log.disk, now), Oldest(c.keep);
    assert Bounded(ready, k, c.maxBytes, line) by {
      assert forall j: nat :: j > 0 && At(j) in ready ==> At(j) in log.disk && ready[At(j)] == log.disk[At(j)];
    }
    if Bytes(ready[Active].rows) >= c.maxBytes {
      RotationKeepsBounded(ready, c.keep, f, now, c.maxBytes, line);
      var (rotated, ok) := Rotated(ready, c.keep, f, now);
      if ok {
        AppendKeepsBounded(rotated, row, now, k, c.maxBytes, line);
      }
    } else {
      AppendKeepsBounded(ready, row, now, k, c.maxBytes, line);
    }
  }

  /** Rows of at most `line` bytes; the size of the active log can always be read. */
  predicate Modest(ops: seq<Timed>, line: nat) {
    forall i :: 0 <= i < |ops| && ops[i].op.Record? ==> ops[i].op.row.bytes <= line && !ops[i].op.faults.stat
  }

  lemma {:induction false} RunIsBounded(ops: seq<Timed>, c: Config, line: nat)
    requires c.maxBytes > 0 && Modest(ops, line)
    ensures Bounded(Run(ops, c).disk, Oldest(c.keep), c.maxBytes, line)
  {
    if ops != [] {
      var front, t := ops[..|ops| - 1], ops[|ops| - 1];
      RunIsBounded(front, c, line);
      if t.op.Record? {
        RecordKeepsBounded(Run(front, c), t.op.row, t.op.faults, t.at, c, line);
      }
    }
  }

  lemma {:induction false} TotalOfBounded(d: Disk, k: nat, max: nat, line: nat, file: nat)
    requires max > 0 && Bounded(d, k, max, line) && file == max - 1 + line
    ensures TotalBytes(d, k) <= (k + 1) * file
  {
    if k > 0 {
      TotalOfBounded(d, k - 1, max, line, file);
      OneMore(k, file);
    }
  }

  lemma OneMore(k: nat, x: nat)
    ensures (k + 1) * x == k * x + x
  {}

  /** The disk footprint over every run, whatever fails except reading the size: each of the files
  exceeds the threshold by less than one row. */
  lemma DiskFootprint(ops: seq<Timed>, c: Config, line: nat)
    requires c.maxBytes > 0 && Modest(ops, line)
    ensures TotalBytes(Run(ops, c).disk, Oldest(c.keep)) <= (Oldest(c.keep) + 1) * (c.maxBytes - 1 + line)
  {
    RunIsBounded(ops, c, line);
    TotalOfBounded(Run(ops, c).disk, Oldest(c.keep), c.maxBytes, line, c.maxBytes - 1 + line);
  }

  // ---------------------------------------------------------------------
  // What is sure to be retained

  ghost predicate Full(d: Disk, keep: nat) {
    forall i: nat :: 0 < i <= keep ==> Slot(i) in d
  }

  /** No empty slot below a filled one. */
  ghost predicate Contiguous(d: Disk, keep: nat) {
    forall i: nat, j: nat :: 0 < i < j <= keep && Slot(j) in d ==> Slot(i) in d
  }

  /** Without failures the shift moves every slot up by one. */
  lemma {:induction false} CleanShift(d: Disk, i: nat)
    requires Slot(i + 1) !in d
    ensures Shift(d, i, {}).1
    ensures forall j: nat :: 0 < j <= i ==> (Slot(j + 1) in Shift(d, i, {}).0 <==> Slot(j) in d)
    ensures forall j: nat :: j > i + 1 ==> (Slot(j) in Shift(d, i, {}).0 <==> Slot(j) in d)
    ensures Slot(1) !in Shift(d, i, {}).0
    ensures Active in Shift(d, i, {}).0 <==> Active in d
    decreases i
  {
    if i > 0 {
      var e := if Slot(i) in d then Move(d, Slot(i), Slot(i + 1)) else d;
      CleanShift(e, i - 1);
    }
  }

  lemma CleanRotation(d: Disk, keep: nat, now: real)
    requires keep > 0 && Active in d && Contiguous(d, keep)
    ensures
      var (after, ok) := Rotated(d, keep, NO_FAULTS, now);
      && ok && Contiguous(after, keep)
      && (Chain(after, keep) == Chain(d, keep) || Full(after, keep))
      && (Full(d, keep) ==> Full(after, keep))
  {
    var freed := d - {Slot(keep)};
    CleanShift(freed, keep - 1);
    var (shifted, _) := Shift(freed, keep - 1, {});
    var after := Rotated(d, keep, NO_FAULTS, now).0;
    assert forall j: nat :: 0 < j < keep ==> (Slot(j + 1) in after <==> Slot(j) in d);
    if Slot(keep) in d {
      forall i: nat | 0 < i <= keep ensures Slot(i) in after {
        if i > 1 {
          assert Slot(i - 1) in d;
        }
      }
    } else {
      assert freed == d;
      RotationDropsOnlyOldest(d, keep, NO_FAULTS, now);
      forall i: nat, j: nat | 0 < i < j <= keep && Slot(j) in after ensures Slot(i) in after {
        assert Slot(j - 1) in d;
        if i > 1 {
          assert Slot(i - 1) in d;
        }
      }
    }
  }

  predicate Undisturbed(ops: seq<Timed>) {
    forall i :: 0 <= i < |ops| ==>
      !ops[i].op.Purge? && (ops[i].op.Record? ==> ops[i].op.faults == NO_FAULTS)
  }

  lemma RecordRetains(log: Log, row: Row, now: real, c: Config)
    requires c.keep > 0 && Contiguous(log.disk, c.keep)
    requires Held(log, c) == log.kept || Full(log.disk, c.keep)
    ensures
      var after := Recorded(log, row, NO_FAULTS, now, c).0;
      Contiguous(after.disk, c.keep) && (Held(after, c) == after.kept || Full(after.disk, c.keep))
  {
    var ready := Opened(log.disk, now);
    OpenKeepsChain(log.disk, now, c.keep);
    if Bytes(ready[Active].rows) >= c.maxBytes {
      CleanRotation(ready, c.keep, now);
      var rotated := Rotated(ready, c.keep, NO_FAULTS, now).0;
      ChainAppend(rotated, Append(rotated, row, now), row, c.keep);
    } else {
      ChainAppend(ready, Append(ready, row, now), row, c.keep);
    }
  }

  lemma {:induction false} RunRetains(ops: seq<Timed>, c: Config)
    requires c.keep > 0 && Undisturbed(ops)
    ensures Contiguous(Run(ops, c).disk, c.keep)
    ensures Held(Run(ops, c), c) == Run(ops, c).kept || Full(Run(ops, c).disk, c.keep)
  {
    if ops == [] {
      EmptyChain(c.keep);
    } else {
      var front, t := ops[..|ops| - 1], ops[|ops| - 1];
      RunRetains(front, c);
      if t.op.Record? {
        RecordRetains(Run(front, c), t.op.row, t.at, c);
      }
    }
  }

  lemma {:induction false} FullIsLarge(d: Disk, k: nat, keep: nat, max: nat, line: nat)
    requires k <= keep && Full(d, keep) && Bounded(d, keep, max, line)
    ensures RotatedBytes(d, k) >= k * max
  {
    if k > 0 {
      FullIsLarge(d, k - 1, keep, max, line);
      assert At(k) in d && k * max == (k - 1) * max + max;
    }
  }

  /** Without failures or purges, a row leaves the disk only when the rotated files alone hold at
  least `keep * maxBytes` newer bytes. */
  lemma RetainedBytes(ops: seq<Timed>, c: Config, line: nat)
    requires c.keep > 0 && c.maxBytes > 0 && Undisturbed(ops) && Modest(ops, line)
    ensures
      var log := Run(ops, c);
      Held(log, c) == log.kept || RotatedBytes(log.disk, c.keep) >= c.keep * c.maxBytes
  {
    RunRetains(ops, c);
    RunIsBounded(ops, c, line);
    var log := Run(ops, c);
    if Full(log.disk, c.keep) {
      FullIsLarge(log.disk, c.keep, c.keep, c.maxBytes, line);
    }
  }
}
