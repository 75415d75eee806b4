/** The audit writer as the source has it: fields changed in place, the shift loop counting down,
the purge loop over the directory. Each method is proved against its function in AuditLog. */
module AuditWriter {
  import opened AuditDisk
  import opened AuditLog

  class Writer {
    const config: Config
    var disk: Disk
    var isOpen: bool
    var closed: bool
    ghost var kept: seq<Row>

    ghost function View(): Log
      reads this
    {
      Log(disk, isOpen, closed, kept)
    }

    constructor (config: Config, disk: Disk, ghost kept: seq<Row>)
      requires config.maxBytes > 0 && config.retentionDays > 0
      ensures this.config == config && View() == Log(disk, false, false, kept)
    {
      this.config := config;
      this.disk, this.isOpen, this.closed := disk, false, false;
      this.kept := kept;
    }

    /** `record`: `now` is the time of the call, `f` the operations that fail during it. */
    method Record(row: Row, f: Faults, now: real) returns (out: Outcome)
      requires isOpen ==> Active in disk
      modifies this
      ensures (View(), out) == Recorded(old(View()), row, f, now, config)
      ensures isOpen ==> Active in disk
    {
      if row.node == "" || row.requestId == "" || row.status !in STATUSES {
        return Refused;
      }
      if closed {
        return Dropped;
      }
      var ok := EnsureOpen(f.open, now);
      if !ok {
        return Dropped;
      }
      assert disk == Opened(old(disk), now);
      if !f.stat && Bytes(disk[Active].rows) >= config.maxBytes {
        ok := Rotate(f, now);
        if !ok {
          return Dropped;
        }
      }
      if f.write {
        return Dropped;
      }
      disk := disk[Active := File(disk[Active].rows + [row], now)];
      kept := kept + [row];
      out := Written;
    }

    method EnsureOpen(fails: bool, now: real) returns (ok: bool)
      requires isOpen ==> Active in disk
      modifies this
      ensures ok == isOpen == (old(isOpen) || !fails)
      ensures disk == if ok then Opened(old(disk), now) else old(disk)
      ensures isOpen ==> Active in disk
      ensures closed == old(closed) && kept == old(kept)
    {
      if isOpen {
        return true;
      }
      if fails {
        return false;
      }
      if Active !in disk {
        disk := disk[Active := File([], now)];
      }
      isOpen := true;
      ok := true;
    }

    method Rotate(f: Faults, now: real) returns (ok: bool)
      requires isOpen && Active in disk
      modifies this
      ensures (disk, ok) == Rotated(old(disk), config.keep, f, now)
      ensures isOpen == ok && (ok ==> Active in disk)
      ensures closed == old(closed) && kept == old(kept)
    {
      isOpen := false;
      if f.unlink {
        return false;
      }
      disk := disk - {Slot(config.keep)};
      ghost var freed := disk;
      var i := if config.keep == 0 then 0 else config.keep - 1;
      ghost var first := i;
      while i > 0
        invariant 0 <= i <= first
        invariant Shift(disk, i, f.rename) == Shift(freed, first, f.rename)
        invariant !isOpen && closed == old(closed) && kept == old(kept)
      {
        if Slot(i) in disk {
          if i in f.rename {
            return false;
          }
          disk := (disk - {Slot(i)})[Slot(i + 1) := disk[Slot(i)]];
        }
        i := i - 1;
      }
      if Active in disk {
        if 0 in f.rename {
          return false;
        }
        disk := (disk - {Active})[Slot(1) := disk[Active]];
      }
      ok := EnsureOpen(f.reopen, now);
    }

    method Close()
      modifies this
      ensures View() == old(View()).(isOpen := false, closed := true)
    {
      closed := true;
      isOpen := false;
    }

    /** `purge_expired_rotations`: the entries whose unlink raises are skipped over. */
    method Purge(now: real, failing: set<Name>) returns (deleted: nat)
      modifies this`disk
      ensures View() == Step(old(View()), Timed(now, Op.Purge(failing)), config)
      ensures forall n :: n in disk <==>
        && n in old(disk)
        && (n == Active || n in failing
            || old(disk)[n].mtime + config.retentionDays as real * (24.0 * 60.0 * 60.0) >= now)
      ensures forall n :: n in disk ==> disk[n] == old(disk)[n]
      ensures deleted == |old(disk)| - |disk|
    {
      deleted := Sweep(Cutoff(now, config), failing);
      Removed(old(disk), Expired(old(disk), Cutoff(now, config)) - failing);
    }

    method Sweep(cutoff: real, failing: set<Name>) returns (deleted: nat)
      modifies this`disk
      ensures disk == old(disk) - (Expired(old(disk), cutoff) - failing)
      ensures deleted == |Expired(old(disk), cutoff) - failing|
    {
      deleted := 0;
      var todo := disk.Keys;
      ghost var before, due := disk, Expired(disk, cutoff) - failing;
      assert due - todo == {};
      while todo != {}
        invariant todo <= before.Keys
        invariant disk == before - (due - todo) && deleted == |due - todo|
        decreases todo
      {
        var entry :| entry in todo;
        NextEntry(before, due, todo, entry);
        todo := todo - {entry};
        var gone := Unlink(entry, cutoff, failing);
        deleted := if gone then deleted + 1 else deleted;
      }
      assert due - todo == due;
    }

    method Unlink(entry: Name, cutoff: real, failing: set<Name>) returns (gone: bool)
      requires entry in disk
      modifies this`disk
      ensures gone <==> entry in Expired(old(disk), cutoff) - failing
      ensures disk == if gone then old(disk) - {entry} else old(disk)
    {
      gone := entry != Active && disk[entry].mtime < cutoff && entry !in failing;
      if gone {
        disk := disk - {entry};
      }
    }
  }

  lemma Removed(d: Disk, gone: set<Name>)
    requires gone <= d.Keys
    ensures |d - gone| == |d| - |gone|
  {
    assert (d - gone).Keys == d.Keys - gone && |(d - gone).Keys| == |d - gone| && |d.Keys| == |d|;
  }

  /** `before - (due - todo)` is the directory when the entries in `todo` are still to come. */
  lemma NextEntry(before: Disk, due: set<Name>, todo: set<Name>, entry: Name)
    requires entry in todo && todo <= before.Keys
    ensures
      var left := before - (due - todo);
      && entry in left && left[entry] == before[entry]
      && before - (due - (todo - {entry})) == (if entry in due then left - {entry} else left)
      && |due - (todo - {entry})| == |due - todo| + if entry in due then 1 else 0
  {
    assert due - (todo - {entry}) == (due - todo) + if entry in due then {entry} else {};
  }
}
