/** The files of the audit log (audit.py) and what one rotation does to them.

A file is the rows written to it and the time of its last write. Reading `.K` down to `.1` and then
the active log gives the `Chain`, the history that is still on disk. Every file operation can fail;
which ones do is the `Faults` argument. */
module AuditDisk {

  datatype Row = Row(node: string, requestId: string, status: string, exitCode: int, bytes: nat)

  /** The active log, a rotation `.k`, or any other file whose name starts like a rotation. */
  datatype Name = Active | Slot(k: nat) | Sibling(suffix: string)

  datatype File = File(rows: seq<Row>, mtime: real)

  type Disk = map<Name, File>

  /** The operations of one `record` call that raise OSError. `rename` holds the source slots whose
  rename fails, with 0 for the active log. */
  datatype Faults = Faults(open: bool, stat: bool, unlink: bool, rename: set<nat>, reopen: bool, write: bool)

  const NO_FAULTS := Faults(false, false, false, {}, false, false)

  /** The oldest slot a rotation can fill: `.1` even when `keep` is 0. */
  function Oldest(keep: nat): nat {
    if keep == 0 then 1 else keep
  }

  /** Slot 0 of the chain is the active log. */
  function At(k: nat): Name {
    if k == 0 then Active else Slot(k)
  }

  function Rows(d: Disk, k: nat): seq<Row> {
    if At(k) in d then d[At(k)].rows else []
  }

  /** The rows on disk, oldest first, from slot `k` down to the active log. */
  function Chain(d: Disk, k: nat): seq<Row> {
    Rows(d, k) + if k == 0 then [] else Chain(d, k - 1)
  }

  function Bytes(rows: seq<Row>): nat {
    if rows == [] then 0 else Bytes(rows[..|rows| - 1]) + rows[|rows| - 1].bytes
  }

  function Move(d: Disk, from: Name, to: Name): Disk
    requires from in d
  {
    (d - {from})[to := d[from]]
  }

  /** The shift loop from slot `i` down to slot 1; stops at the first rename that fails. */
  function Shift(d: Disk, i: nat, bad: set<nat>): (Disk, bool)
    decreases i
  {
    if i == 0 then (d, true)
    else if Slot(i) !in d then Shift(d, i - 1, bad)
    else if i in bad then (d, false)
    else Shift(Move(d, Slot(i), Slot(i + 1)), i - 1, bad)
  }

  function Opened(d: Disk, now: real): Disk {
    if Active in d then d else d[Active := File([], now)]
  }

  /** Renaming the active log away and opening a fresh one. */
  function Swapped(d: Disk, f: Faults, now: real): (Disk, bool) {
    if Active in d && 0 in f.rename then (d, false)
    else
      var moved := if Active in d then Move(d, Active, Slot(1)) else d;
      if f.reopen then (moved, false) else (Opened(moved, now), true)
  }

  /** One rotation: drop `.keep`, shift, rename the active log to `.1`, reopen. */
  function Rotated(d: Disk, keep: nat, f: Faults, now: real): (Disk, bool) {
    if f.unlink then (d, false)
    else
      var (shifted, ok) := Shift(d - {Slot(keep)}, if keep == 0 then 0 else keep - 1, f.rename);
      if !ok then (shifted, false) else Swapped(shifted, f, now)
  }

  predicate Suffix(s: seq<Row>, t: seq<Row>) {
    |s| <= |t| && s == t[|t| - |s|..]
  }

  // ---------------------------------------------------------------------
  // The chain under a rotation

  /** The chain depends only on the slots it reads. */
  lemma {:induction false} ChainSame(d: Disk, e: Disk, k: nat)
    requires forall i: nat :: i <= k ==> Rows(d, i) == Rows(e, i)
    ensures Chain(d, k) == Chain(e, k)
  {
    if k > 0 {
      ChainSame(d, e, k - 1);
    }
  }

  /** Moving a file up into a free slot leaves the chain as it was. */
  lemma {:induction false} MoveUpKeepsChain(d: Disk, i: nat, k: nat)
    requires At(i) in d && Slot(i + 1) !in d && i < k
    ensures Chain(Move(d, At(i), Slot(i + 1)), k) == Chain(d, k)
  {
    var e := Move(d, At(i), Slot(i + 1));
    if k > i + 1 {
      MoveUpKeepsChain(d, i, k - 1);
      assert Rows(e, k) == Rows(d, k);
    } else {
      MoveUpTwoSlots(d, i);
    }
  }

  lemma MoveUpTwoSlots(d: Disk, i: nat)
    requires At(i) in d && Slot(i + 1) !in d
    ensures Chain(Move(d, At(i), Slot(i + 1)), i + 1) == Chain(d, i + 1)
  {
    var e := Move(d, At(i), Slot(i + 1));
    assert Rows(e, i + 1) == Rows(d, i) && Rows(e, i) == [] && Rows(d, i + 1) == [];
    var younger := if i == 0 then [] else Chain(d, i - 1);
    if i > 0 {
      ChainSame(d, e, i - 1);
    }
    assert Chain(e, i) == Rows(e, i) + younger == younger;
    assert Chain(d, i) == Rows(d, i) + younger;
    assert Chain(e, i + 1) == Rows(e, i + 1) + Chain(e, i);
    assert Chain(d, i + 1) == Rows(d, i + 1) + Chain(d, i) == Chain(d, i);
  }

  /** A file moved to a free name is the same file, and so are the others. */
  lemma MoveKeepsFiles(d: Disk, from: Name, to: Name)
    requires from in d && to !in d
    ensures |Move(d, from, to)| == |d| && Move(d, from, to).Values == d.Values
  {
    var e := Move(d, from, to);
    assert e.Keys == (d.Keys - {from}) + {to};
    assert |e.Keys| == |d.Keys|;
    forall f | f in d.Values ensures f in e.Values {
      var n :| n in d && d[n] == f;
      assert e[if n == from then to else n] == f;
    }
  }

  /** The shift never overwrites a file and keeps the chain, however far it gets. */
  lemma {:induction false} ShiftKeepsChain(d: Disk, i: nat, bad: set<nat>, k: nat)
    requires i < k && Slot(i + 1) !in d
    ensures Chain(Shift(d, i, bad).0, k) == Chain(d, k)
    ensures Shift(d, i, bad).1 ==> Slot(1) !in Shift(d, i, bad).0
    ensures Active in Shift(d, i, bad).0 <==> Active in d
    ensures |Shift(d, i, bad).0| == |d| && Shift(d, i, bad).0.Values == d.Values
    decreases i
  {
    if i > 0 {
      if Slot(i) !in d {
        ShiftKeepsChain(d, i - 1, bad, k);
      } else if i !in bad {
        MoveUpKeepsChain(d, i, k);
        MoveKeepsFiles(d, Slot(i), Slot(i + 1));
        ShiftKeepsChain(Move(d, Slot(i), Slot(i + 1)), i - 1, bad, k);
      }
    }
  }

  lemma OpenKeepsChain(d: Disk, now: real, k: nat)
    ensures Chain(Opened(d, now), k) == Chain(d, k)
  {
    ChainSame(d, Opened(d, now), k);
  }

  lemma SwapKeepsChain(d: Disk, f: Faults, now: real, k: nat)
    requires k > 0 && Slot(1) !in d
    ensures Chain(Swapped(d, f, now).0, k) == Chain(d, k)
  {
    if Active in d {
      if 0 !in f.rename {
        MoveUpKeepsChain(d, 0, k);
        OpenKeepsChain(Move(d, Active, Slot(1)), now, k);
      }
    } else {
      OpenKeepsChain(d, now, k);
    }
  }

  /** Taking away the oldest slot leaves a suffix. */
  lemma DropOldest(d: Disk, k: nat)
    requires k > 0
    ensures Chain(d, k) == Rows(d, k) + Chain(d - {Slot(k)}, k)
    ensures Suffix(Chain(d - {Slot(k)}, k), Chain(d, k))
  {
    OldestGone(d, k);
    TailIsSuffix(Rows(d, k), Chain(d, k - 1));
  }

  lemma OldestGone(d: Disk, k: nat)
    requires k > 0
    ensures Chain(d - {Slot(k)}, k) == Chain(d, k - 1)
  {
    var e := d - {Slot(k)};
    ChainSame(d, e, k - 1);
    assert Chain(e, k) == [] + Chain(e, k - 1);
  }

  lemma TailIsSuffix(head: seq<Row>, t: seq<Row>)
    ensures Suffix(t, head + t)
  {}

  /** A rotation loses nothing but the rows of the oldest slot, wherever it breaks off. */
  lemma RotationDropsOnlyOldest(d: Disk, keep: nat, f: Faults, now: real)
    requires keep > 0
    ensures
      var after := Chain(Rotated(d, keep, f, now).0, keep);
      after == Chain(d, keep) || after == Chain(d - {Slot(keep)}, keep)
  {
    var freed := d - {Slot(keep)};
    ShiftKeepsChain(freed, keep - 1, f.rename, keep);
    var (shifted, ok) := Shift(freed, keep - 1, f.rename);
    if ok {
      SwapKeepsChain(shifted, f, now, keep);
    }
  }

  lemma RotationLeavesSuffix(d: Disk, keep: nat, f: Faults, now: real)
    ensures Suffix(Chain(Rotated(d, keep, f, now).0, Oldest(keep)), Chain(d, Oldest(keep)))
  {
    if keep > 0 {
      RotationDropsOnlyOldest(d, keep, f, now);
      DropOldest(d, keep);
    } else {
      RotationWithoutSlots(d, f, now);
    }
  }

  /** With `keep` 0 nothing is shifted: the old `.1` gives way to the active log. */
  lemma RotationWithoutSlots(d: Disk, f: Faults, now: real)
    ensures
      var after := Chain(Rotated(d, 0, f, now).0, 1);
      after == Chain(d, 1) || after == Rows(d, 0)
  {
    var freed := d - {Slot(0)};
    ChainSame(d, freed, 1);
    if !f.unlink && !(Active in freed && 0 in f.rename) {
      if Active in freed {
        var moved := Move(freed, Active, Slot(1));
        assert Chain(moved, 1) == Rows(moved, 1) + Chain(moved, 0);
        OpenKeepsChain(moved, now, 1);
      } else {
        OpenKeepsChain(freed, now, 1);
      }
    }
  }

  lemma SuffixTrans(a: seq<Row>, b: seq<Row>, c: seq<Row>)
    requires Suffix(a, b) && Suffix(b, c)
    ensures Suffix(a, c)
  {}

  // ---------------------------------------------------------------------
  // Ages

  /** Modification times never increase with the slot index and never lie ahead of the clock. */
  ghost predicate Aged(d: Disk, k: nat, now: real) {
    && (forall i: nat, j: nat :: i < j <= k && At(i) in d && At(j) in d ==> d[At(j)].mtime <= d[At(i)].mtime)
    && (forall i: nat :: i <= k && At(i) in d ==> d[At(i)].mtime <= now)
  }

  lemma MoveUpKeepsAge(d: Disk, i: nat, k: nat, now: real)
    requires Aged(d, k, now) && i < k && At(i) in d
    ensures Aged(Move(d, At(i), Slot(i + 1)), k, now)
  {
    var e := Move(d, At(i), Slot(i + 1));
    assert forall j: nat :: At(j) in e && j != i + 1 ==> At(j) in d && j != i && e[At(j)] == d[At(j)];
  }

  lemma {:induction false} ShiftKeepsAge(d: Disk, i: nat, bad: set<nat>, k: nat, now: real)
    requires Aged(d, k, now) && i < k
    ensures Aged(Shift(d, i, bad).0, k, now)
    decreases i
  {
    if i > 0 {
      if Slot(i) !in d {
        ShiftKeepsAge(d, i - 1, bad, k, now);
      } else if i !in bad {
        MoveUpKeepsAge(d, i, k, now);
        ShiftKeepsAge(Move(d, Slot(i), Slot(i + 1)), i - 1, bad, k, now);
      }
    }
  }

  lemma RotationKeepsAge(d: Disk, keep: nat, f: Faults, now: real)
    requires Aged(d, Oldest(keep), now)
    ensures Aged(Rotated(d, keep, f, now).0, Oldest(keep), now)
  {
    var freed := d - {Slot(keep)};
    var from := if keep == 0 then 0 else keep - 1;
    ShiftKeepsAge(freed, from, f.rename, Oldest(keep), now);
    var (shifted, ok) := Shift(freed, from, f.rename);
    SwapKeepsAge(shifted, f, Oldest(keep), now);
  }

  lemma SwapKeepsAge(d: Disk, f: Faults, k: nat, now: real)
    requires Aged(d, k, now) && k > 0
    ensures Aged(Swapped(d, f, now).0, k, now)
  {
    if Active in d {
      MoveUpKeepsAge(d, 0, k, now);
      OpenKeepsAge(Move(d, Active, Slot(1)), k, now);
    } else {
      OpenKeepsAge(d, k, now);
    }
  }

  lemma OpenKeepsAge(d: Disk, k: nat, now: real)
    requires Aged(d, k, now)
    ensures Aged(Opened(d, now), k, now)
  {
    var e := Opened(d, now);
    assert forall j: nat :: j > 0 && At(j) in e ==> At(j) in d && e[At(j)] == d[At(j)];
  }
}
