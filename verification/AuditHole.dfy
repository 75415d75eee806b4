/** A run of the audit writer that leaves a hole in the history: two rotations, then a purge whose unlink
of the older rotation fails while that of the younger one succeeds (audit.py). */
module AuditHole {
  import opened AuditDisk
  import opened AuditLog

  /** A run whose purge cannot remove `.2` but removes `.1` leaves a hole in the history. */
  lemma FailedUnlinkLeavesAHole(a: Row, b: Row, x: Row)
    requires Acceptable(a) && Acceptable(b) && Acceptable(x) && a.bytes == b.bytes == x.bytes == 1
    requires a != b && b != x && a != x
    ensures
      var c := Config(2, 1, 1);
      var ops := [Writes(1.0, a), Writes(2.0, b), Writes(86409.0, x), Timed(86409.0, Purge({Slot(2)}))];
      && Run(ops, c).kept == [a, b, x] && Held(Run(ops, c), c) == [a, x]
      && !Suffix(Held(Run(ops, c), c), Run(ops, c).kept)
  {
    var c := Config(2, 1, 1);
    var t1, t2, t3 := Writes(1.0, a), Writes(2.0, b), Writes(86409.0, x);
    var t4 := Timed(86409.0, Purge({Slot(2)}));
    RunOfFour(t1, t2, t3, t4, c);
    FirstWrite(t1, a, c);
    var l1 := Step(EMPTY, t1, c);
    SecondWrite(l1, t2, a, b, c);
    var l2 := Step(l1, t2, c);
    ThirdWrite(l2, t3, a, b, x, c);
    HolePurge(Step(l2, t3, c), t4, a, b, x, c);
    NoSuffix(a, b, x);
  }

  lemma RunOfFour(t1: Timed, t2: Timed, t3: Timed, t4: Timed, c: Config)
    ensures Run([t1, t2, t3, t4], c) == Step(Step(Step(Step(EMPTY, t1, c), t2, c), t3, c), t4, c)
  {
    assert [] + [t1] == [t1] && [t1] + [t2] == [t1, t2] && [t1, t2] + [t3] == [t1, t2, t3];
    assert [t1, t2, t3] + [t4] == [t1, t2, t3, t4];
    RunSnoc([], t1, c);
    RunSnoc([t1], t2, c);
    RunSnoc([t1, t2], t3, c);
    RunSnoc([t1, t2, t3], t4, c);
  }

  lemma NoSuffix(a: Row, b: Row, x: Row)
    requires a != b
    ensures !Suffix([a, x], [a, b, x])
  {
    assert [a, b, x][1..] == [b, x] && [b, x][0] != [a, x][0];
  }

  lemma FirstWrite(t: Timed, a: Row, c: Config)
    requires Acceptable(a) && c == Config(2, 1, 1) && t == Writes(1.0, a)
    ensures Step(EMPTY, t, c) == Log(map[Active := File([a], 1.0)], true, false, [a])
  {
    assert Bytes([]) == 0 && [] + [a] == [a];
  }

  lemma SecondWrite(log: Log, t: Timed, a: Row, b: Row, c: Config)
    requires Acceptable(b) && a.bytes == 1 && c == Config(2, 1, 1) && t == Writes(2.0, b)
    requires log == Log(map[Active := File([a], 1.0)], true, false, [a])
    ensures Step(log, t, c) == Log(map[Slot(1) := File([a], 1.0), Active := File([b], 2.0)], true, false, [a, b])
  {
    OneRow(a);
    var d := log.disk;
    assert d - {Slot(2)} == d && Shift(d, 1, {}) == Shift(d, 0, {}) == (d, true);
    assert [] + [b] == [b];
    assert Rotated(d, 2, NO_FAULTS, 2.0) == (map[Slot(1) := File([a], 1.0), Active := File([], 2.0)], true);
  }

  lemma ThirdWrite(log: Log, t: Timed, a: Row, b: Row, x: Row, c: Config)
    requires Acceptable(x) && b.bytes == 1 && c == Config(2, 1, 1) && t == Writes(86409.0, x)
    requires log == Log(map[Slot(1) := File([a], 1.0), Active := File([b], 2.0)], true, false, [a, b])
    ensures Step(log, t, c) == Log(Aging(a, b, x), true, false, [a, b, x])
  {
    OneRow(b);
    var d := log.disk;
    var shifted := map[Slot(2) := File([a], 1.0), Active := File([b], 2.0)];
    var moved := map[Slot(2) := File([a], 1.0), Slot(1) := File([b], 2.0)];
    assert d - {Slot(2)} == d && Move(d, Slot(1), Slot(2)) == shifted;
    assert Shift(d, 1, {}) == Shift(shifted, 0, {}) == (shifted, true);
    assert Move(shifted, Active, Slot(1)) == moved;
    assert [] + [x] == [x];
    assert Rotated(d, 2, NO_FAULTS, 86409.0) == (moved[Active := File([], 86409.0)], true);
    assert moved[Active := File([], 86409.0)][Active := File([x], 86409.0)] == Aging(a, b, x);
  }

  function Aging(a: Row, b: Row, x: Row): Disk {
    map[Slot(2) := File([a], 1.0), Slot(1) := File([b], 2.0), Active := File([x], 86409.0)]
  }

  lemma HolePurge(log: Log, t: Timed, a: Row, b: Row, x: Row, c: Config)
    requires c == Config(2, 1, 1) && t == Timed(86409.0, Purge({Slot(2)}))
    requires log == Log(Aging(a, b, x), true, false, [a, b, x])
    ensures Step(log, t, c).kept == [a, b, x] && Held(Step(log, t, c), c) == [a, x]
  {
    var e := Step(log, t, c).disk;
    assert Cutoff(86409.0, c) == 9.0;
    assert Expired(log.disk, 9.0) == {Slot(1), Slot(2)};
    assert Rows(e, 2) == [a] && Rows(e, 1) == [] && Rows(e, 0) == [x];
    assert Chain(e, 0) == [x] + [] == [x];
    assert Chain(e, 1) == [] + Chain(e, 0) == [x];
    assert Chain(e, 2) == [a] + Chain(e, 1);
  }

  lemma OneRow(row: Row)
    ensures Bytes([row]) == row.bytes
  {
    assert [row][..0] == [];
  }
}
