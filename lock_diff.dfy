/** The snapshot differ: compares two lock snapshots field by field, in the
    order in which a snapshot declares its fields, and lists every field whose
    value differs together with its NEW value. */
module SnapshotDiff {
  import opened Types

  /** One entry of a diff: a single field and the value it now has. */
  datatype FieldChange = FieldChange(field: Field, value: Value)

  /** The diff restricted to the first `n` fields of the declaration order. */
  function ChangesUpTo(a: Lock, b: Lock, n: nat): (r: seq<FieldChange>)
    requires n <= FieldCount
    ensures |r| <= n
    ensures forall i :: 0 <= i < |r| ==>
              Index(r[i].field) < n && r[i].value == Get(b, r[i].field) && Get(a, r[i].field) != r[i].value
  {
    if n == 0 then []
    else
      var f := FieldAt(n - 1);
      if Get(a, f) != Get(b, f) then ChangesUpTo(a, b, n - 1) + [FieldChange(f, Get(b, f))]
      else ChangesUpTo(a, b, n - 1)
  }

  /** The diff of two snapshots, as a specification: at most one entry per
      field, each for a field the snapshots disagree on, carrying the value
      the second snapshot has. */
  function Delta(a: Lock, b: Lock): (r: seq<FieldChange>)
    ensures |r| <= FieldCount
    ensures forall i :: 0 <= i < |r| ==> r[i].value == Get(b, r[i].field) && r[i].value != Get(a, r[i].field)
  {
    ChangesUpTo(a, b, FieldCount)
  }

  /** The fields a diff names, in its order. */
  function ChangedFields(cs: seq<FieldChange>): (fs: seq<Field>)
    ensures |fs| == |cs| && forall i :: 0 <= i < |cs| ==> fs[i] == cs[i].field
  {
    seq(|cs|, i requires 0 <= i < |cs| => cs[i].field)
  }

  /** Entries are listed in strictly increasing declaration order, so no field
      appears twice. */
  predicate Ordered(cs: seq<FieldChange>) {
    forall i, j :: 0 <= i < j < |cs| ==> Index(cs[i].field) < Index(cs[j].field)
  }

  /** One line of the comparison: appends the field's new value when the two
      snapshots disagree on it. Called for the fields in declaration order,
      it extends the diff of the fields before `f` to the diff up to `f`. */
  method PushIfChanged(delta: seq<FieldChange>, a: Lock, b: Lock, f: Field) returns (delta': seq<FieldChange>)
    requires delta == ChangesUpTo(a, b, Index(f))
    ensures delta' == ChangesUpTo(a, b, Index(f) + 1)
  {
    FieldAtIndex(f);
    delta' := delta;
    if Get(a, f) != Get(b, f) {
      delta' := delta' + [FieldChange(f, Get(b, f))];
    }
  }

  /** The comparison of the source: one test per field, in declaration order,
      each appending the new value when the field differs. */
  method LockDiff(a: Lock, b: Lock) returns (delta: seq<FieldChange>)
    ensures delta == Delta(a, b)
  {
    FieldPositions();
    delta := [];
    delta := PushIfChanged(delta, a, b, BleMac);
    delta := PushIfChanged(delta, a, b, Serial);
    delta := PushIfChanged(delta, a, b, DisplayName);
    delta := PushIfChanged(delta, a, b, ReportedState);
    delta := PushIfChanged(delta, a, b, DesiredState);
    delta := PushIfChanged(delta, a, b, DoorSensorDetected);
    delta := PushIfChanged(delta, a, b, AutoRelockTimeSeconds);
    delta := PushIfChanged(delta, a, b, AudioVolume);
    delta := PushIfChanged(delta, a, b, ResyncRequested);
    delta := PushIfChanged(delta, a, b, DoorClosed);
    delta := PushIfChanged(delta, a, b, TamperActive);
    delta := PushIfChanged(delta, a, b, KeypadLockoutActive);
    delta := PushIfChanged(delta, a, b, BatteryLow);
    delta := PushIfChanged(delta, a, b, BatteryPercent);
    delta := PushIfChanged(delta, a, b, LastSyncUnixTimestamp);
    delta := PushIfChanged(delta, a, b, DiagnosticEnabled);
    delta := PushIfChanged(delta, a, b, FirmwareVersion);
  }

  lemma {:induction false} ChangesUpToOrdered(a: Lock, b: Lock, n: nat)
    requires n <= FieldCount
    ensures Ordered(ChangesUpTo(a, b, n))
  {
    if n > 0 {
      ChangesUpToOrdered(a, b, n - 1);
    }
  }

  lemma ChangedFieldsAppend(x: seq<FieldChange>, y: seq<FieldChange>)
    ensures ChangedFields(x + y) == ChangedFields(x) + ChangedFields(y)
  {
  }

  /** Every field among the first `n` on which the snapshots disagree is
      listed in the partial diff, with the second snapshot's value. */
  lemma {:induction false} ChangesUpToComplete(a: Lock, b: Lock, n: nat, f: Field)
    requires n <= FieldCount && Index(f) < n && Get(a, f) != Get(b, f)
    ensures FieldChange(f, Get(b, f)) in ChangesUpTo(a, b, n)
  {
    if Index(f) < n - 1 {
      ChangesUpToComplete(a, b, n - 1, f);
    } else {
      FieldAtIndex(f);
    }
  }

  /** The diff's entries follow the fixed field order; hence at most 17 of them. */
  lemma DeltaOrdered(a: Lock, b: Lock)
    ensures Ordered(Delta(a, b))
    ensures |Delta(a, b)| <= FieldCount
  {
    ChangesUpToOrdered(a, b, FieldCount);
  }

  /** A field appears in the diff exactly when the two snapshots disagree on it,
      and every entry carries the second snapshot's value. */
  lemma DeltaExact(a: Lock, b: Lock, f: Field)
    ensures f in ChangedFields(Delta(a, b)) <==> Get(a, f) != Get(b, f)
    ensures forall c :: c in Delta(a, b) ==> c.value == Get(b, c.field) && c.value != Get(a, c.field)
  {
    var d := Delta(a, b);
    if Get(a, f) != Get(b, f) {
      ChangesUpToComplete(a, b, FieldCount, f);
      var i :| 0 <= i < |d| && d[i] == FieldChange(f, Get(b, f));
      assert ChangedFields(d)[i] == f;
    }
  }

  lemma {:induction false} ChangesUpToSelf(a: Lock, n: nat)
    requires n <= FieldCount
    ensures ChangesUpTo(a, a, n) == []
  {
    if n > 0 {
      ChangesUpToSelf(a, n - 1);
    }
  }

  /** The diff is empty exactly when the snapshots are equal. */
  lemma DeltaEmptyIffEqual(a: Lock, b: Lock)
    ensures Delta(a, b) == [] <==> a == b
  {
    var d := Delta(a, b);
    if a == b {
      ChangesUpToSelf(a, FieldCount);
    }
    if d == [] {
      forall f ensures Get(a, f) == Get(b, f) {
        DeltaExact(a, b, f);
      }
      SnapshotDeterminedByFields(a, b);
    }
  }

  /** The first two entries of an ordered list name different fields. */
  lemma OrderedHead(cs: seq<FieldChange>)
    requires Ordered(cs)
    ensures |cs| > 1 ==> cs[0].field != cs[1].field
  {
  }

  /** Two snapshots that differ in exactly one field give exactly one entry,
      for that field, carrying the new value. */
  lemma DeltaSingleField(a: Lock, b: Lock, f: Field)
    requires Get(a, f) != Get(b, f)
    requires forall g :: g != f ==> Get(a, g) == Get(b, g)
    ensures Delta(a, b) == [FieldChange(f, Get(b, f))]
  {
    var d := Delta(a, b);
    DeltaExact(a, b, f);
    DeltaOrdered(a, b);
    forall i | 0 <= i < |d| ensures d[i].field == f {
      assert d[i] in d;
    }
    var i :| 0 <= i < |d| && ChangedFields(d)[i] == f;
    OrderedHead(d);
    assert d[0] in d;
  }

  /** A snapshot seen as its 17 field values. */
  function Fields(l: Lock): imap<Field, Value> {
    imap f: Field :: Get(l, f)
  }

  /** Writes each entry's value over its field, in order, as a listener
      replaying the per-field events would. */
  function Replay(m: imap<Field, Value>, cs: seq<FieldChange>): imap<Field, Value> {
    if cs == [] then m else Replay(m, cs[..|cs| - 1])[cs[|cs| - 1].field := cs[|cs| - 1].value]
  }

  lemma {:induction false} ReplayUntouched(m: imap<Field, Value>, cs: seq<FieldChange>, g: Field)
    requires g in m && g !in ChangedFields(cs)
    ensures g in Replay(m, cs) && Replay(m, cs)[g] == m[g]
  {
    if cs != [] {
      var init := cs[..|cs| - 1];
      assert cs == init + [cs[|cs| - 1]];
      ChangedFieldsAppend(init, [cs[|cs| - 1]]);
      assert ChangedFields([cs[|cs| - 1]]) == [cs[|cs| - 1].field];
      ReplayUntouched(m, init, g);
    }
  }

  lemma {:induction false} ReplayWritten(m: imap<Field, Value>, cs: seq<FieldChange>, i: nat)
    requires Ordered(cs) && i < |cs|
    ensures cs[i].field in Replay(m, cs) && Replay(m, cs)[cs[i].field] == cs[i].value
  {
    var last := |cs| - 1;
    if i < last {
      ReplayWritten(m, cs[..last], i);
      assert Index(cs[i].field) < Index(cs[last].field);
    }
  }

  /** Round trip: replaying the diff of `a` and `b` over the fields of `a`
      gives the fields of `b`, and so `b` itself (see `FieldsInjective`). */
  lemma ReplayDelta(a: Lock, b: Lock)
    ensures Replay(Fields(a), Delta(a, b)) == Fields(b)
  {
    var d := Delta(a, b);
    DeltaOrdered(a, b);
    forall g ensures g in Replay(Fields(a), d) && Replay(Fields(a), d)[g] == Fields(b)[g] {
      DeltaExact(a, b, g);
      if g in ChangedFields(d) {
        var i :| 0 <= i < |d| && ChangedFields(d)[i] == g;
        ReplayWritten(Fields(a), d, i);
        assert d[i] in d;
      } else {
        ReplayUntouched(Fields(a), d, g);
      }
    }
  }

  /** The field view loses nothing: snapshots with the same fields are equal. */
  lemma FieldsInjective(a: Lock, b: Lock)
    requires Fields(a) == Fields(b)
    ensures a == b
  {
    forall f ensures Get(a, f) == Get(b, f) {
      assert Fields(a)[f] == Fields(b)[f];
    }
    SnapshotDeterminedByFields(a, b);
  }
}
