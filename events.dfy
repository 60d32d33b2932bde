/** What a watch tick publishes. The client's emitter is modelled only by the
    sequence of events it is asked to emit: a `change` event carrying the
    previous snapshot and the diff, then one event per changed field, named
    after the field and carrying its new value. */
module Events {
  import opened Types
  import opened SnapshotDiff

  datatype Event =
    | Change(previous: Lock, changes: seq<FieldChange>)
    | FieldEvent(name: string, value: Value)

  /** The event published for one entry of a diff. */
  function EventFor(c: FieldChange): Event {
    FieldEvent(FieldName(c.field), c.value)
  }

  /** The per-field events for a diff, in the diff's order. */
  function FieldEvents(cs: seq<FieldChange>): seq<Event> {
    seq(|cs|, i requires 0 <= i < |cs| => EventFor(cs[i]))
  }

  /** Everything one tick publishes, given the snapshot copied before the fetch
      and the snapshot fetched: nothing exactly when the two are equal. */
  function TickEvents(previous: Lock, current: Lock): (es: seq<Event>)
    ensures es == [] <==> previous == current
  {
    DeltaEmptyIffEqual(previous, current);
    var cs := Delta(previous, current);
    if cs == [] then [] else [Change(previous, cs)] + FieldEvents(cs)
  }

  /** A list of changes that could have come out of the differ for `previous`:
      in declaration order, each value new and of its field's type. */
  ghost predicate ChangesFrom(previous: Lock, cs: seq<FieldChange>) {
    Ordered(cs) &&
    forall i :: 0 <= i < |cs| ==>
      cs[i].value != Get(previous, cs[i].field) && KindOfValue(cs[i].value) == KindOf(cs[i].field)
  }

  /** An event log made of whole batches: each `change` event with a non-empty
      list of changes is followed at once by exactly the events for those
      changes, and no field event stands anywhere else. */
  ghost predicate WellFormedLog(log: seq<Event>)
    decreases |log|
  {
    if log == [] then true
    else
      match log[0]
      case FieldEvent(_, _) => false
      case Change(previous, cs) =>
        var n := 1 + |cs|;
        cs != [] && n <= |log| && log[1..n] == FieldEvents(cs) && ChangesFrom(previous, cs) &&
        WellFormedLog(log[n..])
  }

  /** The shape of a tick's events: one `change` event carrying the copy taken
      before the fetch and the diff, then one event per entry of the diff, named
      after its field, carrying the field's new value, in the diff's order. */
  lemma TickEventsShape(previous: Lock, current: Lock)
    requires previous != current
    ensures var es := TickEvents(previous, current);
            var cs := Delta(previous, current);
            |es| == 1 + |cs| && es[0] == Change(previous, cs) &&
            forall i :: 0 <= i < |cs| ==>
              es[1 + i] == FieldEvent(FieldName(cs[i].field), Get(current, cs[i].field))
  {
    DeltaEmptyIffEqual(previous, current);
    var cs := Delta(previous, current);
    forall i | 0 <= i < |cs| ensures cs[i].value == Get(current, cs[i].field) {
      DeltaExact(previous, current, cs[i].field);
      assert cs[i] in cs;
    }
  }

  /** A tick's events form a well-formed log on their own. */
  lemma TickEventsWellFormed(previous: Lock, current: Lock)
    ensures WellFormedLog(TickEvents(previous, current))
  {
    var cs := Delta(previous, current);
    var es := TickEvents(previous, current);
    if cs != [] {
      DeltaOrdered(previous, current);
      forall i | 0 <= i < |cs|
        ensures cs[i].value != Get(previous, cs[i].field) && KindOfValue(cs[i].value) == KindOf(cs[i].field)
      {
        DeltaExact(previous, current, cs[i].field);
        assert cs[i] in cs;
      }
      assert es[1..1 + |cs|] == FieldEvents(cs);
      assert es[1 + |cs|..] == [];
    }
  }

  /** Appending a well-formed batch to a well-formed log keeps it well formed. */
  lemma {:induction false} WellFormedAppend(log: seq<Event>, batch: seq<Event>)
    requires WellFormedLog(log) && WellFormedLog(batch)
    ensures WellFormedLog(log + batch)
  {
    if log != [] {
      var n := 1 + |log[0].changes|;
      WellFormedAppend(log[n..], batch);
      assert (log + batch)[0] == log[0];
      assert (log + batch)[1..n] == log[1..n];
      assert (log + batch)[n..] == log[n..] + batch;
    } else {
      assert log + batch == batch;
    }
  }

  /** A listener on a field's name hears only that field: the names of the
      17 fields are pairwise distinct. */
  lemma FieldNameInjective(f: Field, g: Field)
    requires FieldName(f) == FieldName(g)
    ensures f == g
  {
  }

  /** The battery example: one reading lower produces exactly one `change`
      event and one `batteryPercent` event, both carrying 79. */
  lemma BatteryDrop(previous: Lock)
    requires previous.batteryPercent == 80
    ensures TickEvents(previous, previous.(batteryPercent := 79)) ==
            [Change(previous, [FieldChange(BatteryPercent, Number(79))]),
             FieldEvent("batteryPercent", Number(79))]
  {
    var current := previous.(batteryPercent := 79);
    forall g | g != BatteryPercent ensures Get(previous, g) == Get(current, g) {
    }
    DeltaSingleField(previous, current, BatteryPercent);
  }
}
