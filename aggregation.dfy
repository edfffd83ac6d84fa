/**
 * The aggregator: the four indexes the engine fills while it scans files.
 * `eventSinks` and `eventSources` map an event name to the files that listen
 * for it or emit it; `fileNameEventSinks` and `fileNameEventSources` map a
 * file name to the events it listens for or emits. Each recorded
 * (file, event) pair goes into one event-keyed and one file-keyed index.
 */
module Aggregation {
  import opened Tables

  /** Whether a file listens for an event (`.on(document, 'e', ...)`) or
      emits it (`.trigger('e', ...)`). */
  datatype Kind = Sink | Source

  /** One event name found in one file, as the pattern extractor reports it. */
  datatype Occurrence = Occurrence(file: string, event: string, kind: Kind)

  /** The event-keyed and the file-keyed index hold the same pairs. */
  ghost predicate Mirrors(byEvent: Table, byFile: Table) {
    forall e, f :: f in byEvent.Get(e) <==> e in byFile.Get(f)
  }

  /** Adding the pair to both views keeps them mirrored. */
  lemma MirrorsAdd(byEvent: Table, byFile: Table, event: string, file: string)
    ensures Mirrors(byEvent, byFile) ==> Mirrors(byEvent.Add(event, file), byFile.Add(file, event))
  {
    if !Mirrors(byEvent, byFile) {
      return;
    }
    var be, bf := byEvent.Add(event, file), byFile.Add(file, event);
    forall e, f
      ensures f in be.Get(e) <==> e in bf.Get(f)
    {
      assert f in be.Get(e) <==> f in byEvent.Get(e) || (e == event && f == file);
      assert e in bf.Get(f) <==> e in byFile.Get(f) || (e == event && f == file);
    }
  }

  /** The four indexes as values. */
  datatype Indexes = Indexes(
    eventSinks: Table,
    eventSources: Table,
    fileNameEventSinks: Table,
    fileNameEventSources: Table)
  {
    /** Every index is sound and each pair of views mirrors the other. */
    ghost predicate Valid() {
      && eventSinks.Sound() && eventSources.Sound()
      && fileNameEventSinks.Sound() && fileNameEventSources.Sound()
      && Mirrors(eventSinks, fileNameEventSinks)
      && Mirrors(eventSources, fileNameEventSources)
    }

    /** Records that `file` listens for `event`. */
    function RecordSink(file: string, event: string): (r: Indexes)
      ensures file in r.eventSinks.Get(event) && event in r.fileNameEventSinks.Get(file)
      ensures r.eventSources == eventSources && r.fileNameEventSources == fileNameEventSources
      ensures Valid() ==> r.Valid()
    {
      MirrorsAdd(eventSinks, fileNameEventSinks, event, file);
      this.(eventSinks := eventSinks.Add(event, file),
            fileNameEventSinks := fileNameEventSinks.Add(file, event))
    }

    /** Records that `file` emits `event`. */
    function RecordSource(file: string, event: string): (r: Indexes)
      ensures file in r.eventSources.Get(event) && event in r.fileNameEventSources.Get(file)
      ensures r.eventSinks == eventSinks && r.fileNameEventSinks == fileNameEventSinks
      ensures Valid() ==> r.Valid()
    {
      MirrorsAdd(eventSources, fileNameEventSources, event, file);
      this.(eventSources := eventSources.Add(event, file),
            fileNameEventSources := fileNameEventSources.Add(file, event))
    }

    function Record(o: Occurrence): Indexes {
      match o.kind
      case Sink => RecordSink(o.file, o.event)
      case Source => RecordSource(o.file, o.event)
    }

    /** `(file, event)` is in the event-keyed index of `kind`. */
    ghost predicate HasByEvent(file: string, event: string, kind: Kind) {
      match kind
      case Sink => file in eventSinks.Get(event)
      case Source => file in eventSources.Get(event)
    }

    /** `(file, event)` is in the file-keyed index of `kind`. */
    ghost predicate HasByFile(file: string, event: string, kind: Kind) {
      match kind
      case Sink => event in fileNameEventSinks.Get(file)
      case Source => event in fileNameEventSources.Get(file)
    }
  }

  /** The indexes at process start: four empty objects. */
  const Empty: Indexes := Indexes(EmptyTable, EmptyTable, EmptyTable, EmptyTable)

  /** Records the occurrences one after another, in order. */
  function RecordAll(ix: Indexes, os: seq<Occurrence>): Indexes
  {
    if os == [] then ix else RecordAll(ix, os[..|os| - 1]).Record(os[|os| - 1])
  }

  lemma EmptyValid()
    ensures Empty.Valid()
  {
  }

  /** Recording keeps every index sound and the views mirrored. */
  lemma {:induction false} RecordAllValid(ix: Indexes, os: seq<Occurrence>)
    requires ix.Valid()
    ensures RecordAll(ix, os).Valid()
  {
    if os != [] {
      RecordAllValid(ix, os[..|os| - 1]);
    }
  }

  /** Recording a sink pair that is already recorded changes nothing: a second
      identical record has no effect. */
  lemma RecordSinkIdempotent(ix: Indexes, file: string, event: string)
    ensures ix.RecordSink(file, event).RecordSink(file, event) == ix.RecordSink(file, event)
  {
    AddIdempotent(ix.eventSinks, event, file);
    AddIdempotent(ix.fileNameEventSinks, file, event);
  }

  lemma RecordSourceIdempotent(ix: Indexes, file: string, event: string)
    ensures ix.RecordSource(file, event).RecordSource(file, event) == ix.RecordSource(file, event)
  {
    AddIdempotent(ix.eventSources, event, file);
    AddIdempotent(ix.fileNameEventSources, file, event);
  }

  /** Recording only adds: each of the two indexes of its kind grows by the
      guarded push of `Add`, which keeps every other key's list and puts a new
      key last. */
  lemma RecordSinkAdds(ix: Indexes, file: string, event: string)
    ensures ix.RecordSink(file, event).eventSinks == ix.eventSinks.Add(event, file)
    ensures ix.RecordSink(file, event).fileNameEventSinks == ix.fileNameEventSinks.Add(file, event)
  {
  }

  lemma RecordSourceAdds(ix: Indexes, file: string, event: string)
    ensures ix.RecordSource(file, event).eventSources == ix.eventSources.Add(event, file)
    ensures ix.RecordSource(file, event).fileNameEventSources == ix.fileNameEventSources.Add(file, event)
  {
  }

  /** A valid state that already holds a listener pair is left as it is. */
  lemma RecordSinkPresent(ix: Indexes, file: string, event: string)
    requires ix.Valid() && file in ix.eventSinks.Get(event)
    ensures ix.RecordSink(file, event) == ix
  {
    assert event in ix.fileNameEventSinks.Get(file);
    AddPresent(ix.eventSinks, event, file);
    AddPresent(ix.fileNameEventSinks, file, event);
  }

  /** A valid state that already holds an emitter pair is left as it is. */
  lemma RecordSourcePresent(ix: Indexes, file: string, event: string)
    requires ix.Valid() && file in ix.eventSources.Get(event)
    ensures ix.RecordSource(file, event) == ix
  {
    assert event in ix.fileNameEventSources.Get(file);
    AddPresent(ix.eventSources, event, file);
    AddPresent(ix.fileNameEventSources, file, event);
  }

  /** One record adds exactly the recorded pair to the two indexes of its kind. */
  lemma RecordContents(ix: Indexes, o: Occurrence, file: string, event: string, kind: Kind)
    ensures ix.Record(o).HasByEvent(file, event, kind)
        <==> ix.HasByEvent(file, event, kind) || o == Occurrence(file, event, kind)
    ensures ix.Record(o).HasByFile(file, event, kind)
        <==> ix.HasByFile(file, event, kind) || o == Occurrence(file, event, kind)
  {
    match o.kind
    case Sink =>
      assert ix.Record(o) == ix.RecordSink(o.file, o.event);
      AddContents(ix.eventSinks, o.event, o.file, event, file);
      AddContents(ix.fileNameEventSinks, o.file, o.event, file, event);
    case Source =>
      assert ix.Record(o) == ix.RecordSource(o.file, o.event);
      AddContents(ix.eventSources, o.event, o.file, event, file);
      AddContents(ix.fileNameEventSources, o.file, o.event, file, event);
  }

  /** After a run of records, a pair is in an index exactly when it was there
      before or was recorded with that kind. */
  lemma {:induction false} RecordAllContents(ix: Indexes, os: seq<Occurrence>, file: string, event: string, kind: Kind)
    ensures RecordAll(ix, os).HasByEvent(file, event, kind)
        <==> ix.HasByEvent(file, event, kind) || Occurrence(file, event, kind) in os
    ensures RecordAll(ix, os).HasByFile(file, event, kind)
        <==> ix.HasByFile(file, event, kind) || Occurrence(file, event, kind) in os
  {
    if os != [] {
      var init, last := os[..|os| - 1], os[|os| - 1];
      assert os == init + [last];
      RecordAllContents(ix, init, file, event, kind);
      RecordContents(RecordAll(ix, init), last, file, event, kind);
    }
  }

  /** The order of the records does not matter for what the indexes contain:
      any permutation of the occurrences yields the same pairs in every index. */
  lemma RecordOrderIrrelevant(ix: Indexes, os1: seq<Occurrence>, os2: seq<Occurrence>, file: string, event: string, kind: Kind)
    requires multiset(os1) == multiset(os2)
    ensures RecordAll(ix, os1).HasByEvent(file, event, kind) <==> RecordAll(ix, os2).HasByEvent(file, event, kind)
    ensures RecordAll(ix, os1).HasByFile(file, event, kind) <==> RecordAll(ix, os2).HasByFile(file, event, kind)
  {
    var o := Occurrence(file, event, kind);
    assert o in os1 <==> o in multiset(os1);
    assert o in os2 <==> o in multiset(os2);
    RecordAllContents(ix, os1, file, event, kind);
    RecordAllContents(ix, os2, file, event, kind);
  }
}
