/**
 * Graph synthesis: the relationships dictionary that `createGraphString`
 * builds from the file-keyed source index and the event-keyed sink index.
 * For every source file in key order, every event it emits in list order,
 * and every file listening for that event in list order, the event is pushed
 * onto the list of the key `source + '" -> "' + sink`. Ignored events and
 * events nobody listens for contribute nothing.
 *
 * The key is the concatenated string, as in the source, not a pair of file
 * names; `KeyCollision` shows two different pairs sharing one key.
 */
module Synthesis {
  import opened Tables

  /** The text placed between the two file names of a relationship key. */
  const Arrow: string := "\" -> \""

  /** The key of the relationship from `source` to `sink`. */
  function RelName(source: string, sink: string): string {
    source + Arrow + sink
  }

  /** The string holds no double quote. */
  predicate QuoteFree(s: string) {
    '"' !in s
  }

  // ---------------------------------------------------------------------------
  // The three nested loops of `createGraphString`, as folds over prefixes.
  // ---------------------------------------------------------------------------

  /** The innermost loop: pushes `event` onto the relationship from `source`
      to each of `sinks`, in order. */
  function AddSinks(rels: Table, source: string, event: string, sinks: seq<string>): (r: Table)
    ensures rels.Valid() ==> r.Valid()
    ensures rels.NoEmptyLists() ==> r.NoEmptyLists()
  {
    if sinks == [] then rels
    else AddSinks(rels, source, event, sinks[..|sinks| - 1]).Push(RelName(source, sinks[|sinks| - 1]), event)
  }

  /** The middle loop: each event of `source` that is not ignored and that has
      an entry in the sink index is related to every listener. */
  function AddEvents(rels: Table, source: string, events: seq<string>, eventSinks: Table, ignoredEvents: seq<string>): (r: Table)
    ensures rels.Valid() ==> r.Valid()
    ensures rels.NoEmptyLists() ==> r.NoEmptyLists()
  {
    if events == [] then rels
    else
      var r := AddEvents(rels, source, events[..|events| - 1], eventSinks, ignoredEvents);
      var event := events[|events| - 1];
      if event in ignoredEvents then r
      else if event in eventSinks.lists then AddSinks(r, source, event, eventSinks.lists[event])
      else r
  }

  /** The outer loop, over the source files. */
  function AddFiles(rels: Table, files: seq<string>, fileNameEventSources: Table, eventSinks: Table, ignoredEvents: seq<string>): (r: Table)
    ensures rels.Valid() ==> r.Valid()
    ensures rels.NoEmptyLists() ==> r.NoEmptyLists()
  {
    if files == [] then rels
    else
      var r := AddFiles(rels, files[..|files| - 1], fileNameEventSources, eventSinks, ignoredEvents);
      var source := files[|files| - 1];
      AddEvents(r, source, fileNameEventSources.Get(source), eventSinks, ignoredEvents)
  }

  /** The relationships of a complete run, starting from `{}`. */
  function Relationships(fileNameEventSources: Table, eventSinks: Table, ignoredEvents: seq<string>): (r: Table)
    ensures r.Valid() && r.NoEmptyLists()
  {
    AddFiles(EmptyTable, fileNameEventSources.keys, fileNameEventSources, eventSinks, ignoredEvents)
  }

  /** One more listener: one more push. */
  lemma AddSinksStep(rels: Table, source: string, event: string, sinks: seq<string>, k: nat)
    requires k < |sinks|
    ensures AddSinks(rels, source, event, sinks[..k + 1])
         == AddSinks(rels, source, event, sinks[..k]).Push(RelName(source, sinks[k]), event)
  {
    assert sinks[..k + 1][..k] == sinks[..k];
  }

  /** One more event of the source file. */
  lemma AddEventsStep(rels: Table, source: string, events: seq<string>, eventSinks: Table, ignoredEvents: seq<string>, j: nat)
    requires j < |events|
    ensures AddEvents(rels, source, events[..j + 1], eventSinks, ignoredEvents)
         == var r := AddEvents(rels, source, events[..j], eventSinks, ignoredEvents);
            if events[j] !in ignoredEvents && events[j] in eventSinks.lists
            then AddSinks(r, source, events[j], eventSinks.lists[events[j]]) else r
  {
    assert events[..j + 1][..j] == events[..j];
  }

  /** One more source file. */
  lemma AddFilesStep(rels: Table, files: seq<string>, fileNameEventSources: Table, eventSinks: Table, ignoredEvents: seq<string>, i: nat)
    requires i < |files|
    ensures AddFiles(rels, files[..i + 1], fileNameEventSources, eventSinks, ignoredEvents)
         == AddEvents(AddFiles(rels, files[..i], fileNameEventSources, eventSinks, ignoredEvents),
                      files[i], fileNameEventSources.Get(files[i]), eventSinks, ignoredEvents)
  {
    assert files[..i + 1][..i] == files[..i];
  }

  // ---------------------------------------------------------------------------
  // What each loop contributes to one key, written as flat sequences.
  // ---------------------------------------------------------------------------

  /** The copies of `event` that the listeners `sinks` push onto key `relName`. */
  ghost function Hits(source: string, event: string, sinks: seq<string>, relName: string): seq<string> {
    if sinks == [] then []
    else Hits(source, event, sinks[..|sinks| - 1], relName)
         + (if RelName(source, sinks[|sinks| - 1]) == relName then [event] else [])
  }

  /** What the events of `source` push onto key `relName`. */
  ghost function EventHits(source: string, events: seq<string>, eventSinks: Table, ignoredEvents: seq<string>, relName: string): seq<string> {
    if events == [] then []
    else
      var event := events[|events| - 1];
      EventHits(source, events[..|events| - 1], eventSinks, ignoredEvents, relName)
      + (if event in ignoredEvents then [] else Hits(source, event, eventSinks.Get(event), relName))
  }

  /** What the source files `files` push onto key `relName`. */
  ghost function FileHits(files: seq<string>, fileNameEventSources: Table, eventSinks: Table, ignoredEvents: seq<string>, relName: string): seq<string> {
    if files == [] then []
    else
      var source := files[|files| - 1];
      FileHits(files[..|files| - 1], fileNameEventSources, eventSinks, ignoredEvents, relName)
      + EventHits(source, fileNameEventSources.Get(source), eventSinks, ignoredEvents, relName)
  }

  /** The events of `events`, in order, that are not ignored and that `sink`
      listens for: the label list an edge should carry. */
  ghost function Shared(events: seq<string>, sink: string, eventSinks: Table, ignoredEvents: seq<string>): seq<string> {
    if events == [] then []
    else
      var event := events[|events| - 1];
      Shared(events[..|events| - 1], sink, eventSinks, ignoredEvents)
      + (if event !in ignoredEvents && sink in eventSinks.Get(event) then [event] else [])
  }

  lemma {:induction false} AddSinksGet(rels: Table, source: string, event: string, sinks: seq<string>, relName: string)
    ensures AddSinks(rels, source, event, sinks).Get(relName) == rels.Get(relName) + Hits(source, event, sinks, relName)
  {
    if sinks != [] {
      var init, last := sinks[..|sinks| - 1], sinks[|sinks| - 1];
      AddSinksGet(rels, source, event, init, relName);
      var r := AddSinks(rels, source, event, init);
      var before, hits := rels.Get(relName), Hits(source, event, init, relName);
      if RelName(source, last) == relName {
        assert r.Push(relName, event).Get(relName) == before + hits + [event];
        AppendAssoc(before, hits, [event]);
      } else {
        assert r.Push(RelName(source, last), event).Get(relName) == before + hits;
        assert hits + [] == hits;
      }
    }
  }

  lemma AppendAssoc(a: seq<string>, b: seq<string>, c: seq<string>)
    ensures a + b + c == a + (b + c)
  {
  }

  lemma {:induction false} AddEventsGet(rels: Table, source: string, events: seq<string>, eventSinks: Table, ignoredEvents: seq<string>, relName: string)
    ensures AddEvents(rels, source, events, eventSinks, ignoredEvents).Get(relName)
         == rels.Get(relName) + EventHits(source, events, eventSinks, ignoredEvents, relName)
  {
    if events != [] {
      var init, event := events[..|events| - 1], events[|events| - 1];
      AddEventsGet(rels, source, init, eventSinks, ignoredEvents, relName);
      var r := AddEvents(rels, source, init, eventSinks, ignoredEvents);
      var before, hits := rels.Get(relName), EventHits(source, init, eventSinks, ignoredEvents, relName);
      if event in ignoredEvents {
        assert hits + [] == hits;
      } else if event in eventSinks.lists {
        var more := Hits(source, event, eventSinks.lists[event], relName);
        AddSinksGet(r, source, event, eventSinks.lists[event], relName);
        AppendAssoc(before, hits, more);
      } else {
        assert AddEvents(rels, source, events, eventSinks, ignoredEvents) == r;
        assert EventHits(source, events, eventSinks, ignoredEvents, relName) == hits + Hits(source, event, eventSinks.Get(event), relName);
        assert eventSinks.Get(event) == [];
      }
    }
  }

  lemma {:induction false} AddFilesGet(rels: Table, files: seq<string>, fileNameEventSources: Table, eventSinks: Table, ignoredEvents: seq<string>, relName: string)
    ensures AddFiles(rels, files, fileNameEventSources, eventSinks, ignoredEvents).Get(relName)
         == rels.Get(relName) + FileHits(files, fileNameEventSources, eventSinks, ignoredEvents, relName)
  {
    if files != [] {
      var init, source := files[..|files| - 1], files[|files| - 1];
      AddFilesGet(rels, init, fileNameEventSources, eventSinks, ignoredEvents, relName);
      var r := AddFiles(rels, init, fileNameEventSources, eventSinks, ignoredEvents);
      AddEventsGet(r, source, fileNameEventSources.Get(source), eventSinks, ignoredEvents, relName);
    }
  }

  /** The label list of every key is exactly what the loops push onto it. */
  lemma RelationshipsGet(fileNameEventSources: Table, eventSinks: Table, ignoredEvents: seq<string>, relName: string)
    ensures Relationships(fileNameEventSources, eventSinks, ignoredEvents).Get(relName)
         == FileHits(fileNameEventSources.keys, fileNameEventSources, eventSinks, ignoredEvents, relName)
  {
    AddFilesGet(EmptyTable, fileNameEventSources.keys, fileNameEventSources, eventSinks, ignoredEvents, relName);
  }

  // ---------------------------------------------------------------------------
  // Soundness: every label is justified by the indexes and the ignore list.
  // ---------------------------------------------------------------------------

  lemma {:induction false} HitsSound(source: string, event: string, sinks: seq<string>, relName: string, x: string)
    ensures x in Hits(source, event, sinks, relName)
        ==> x == event && exists sink :: sink in sinks && relName == RelName(source, sink)
  {
    if sinks != [] {
      HitsSound(source, event, sinks[..|sinks| - 1], relName, x);
    }
  }

  lemma {:induction false} EventHitsSound(source: string, events: seq<string>, eventSinks: Table, ignoredEvents: seq<string>, relName: string, x: string)
    ensures x in EventHits(source, events, eventSinks, ignoredEvents, relName)
        ==> x in events && x !in ignoredEvents
            && exists sink :: sink in eventSinks.Get(x) && relName == RelName(source, sink)
  {
    if events != [] {
      var init, event := events[..|events| - 1], events[|events| - 1];
      EventHitsSound(source, init, eventSinks, ignoredEvents, relName, x);
      HitsSound(source, event, eventSinks.Get(event), relName, x);
    }
  }

  lemma {:induction false} FileHitsSound(files: seq<string>, fileNameEventSources: Table, eventSinks: Table, ignoredEvents: seq<string>, relName: string, x: string)
    ensures x in FileHits(files, fileNameEventSources, eventSinks, ignoredEvents, relName)
        ==> x !in ignoredEvents
            && exists source, sink :: source in files && x in fileNameEventSources.Get(source)
                 && sink in eventSinks.Get(x) && relName == RelName(source, sink)
  {
    if files != [] {
      var init, source := files[..|files| - 1], files[|files| - 1];
      FileHitsSound(init, fileNameEventSources, eventSinks, ignoredEvents, relName, x);
      EventHitsSound(source, fileNameEventSources.Get(source), eventSinks, ignoredEvents, relName, x);
    }
  }

  /** Soundness: an event on a relationship's label list is not ignored, is
      emitted by a source file, is listened for by a sink file, and the key is
      the one built from those two files. */
  lemma RelationshipsSound(fileNameEventSources: Table, eventSinks: Table, ignoredEvents: seq<string>, relName: string, event: string)
    ensures event in Relationships(fileNameEventSources, eventSinks, ignoredEvents).Get(relName)
        ==> event !in ignoredEvents
            && exists source, sink :: source in fileNameEventSources.keys && event in fileNameEventSources.Get(source)
                 && sink in eventSinks.Get(event) && relName == RelName(source, sink)
  {
    RelationshipsGet(fileNameEventSources, eventSinks, ignoredEvents, relName);
    FileHitsSound(fileNameEventSources.keys, fileNameEventSources, eventSinks, ignoredEvents, relName, event);
  }

  /** An ignored event is on no label list, whatever sources and sinks it has. */
  lemma IgnoredNeverLabelled(fileNameEventSources: Table, eventSinks: Table, ignoredEvents: seq<string>, event: string)
    requires event in ignoredEvents
    ensures forall relName :: event !in Relationships(fileNameEventSources, eventSinks, ignoredEvents).Get(relName)
  {
    forall relName
      ensures event !in Relationships(fileNameEventSources, eventSinks, ignoredEvents).Get(relName)
    {
      RelationshipsSound(fileNameEventSources, eventSinks, ignoredEvents, relName, event);
    }
  }

  /** An emitted event that nobody listens for is silently dropped: it is on no
      label list. */
  lemma UnresolvedDropped(fileNameEventSources: Table, eventSinks: Table, ignoredEvents: seq<string>, event: string)
    requires event !in eventSinks.lists
    ensures forall relName :: event !in Relationships(fileNameEventSources, eventSinks, ignoredEvents).Get(relName)
  {
    forall relName
      ensures event !in Relationships(fileNameEventSources, eventSinks, ignoredEvents).Get(relName)
    {
      RelationshipsSound(fileNameEventSources, eventSinks, ignoredEvents, relName, event);
    }
  }

  // ---------------------------------------------------------------------------
  // Completeness: every justified label is there.
  // ---------------------------------------------------------------------------

  lemma {:induction false} HitsComplete(source: string, event: string, sinks: seq<string>, sink: string)
    requires sink in sinks
    ensures event in Hits(source, event, sinks, RelName(source, sink))
  {
    var init, last := sinks[..|sinks| - 1], sinks[|sinks| - 1];
    assert sinks == init + [last];
    if sink != last {
      HitsComplete(source, event, init, sink);
    }
  }

  lemma {:induction false} EventHitsComplete(source: string, events: seq<string>, eventSinks: Table, ignoredEvents: seq<string>, event: string, sink: string)
    requires event in events && event !in ignoredEvents && sink in eventSinks.Get(event)
    ensures event in EventHits(source, events, eventSinks, ignoredEvents, RelName(source, sink))
  {
    var init, last := events[..|events| - 1], events[|events| - 1];
    assert events == init + [last];
    if event == last {
      HitsComplete(source, event, eventSinks.Get(event), sink);
    } else {
      EventHitsComplete(source, init, eventSinks, ignoredEvents, event, sink);
    }
  }

  lemma {:induction false} FileHitsComplete(files: seq<string>, fileNameEventSources: Table, eventSinks: Table, ignoredEvents: seq<string>, source: string, event: string, sink: string)
    requires source in files && event in fileNameEventSources.Get(source)
    requires event !in ignoredEvents && sink in eventSinks.Get(event)
    ensures event in FileHits(files, fileNameEventSources, eventSinks, ignoredEvents, RelName(source, sink))
  {
    var init, last := files[..|files| - 1], files[|files| - 1];
    assert files == init + [last];
    if source == last {
      EventHitsComplete(source, fileNameEventSources.Get(source), eventSinks, ignoredEvents, event, sink);
    } else {
      FileHitsComplete(init, fileNameEventSources, eventSinks, ignoredEvents, source, event, sink);
    }
  }

  /** Completeness: for a source file, a non-ignored event it emits and a file
      listening for that event, the relationship between the two files exists
      and its label list holds the event. */
  lemma RelationshipsComplete(fileNameEventSources: Table, eventSinks: Table, ignoredEvents: seq<string>, source: string, event: string, sink: string)
    requires fileNameEventSources.Valid()
    requires event in fileNameEventSources.Get(source) && event !in ignoredEvents && sink in eventSinks.Get(event)
    ensures RelName(source, sink) in Relationships(fileNameEventSources, eventSinks, ignoredEvents).keys
    ensures event in Relationships(fileNameEventSources, eventSinks, ignoredEvents).Get(RelName(source, sink))
  {
    RelationshipsGet(fileNameEventSources, eventSinks, ignoredEvents, RelName(source, sink));
    FileHitsComplete(fileNameEventSources.keys, fileNameEventSources, eventSinks, ignoredEvents, source, event, sink);
  }

  /** A file that both emits and listens for a non-ignored event gets a
      relationship to itself. */
  lemma SelfRelationship(fileNameEventSources: Table, eventSinks: Table, ignoredEvents: seq<string>, file: string, event: string)
    requires fileNameEventSources.Valid()
    requires event in fileNameEventSources.Get(file) && event !in ignoredEvents && file in eventSinks.Get(event)
    ensures event in Relationships(fileNameEventSources, eventSinks, ignoredEvents).Get(RelName(file, file))
  {
    RelationshipsComplete(fileNameEventSources, eventSinks, ignoredEvents, file, event, file);
  }

  /** A relationship key exists exactly when some source file emits a
      non-ignored event that some file listens for, and the key is built from
      those two files. */
  lemma RelationshipExists(fileNameEventSources: Table, eventSinks: Table, ignoredEvents: seq<string>, relName: string)
    requires fileNameEventSources.Valid()
    ensures relName in Relationships(fileNameEventSources, eventSinks, ignoredEvents).keys
        <==> exists source, event, sink :: event in fileNameEventSources.Get(source) && event !in ignoredEvents
               && sink in eventSinks.Get(event) && relName == RelName(source, sink)
  {
    var rels := Relationships(fileNameEventSources, eventSinks, ignoredEvents);
    if relName in rels.keys {
      var event := rels.lists[relName][0];
      RelationshipsSound(fileNameEventSources, eventSinks, ignoredEvents, relName, event);
    }
    forall source, event, sink | event in fileNameEventSources.Get(source) && event !in ignoredEvents
        && sink in eventSinks.Get(event) && relName == RelName(source, sink)
      ensures relName in rels.keys
    {
      RelationshipsComplete(fileNameEventSources, eventSinks, ignoredEvents, source, event, sink);
    }
  }

  // ---------------------------------------------------------------------------
  // Exactness: with quote-free source file names, a label list is exactly the
  // shared events, each once.
  // ---------------------------------------------------------------------------

  /** The position of the first double quote, or the length when there is none. */
  function QuoteAt(s: string): (i: nat)
    ensures i <= |s|
  {
    if s == [] then 0 else if s[0] == '"' then 0 else 1 + QuoteAt(s[1..])
  }

  lemma {:induction false} QuoteAtPrefix(s: string, t: string)
    requires QuoteFree(s) && t != [] && t[0] == '"'
    ensures QuoteAt(s + t) == |s|
  {
    if s != [] {
      assert (s + t)[1..] == s[1..] + t;
      QuoteAtPrefix(s[1..], t);
    }
  }

  /** With quote-free source file names, a relationship key determines both
      file names (the first quote of a key closes the source file name). */
  lemma RelNameInjective(source1: string, sink1: string, source2: string, sink2: string)
    requires QuoteFree(source1) && QuoteFree(source2)
    ensures RelName(source1, sink1) == RelName(source2, sink2) <==> source1 == source2 && sink1 == sink2
  {
    QuoteAtPrefix(source1, Arrow + sink1);
    QuoteAtPrefix(source2, Arrow + sink2);
    assert RelName(source1, sink1) == source1 + (Arrow + sink1);
    assert RelName(source2, sink2) == source2 + (Arrow + sink2);
    assert RelName(source1, sink1)[..|source1|] == source1;
    assert RelName(source2, sink2)[..|source2|] == source2;
    assert RelName(source1, sink1)[|source1| + |Arrow|..] == sink1;
    assert RelName(source2, sink2)[|source2| + |Arrow|..] == sink2;
  }

  lemma {:induction false} HitsExact(source: string, event: string, sinks: seq<string>, source': string, sink: string)
    requires QuoteFree(source) && QuoteFree(source') && Distinct(sinks)
    ensures Hits(source, event, sinks, RelName(source', sink))
         == if source == source' && sink in sinks then [event] else []
  {
    if sinks != [] {
      var init, last := sinks[..|sinks| - 1], sinks[|sinks| - 1];
      assert sinks == init + [last];
      HitsExact(source, event, init, source', sink);
      RelNameInjective(source, last, source', sink);
    }
  }

  lemma {:induction false} EventHitsExact(source: string, events: seq<string>, eventSinks: Table, ignoredEvents: seq<string>, source': string, sink: string)
    requires QuoteFree(source) && QuoteFree(source') && eventSinks.NoDuplicates()
    ensures EventHits(source, events, eventSinks, ignoredEvents, RelName(source', sink))
         == if source == source' then Shared(events, sink, eventSinks, ignoredEvents) else []
  {
    if events != [] {
      var init, event := events[..|events| - 1], events[|events| - 1];
      EventHitsExact(source, init, eventSinks, ignoredEvents, source', sink);
      HitsExact(source, event, eventSinks.Get(event), source', sink);
    }
  }

  /** Dropping the last element of a duplicate-free sequence. */
  lemma DistinctInit(s: seq<string>, x: string)
    requires Distinct(s) && s != []
    ensures Distinct(s[..|s| - 1]) && s[|s| - 1] !in s[..|s| - 1]
    ensures forall y :: y in s[..|s| - 1] ==> y in s
    ensures x in s <==> x in s[..|s| - 1] || x == s[|s| - 1]
  {
    assert s == s[..|s| - 1] + [s[|s| - 1]];
  }

  lemma {:induction false} FileHitsExact(files: seq<string>, fileNameEventSources: Table, eventSinks: Table, ignoredEvents: seq<string>, source: string, sink: string)
    requires Distinct(files) && (forall f :: f in files ==> QuoteFree(f)) && QuoteFree(source)
    requires eventSinks.NoDuplicates()
    ensures FileHits(files, fileNameEventSources, eventSinks, ignoredEvents, RelName(source, sink))
         == if source in files then Shared(fileNameEventSources.Get(source), sink, eventSinks, ignoredEvents) else []
  {
    if files != [] {
      var init, last := files[..|files| - 1], files[|files| - 1];
      DistinctInit(files, source);
      FileHitsExact(init, fileNameEventSources, eventSinks, ignoredEvents, source, sink);
      EventHitsExact(last, fileNameEventSources.Get(last), eventSinks, ignoredEvents, source, sink);
      var here := EventHits(last, fileNameEventSources.Get(last), eventSinks, ignoredEvents, RelName(source, sink));
      var earlier := FileHits(init, fileNameEventSources, eventSinks, ignoredEvents, RelName(source, sink));
      if source == last {
        assert earlier == [];
        assert [] + here == here;
      } else {
        assert here == [];
        assert earlier + [] == earlier;
      }
    }
  }

  /** With quote-free source file names and duplicate-free sink lists, the
      label list of the relationship from `source` to `sink` is exactly the
      non-ignored events `source` emits that `sink` listens for, in the order
      `source` emits them. */
  lemma LabelsExact(fileNameEventSources: Table, eventSinks: Table, ignoredEvents: seq<string>, source: string, sink: string)
    requires fileNameEventSources.Valid() && eventSinks.NoDuplicates()
    requires (forall f :: f in fileNameEventSources.lists ==> QuoteFree(f)) && QuoteFree(source)
    ensures Relationships(fileNameEventSources, eventSinks, ignoredEvents).Get(RelName(source, sink))
         == Shared(fileNameEventSources.Get(source), sink, eventSinks, ignoredEvents)
  {
    RelationshipsGet(fileNameEventSources, eventSinks, ignoredEvents, RelName(source, sink));
    FileHitsExact(fileNameEventSources.keys, fileNameEventSources, eventSinks, ignoredEvents, source, sink);
  }

  lemma {:induction false} SharedDistinct(events: seq<string>, sink: string, eventSinks: Table, ignoredEvents: seq<string>)
    requires Distinct(events)
    ensures Distinct(Shared(events, sink, eventSinks, ignoredEvents))
    ensures forall x :: x in Shared(events, sink, eventSinks, ignoredEvents) ==> x in events
  {
    if events != [] {
      var init, last := events[..|events| - 1], events[|events| - 1];
      assert events == init + [last];
      assert Distinct(init) && last !in init;
      SharedDistinct(init, sink, eventSinks, ignoredEvents);
      DistinctAppend(Shared(init, sink, eventSinks, ignoredEvents), last);
    }
  }

  lemma DistinctAppend(s: seq<string>, x: string)
    requires Distinct(s) && x !in s
    ensures Distinct(s + [x])
  {
    forall i, j | 0 <= i < j < |s| + 1
      ensures (s + [x])[i] != (s + [x])[j]
    {
      if j == |s| {
        assert s[i] in s;
      }
    }
  }

  /** With quote-free source file names and duplicate-free indexes no event
      appears twice on one relationship's label list. */
  lemma LabelsDistinct(fileNameEventSources: Table, eventSinks: Table, ignoredEvents: seq<string>)
    requires fileNameEventSources.Sound() && eventSinks.NoDuplicates()
    requires forall f :: f in fileNameEventSources.lists ==> QuoteFree(f)
    ensures Relationships(fileNameEventSources, eventSinks, ignoredEvents).NoDuplicates()
  {
    var rels := Relationships(fileNameEventSources, eventSinks, ignoredEvents);
    forall relName | relName in rels.lists
      ensures Distinct(rels.lists[relName])
    {
      var event := rels.lists[relName][0];
      RelationshipsSound(fileNameEventSources, eventSinks, ignoredEvents, relName, event);
      var source, sink :| source in fileNameEventSources.keys && event in fileNameEventSources.Get(source)
        && sink in eventSinks.Get(event) && relName == RelName(source, sink);
      LabelsExact(fileNameEventSources, eventSinks, ignoredEvents, source, sink);
      SharedDistinct(fileNameEventSources.Get(source), sink, eventSinks, ignoredEvents);
    }
  }

  /** Two listeners of "go": one whose name holds the arrow, and "z". */
  const CollisionSinks: Table := Table(["go"], map["go" := ["y" + Arrow + "z", "z"]])

  /** Two source files emitting "go": "x" and one whose name holds the arrow. */
  const CollisionSources: Table := Table(["x", "x" + Arrow + "y"], map["x" := ["go"], "x" + Arrow + "y" := ["go"]])

  lemma CollisionHits(source: string)
    requires source == "x" || source == "x" + Arrow + "y"
    ensures Hits(source, "go", CollisionSinks.Get("go"), "x" + Arrow + "y" + Arrow + "z") == ["go"]
  {
    var key := "x" + Arrow + "y" + Arrow + "z";
    var listeners := ["y" + Arrow + "z", "z"];
    assert CollisionSinks.Get("go") == listeners;
    assert listeners[..1] == [listeners[0]] && listeners[..1][..0] == [];
    assert Hits(source, "go", listeners[..1][..0], key) == [];
    if source == "x" {
      assert RelName(source, listeners[0]) == key;
      assert |RelName(source, listeners[1])| < |key|;
      assert Hits(source, "go", listeners[..1], key) == ["go"];
    } else {
      assert |RelName(source, listeners[0])| > |key|;
      assert RelName(source, listeners[1]) == key;
      assert Hits(source, "go", listeners[..1], key) == [];
    }
  }

  /** A key does not determine its pair of files once a name may hold the
      arrow: the pair (a, b + arrow + c) and the pair (a + arrow + b, c) share
      one key. */
  lemma RelNameAmbiguous(a: string, b: string, c: string)
    ensures RelName(a, b + Arrow + c) == RelName(a + Arrow + b, c)
  {
    assert a + Arrow + (b + Arrow + c) == (a + Arrow + b) + Arrow + c;
  }

  lemma CollisionEventHits(source: string, key: string)
    requires source == "x" || source == "x" + Arrow + "y"
    requires key == "x" + Arrow + "y" + Arrow + "z"
    ensures EventHits(source, CollisionSources.Get(source), CollisionSinks, [], key) == ["go"]
  {
    assert CollisionSources.Get(source) == ["go"];
    assert ["go"][..0] == [];
    CollisionHits(source);
  }

  lemma FileHitsTwo(f1: string, f2: string, fileNameEventSources: Table, eventSinks: Table, ignoredEvents: seq<string>, relName: string)
    ensures FileHits([f1, f2], fileNameEventSources, eventSinks, ignoredEvents, relName)
         == EventHits(f1, fileNameEventSources.Get(f1), eventSinks, ignoredEvents, relName)
            + EventHits(f2, fileNameEventSources.Get(f2), eventSinks, ignoredEvents, relName)
  {
    var e1 := EventHits(f1, fileNameEventSources.Get(f1), eventSinks, ignoredEvents, relName);
    assert [f1, f2][..1] == [f1] && [f1][..0] == [];
    assert FileHits([f1], fileNameEventSources, eventSinks, ignoredEvents, relName) == [] + e1;
    assert [] + e1 == e1;
  }

  lemma CollisionFileHits(key: string)
    requires key == "x" + Arrow + "y" + Arrow + "z"
    ensures FileHits(CollisionSources.keys, CollisionSources, CollisionSinks, [], key) == ["go", "go"]
  {
    assert CollisionSources.keys == ["x", "x" + Arrow + "y"];
    FileHitsTwo("x", "x" + Arrow + "y", CollisionSources, CollisionSinks, [], key);
    CollisionEventHits("x", key);
    CollisionEventHits("x" + Arrow + "y", key);
    assert ["go"] + ["go"] == ["go", "go"];
  }

  /** With a double quote in a file name two different pairs of files share a
      key, and one event lands twice on its label list. */
  lemma KeyCollision()
    ensures RelName("x", "y" + Arrow + "z") == RelName("x" + Arrow + "y", "z")
    ensures Relationships(CollisionSources, CollisionSinks, []).Get("x" + Arrow + "y" + Arrow + "z") == ["go", "go"]
  {
    RelNameAmbiguous("x", "y", "z");
    var key := "x" + Arrow + "y" + Arrow + "z";
    CollisionFileHits(key);
    RelationshipsGet(CollisionSources, CollisionSinks, [], key);
  }

  // ---------------------------------------------------------------------------
  // The ignore list matters only through membership.
  // ---------------------------------------------------------------------------

  lemma {:induction false} AddEventsIgnoreUnused(rels: Table, source: string, events: seq<string>, eventSinks: Table, ignoredEvents: seq<string>, name: string)
    requires name !in events
    ensures AddEvents(rels, source, events, eventSinks, ignoredEvents + [name])
         == AddEvents(rels, source, events, eventSinks, ignoredEvents)
  {
    if events != [] {
      AddEventsIgnoreUnused(rels, source, events[..|events| - 1], eventSinks, ignoredEvents, name);
    }
  }

  lemma {:induction false} AddFilesIgnoreUnused(rels: Table, files: seq<string>, fileNameEventSources: Table, eventSinks: Table, ignoredEvents: seq<string>, name: string)
    requires forall f :: name !in fileNameEventSources.Get(f)
    ensures AddFiles(rels, files, fileNameEventSources, eventSinks, ignoredEvents + [name])
         == AddFiles(rels, files, fileNameEventSources, eventSinks, ignoredEvents)
  {
    if files != [] {
      var init, source := files[..|files| - 1], files[|files| - 1];
      AddFilesIgnoreUnused(rels, init, fileNameEventSources, eventSinks, ignoredEvents, name);
      var r := AddFiles(rels, init, fileNameEventSources, eventSinks, ignoredEvents);
      AddEventsIgnoreUnused(r, source, fileNameEventSources.Get(source), eventSinks, ignoredEvents, name);
    }
  }

  /** Ignoring a name that no file emits changes nothing. */
  lemma IgnoreUnusedNoOp(fileNameEventSources: Table, eventSinks: Table, ignoredEvents: seq<string>, name: string)
    requires forall f :: name !in fileNameEventSources.Get(f)
    ensures Relationships(fileNameEventSources, eventSinks, ignoredEvents + [name])
         == Relationships(fileNameEventSources, eventSinks, ignoredEvents)
  {
    AddFilesIgnoreUnused(EmptyTable, fileNameEventSources.keys, fileNameEventSources, eventSinks, ignoredEvents, name);
  }
}
