/**
 * The engine of index.js: the four module-level tables, the recording step
 * that runs for each extracted event name, `createGraphString`, and the run
 * that strings them together once every file has been scanned.
 */
module FlightDoc {
  import opened Tables
  import opened Aggregation
  import opened Synthesis
  import opened Rendering
  import opened IgnoreList

  /** The graph text a run prints for the given indexes and ignore list. */
  function GraphOf(ix: Indexes, ignoredEvents: seq<string>): string {
    Render(Relationships(ix.fileNameEventSources, ix.eventSinks, ignoredEvents))
  }

  /** The four tables, filled in place while files are scanned. */
  class Engine {
    var eventSinks: Table
    var eventSources: Table
    var fileNameEventSinks: Table
    var fileNameEventSources: Table

    /** The tables as one value. */
    function State(): Indexes
      reads this
    {
      Indexes(eventSinks, eventSources, fileNameEventSinks, fileNameEventSources)
    }

    ghost predicate Valid()
      reads this
    {
      State().Valid()
    }

    /** Four empty objects. */
    constructor ()
      ensures Valid() && State() == Empty
    {
      eventSinks := EmptyTable;
      eventSources := EmptyTable;
      fileNameEventSinks := EmptyTable;
      fileNameEventSources := EmptyTable;
    }

    /** The body of `processOnDocumentMatch` once the event name is known:
        `relFileName` listens for `eventName`. */
    method RecordSink(relFileName: string, eventName: string)
      requires Valid()
      modifies this
      ensures Valid()
      ensures State() == old(State()).RecordSink(relFileName, eventName)
    {
      ghost var before := State();
      eventSinks := eventSinks.GetOrCreate(eventName);
      if relFileName !in eventSinks.lists[eventName] {
        eventSinks := eventSinks.Append(eventName, relFileName);
      }
      assert eventSinks == before.eventSinks.Add(eventName, relFileName);

      fileNameEventSinks := fileNameEventSinks.GetOrCreate(relFileName);
      if eventName !in fileNameEventSinks.lists[relFileName] {
        fileNameEventSinks := fileNameEventSinks.Append(relFileName, eventName);
      }
      assert fileNameEventSinks == before.fileNameEventSinks.Add(relFileName, eventName);
      assert State() == before.RecordSink(relFileName, eventName);
    }

    /** The body of `processTrigger` once the event name is known:
        `relFileName` emits `eventName`. */
    method RecordSource(relFileName: string, eventName: string)
      requires Valid()
      modifies this
      ensures Valid()
      ensures State() == old(State()).RecordSource(relFileName, eventName)
    {
      ghost var before := State();
      eventSources := eventSources.GetOrCreate(eventName);
      if relFileName !in eventSources.lists[eventName] {
        eventSources := eventSources.Append(eventName, relFileName);
      }
      assert eventSources == before.eventSources.Add(eventName, relFileName);

      fileNameEventSources := fileNameEventSources.GetOrCreate(relFileName);
      if eventName !in fileNameEventSources.lists[relFileName] {
        fileNameEventSources := fileNameEventSources.Append(relFileName, eventName);
      }
      assert fileNameEventSources == before.fileNameEventSources.Add(relFileName, eventName);
      assert State() == before.RecordSource(relFileName, eventName);
    }

    /** `createGraphString`: builds the relationships dictionary, then the
        text. */
    method CreateGraphString(ignoredEvents: seq<string>) returns (str: string)
      ensures str == GraphOf(State(), ignoredEvents)
    {
      var relationships := BuildRelationships(ignoredEvents);
      str := RenderRelationships(relationships);
    }

    /** The first half of `createGraphString`: for each source file in key
        order, each event it emits that is not ignored and has listeners, and
        each listener, the event is pushed onto the relationship's list. */
    method BuildRelationships(ignoredEvents: seq<string>) returns (relationships: Table)
      ensures relationships == Relationships(fileNameEventSources, eventSinks, ignoredEvents)
    {
      relationships := EmptyTable;
      var files := fileNameEventSources.keys;
      for i := 0 to |files|
        invariant relationships == AddFiles(EmptyTable, files[..i], fileNameEventSources, eventSinks, ignoredEvents)
      {
        var eventSourceFileName := files[i];
        var events := fileNameEventSources.Get(eventSourceFileName);
        ghost var beforeFile := relationships;
        for j := 0 to |events|
          invariant relationships == AddEvents(beforeFile, eventSourceFileName, events[..j], eventSinks, ignoredEvents)
        {
          var event := events[j];
          AddEventsStep(beforeFile, eventSourceFileName, events, eventSinks, ignoredEvents, j);
          if event !in ignoredEvents && event in eventSinks.lists {
            var sinks := eventSinks.lists[event];
            ghost var beforeEvent := relationships;
            for k := 0 to |sinks|
              invariant relationships == AddSinks(beforeEvent, eventSourceFileName, event, sinks[..k])
            {
              var relName := eventSourceFileName + "\" -> \"" + sinks[k];
              AddSinksStep(beforeEvent, eventSourceFileName, event, sinks, k);
              relationships := relationships.GetOrCreate(relName);
              relationships := relationships.Append(relName, event);
            }
            assert sinks[..|sinks|] == sinks;
          }
        }
        assert events[..|events|] == events;
        AddFilesStep(EmptyTable, files, fileNameEventSources, eventSinks, ignoredEvents, i);
      }
      assert files[..|files|] == files;
    }
  }

  /** The second half of `createGraphString`: the header, one statement per
      relationship in key order, and the closing brace. */
  method RenderRelationships(relationships: Table) returns (str: string)
    ensures str == Render(relationships)
  {
    str := "";
    str := str + "digraph {\n";
    str := str + "\tsplines=curved;\n";
    str := str + "\tsep=\"+50,50\";";
    str := str + "\toverlap=scalexy;";
    str := str + "\tnodesep=0.6;";
    assert str == Header;
    var relNames := relationships.keys;
    for i := 0 to |relNames|
      invariant str == Header + Statements(relNames[..i], relationships)
    {
      var relName := relNames[i];
      var labels := relationships.Get(relName);
      assert relNames[..i + 1][..i] == relNames[..i];
      assert Statements(relNames[..i + 1], relationships) == Statements(relNames[..i], relationships) + Statement(relName, labels);
      str := str + ("\t\"" + relName + "\" [label = \"" + Join(labels, "\\l") + "\" ];\n");
    }
    assert relNames[..|relNames|] == relNames;
    str := str + "}";
  }

  /** One whole run: the ignore list is normalised, every occurrence the
      extractor reports is recorded in order, and the graph is built from the
      finished indexes. */
  method Run(option: IgnoreOption, occurrences: seq<Occurrence>) returns (graph: string)
    ensures graph == GraphOf(RecordAll(Empty, occurrences), IgnoredEvents(option))
  {
    var ignoredEvents := NormaliseIgnoreList(option);
    var engine := new Engine();
    for i := 0 to |occurrences|
      invariant engine.Valid() && engine.State() == RecordAll(Empty, occurrences[..i])
    {
      var o := occurrences[i];
      assert occurrences[..i + 1][..i] == occurrences[..i];
      match o.kind
      case Sink => engine.RecordSink(o.file, o.event);
      case Source => engine.RecordSource(o.file, o.event);
    }
    assert occurrences[..|occurrences|] == occurrences;
    graph := engine.CreateGraphString(ignoredEvents);
  }
}

/**
 * Worked runs: small inputs and the exact text the engine prints for them.
 */
module Scenarios {
  import opened Tables
  import opened Aggregation
  import opened Synthesis
  import opened Rendering
  import opened IgnoreList
  import opened FlightDoc

  const ReadyRun: seq<Occurrence> := [Occurrence("a.src", "ready", Source), Occurrence("b.src", "ready", Sink)]

  lemma ReadyIndexes()
    ensures RecordAll(Empty, ReadyRun).fileNameEventSources == Table(["a.src"], map["a.src" := ["ready"]])
    ensures RecordAll(Empty, ReadyRun).eventSinks == Table(["ready"], map["ready" := ["b.src"]])
  {
    assert ReadyRun[..1] == [ReadyRun[0]] && ReadyRun[..1][..0] == [];
    var ix1 := Empty.RecordSource("a.src", "ready");
    assert RecordAll(Empty, ReadyRun[..1]) == ix1;
    SingletonAdd("a.src", "ready");
    SingletonAdd("ready", "a.src");
    assert ix1.fileNameEventSources == Table(["a.src"], map["a.src" := ["ready"]]);
    assert ix1.eventSinks == EmptyTable;
    var ix2 := ix1.RecordSink("b.src", "ready");
    assert RecordAll(Empty, ReadyRun) == ix2;
    SingletonAdd("ready", "b.src");
    assert ix2.eventSinks == Table(["ready"], map["ready" := ["b.src"]]);
  }

  lemma SingletonAdd(k: string, v: string)
    ensures EmptyTable.Add(k, v) == Table([k], map[k := [v]])
  {
    var t := EmptyTable.GetOrCreate(k);
    assert [] + [k] == [k] && [] + [v] == [v];
    assert t == Table([k], map[k := []]);
    assert v !in t.lists[k];
    assert t.Append(k, v) == Table([k], map[k := []][k := [] + [v]]);
    assert map[k := []][k := [] + [v]] == map[k := [v]];
  }

  /** The relationships of the run: one key, labelled "ready". */
  lemma ReadyRelationships()
    ensures Relationships(RecordAll(Empty, ReadyRun).fileNameEventSources, RecordAll(Empty, ReadyRun).eventSinks, [])
         == Table([RelName("a.src", "b.src")], map[RelName("a.src", "b.src") := ["ready"]])
  {
    ReadyIndexes();
    OneEventOneEdge("a.src", "ready", "b.src");
  }

  /** One file emitting one event that one file listens for. */
  lemma OneEventOneEdge(source: string, event: string, sink: string)
    ensures Relationships(Table([source], map[source := [event]]), Table([event], map[event := [sink]]), [])
         == Table([RelName(source, sink)], map[RelName(source, sink) := [event]])
  {
    var sources := Table([source], map[source := [event]]);
    var sinks := Table([event], map[event := [sink]]);
    var key := RelName(source, sink);
    assert [source][..0] == [] && [source][..1] == [source];
    assert [event][..0] == [] && [event][..1] == [event];
    assert [sink][..0] == [] && [sink][..1] == [sink];
    AddSinksStep(EmptyTable, source, event, [sink], 0);
    AddEventsStep(EmptyTable, source, [event], sinks, [], 0);
    AddFilesStep(EmptyTable, [source], sources, sinks, [], 0);
    SingletonPush(key, event);
  }

  lemma SingletonPush(k: string, v: string)
    ensures EmptyTable.Push(k, v) == Table([k], map[k := [v]])
  {
    var t := EmptyTable.GetOrCreate(k);
    assert [] + [k] == [k] && [] + [v] == [v];
    assert t == Table([k], map[k := []]);
    assert t.Append(k, v) == Table([k], map[k := []][k := [] + [v]]);
    assert map[k := []][k := [] + [v]] == map[k := [v]];
  }

  /** One emitter and one listener of "ready": one statement, labelled "ready". */
  lemma SingleEdge()
    ensures GraphOf(RecordAll(Empty, ReadyRun), IgnoredEvents(Absent))
         == Header + ("\t\"" + "a.src\" -> \"b.src" + "\" [label = \"" + "ready" + "\" ];\n") + "}"
  {
    ReadyRelationships();
    var key := RelName("a.src", "b.src");
    var rels := Table([key], map[key := ["ready"]]);
    assert IgnoredEvents(Absent) == [];
    assert GraphOf(RecordAll(Empty, ReadyRun), []) == Render(rels);
    assert [key][..0] == [];
    assert Statements([key], rels) == Statement(key, ["ready"]);
    ReadyStatementText();
    assert Render(rels) == Header + Statement(key, ["ready"]) + "}";
  }

  /** The statement text, written in its fixed pieces and its two variable
      parts: the key and the label. */
  lemma ReadyStatementText()
    ensures Statement(RelName("a.src", "b.src"), ["ready"])
         == "\t\"" + "a.src\" -> \"b.src" + "\" [label = \"" + "ready" + "\" ];\n"
  {
    assert Join(["ready"], LabelBreak) == "ready";
    assert RelName("a.src", "b.src") == "a.src\" -> \"b.src";
  }

  /** The same run with `--ignore-event ready`: the header and the closing
      brace only. */
  lemma IgnoredEdge()
    ensures GraphOf(RecordAll(Empty, ReadyRun), IgnoredEvents(Single("ready"))) == Header + "}"
  {
    ReadyIndexes();
    ReadyIgnored();
    assert IgnoredEvents(Single("ready")) == ["ready"];
  }

  lemma ReadyIgnored()
    ensures Relationships(Table(["a.src"], map["a.src" := ["ready"]]), Table(["ready"], map["ready" := ["b.src"]]), ["ready"]) == EmptyTable
  {
    var sources := Table(["a.src"], map["a.src" := ["ready"]]);
    var sinks := Table(["ready"], map["ready" := ["b.src"]]);
    assert ["a.src"][..0] == [] && ["ready"][..0] == [];
    assert AddEvents(EmptyTable, "a.src", ["ready"], sinks, ["ready"]) == EmptyTable;
  }

  const TwoEventRun: seq<Occurrence> :=
    [Occurrence("a.src", "x", Source), Occurrence("a.src", "y", Source),
     Occurrence("b.src", "x", Sink), Occurrence("b.src", "y", Sink)]

  lemma RecordAllSnoc(ix: Indexes, os: seq<Occurrence>, o: Occurrence)
    ensures RecordAll(ix, os + [o]) == RecordAll(ix, os).Record(o)
  {
    assert (os + [o])[..|os|] == os;
  }

  lemma TwoEventSteps()
    ensures RecordAll(Empty, TwoEventRun)
         == Empty.RecordSource("a.src", "x").RecordSource("a.src", "y").RecordSink("b.src", "x").RecordSink("b.src", "y")
  {
    var o1, o2, o3, o4 := TwoEventRun[0], TwoEventRun[1], TwoEventRun[2], TwoEventRun[3];
    assert TwoEventRun == [] + [o1] + [o2] + [o3] + [o4];
    RecordAllSnoc(Empty, [], o1);
    RecordAllSnoc(Empty, [] + [o1], o2);
    RecordAllSnoc(Empty, [] + [o1] + [o2], o3);
    RecordAllSnoc(Empty, [] + [o1] + [o2] + [o3], o4);
  }

  lemma AddSecondValue(k: string, v1: string, v2: string)
    requires v1 != v2
    ensures Table([k], map[k := [v1]]).Add(k, v2) == Table([k], map[k := [v1, v2]])
  {
    var t := Table([k], map[k := [v1]]);
    assert t.GetOrCreate(k) == t;
    assert v2 !in t.lists[k];
    assert [v1] + [v2] == [v1, v2];
    assert t.lists[k := [v1] + [v2]] == map[k := [v1, v2]];
  }

  lemma AddSecondKey(k1: string, k2: string, v: string)
    requires k1 != k2
    ensures Table([k1], map[k1 := [v]]).Add(k2, v) == Table([k1, k2], map[k1 := [v], k2 := [v]])
  {
    var t := Table([k1], map[k1 := [v]]);
    var u := t.GetOrCreate(k2);
    assert u == Table([k1] + [k2], map[k1 := [v], k2 := []]);
    assert [k1] + [k2] == [k1, k2] && [] + [v] == [v];
    assert u.Append(k2, v) == Table([k1, k2], map[k1 := [v], k2 := []][k2 := [] + [v]]);
    assert map[k1 := [v], k2 := []][k2 := [] + [v]] == map[k1 := [v], k2 := [v]];
  }

  lemma TwoEventSources()
    ensures Empty.RecordSource("a.src", "x").RecordSource("a.src", "y").fileNameEventSources
         == Table(["a.src"], map["a.src" := ["x", "y"]])
  {
    SingletonAdd("a.src", "x");
    AddSecondValue("a.src", "x", "y");
  }

  lemma TwoEventSinks()
    ensures EmptyTable.Add("x", "b.src").Add("y", "b.src") == Table(["x", "y"], map["x" := ["b.src"], "y" := ["b.src"]])
  {
    SingletonAdd("x", "b.src");
    AddSecondKey("x", "y", "b.src");
  }

  lemma TwoEventIndexes()
    ensures RecordAll(Empty, TwoEventRun).fileNameEventSources == Table(["a.src"], map["a.src" := ["x", "y"]])
    ensures RecordAll(Empty, TwoEventRun).eventSinks == Table(["x", "y"], map["x" := ["b.src"], "y" := ["b.src"]])
  {
    TwoEventSteps();
    TwoEventSources();
    TwoEventSinks();
    var ix2 := Empty.RecordSource("a.src", "x").RecordSource("a.src", "y");
    assert ix2.eventSinks == EmptyTable;
    assert ix2.RecordSink("b.src", "x").eventSinks == EmptyTable.Add("x", "b.src");
  }

  lemma TwoEventPushes(key: string)
    ensures EmptyTable.Push(key, "x").Push(key, "y") == Table([key], map[key := ["x", "y"]])
  {
    SingletonPush(key, "x");
    PushSecond(key, "x", "y");
  }

  lemma PushSecond(k: string, v1: string, v2: string)
    ensures Table([k], map[k := [v1]]).Push(k, v2) == Table([k], map[k := [v1, v2]])
  {
    var t := Table([k], map[k := [v1]]);
    assert t.GetOrCreate(k) == t;
    assert [v1] + [v2] == [v1, v2];
    assert t.lists[k := [v1] + [v2]] == map[k := [v1, v2]];
  }

  /** Two events of one source file, one after the other, each reaching the
      same listener. */
  lemma TwoEventLoops(key: string, sinks: Table, source: string, e1: string, e2: string, sink: string)
    requires key == RelName(source, sink)
    requires sinks.lists == map[e1 := [sink], e2 := [sink]]
    ensures AddEvents(EmptyTable, source, [e1, e2], sinks, []) == EmptyTable.Push(key, e1).Push(key, e2)
  {
    var events := [e1, e2];
    var r1 := EmptyTable.Push(key, e1);
    assert sinks.lists[e1] == [sink] && sinks.lists[e2] == [sink];
    assert [sink][..0] == [] && [sink][..1] == [sink];
    assert events[..0] == [] && events[..2] == events && events[0] == e1 && events[1] == e2;
    AddSinksStep(EmptyTable, source, e1, [sink], 0);
    AddSinksStep(r1, source, e2, [sink], 0);
    AddEventsStep(EmptyTable, source, events, sinks, [], 0);
    assert AddEvents(EmptyTable, source, events[..1], sinks, []) == r1;
    AddEventsStep(EmptyTable, source, events, sinks, [], 1);
  }

  /** Both events land on the single relationship, in emission order. */
  lemma TwoEventRelationships()
    ensures Relationships(RecordAll(Empty, TwoEventRun).fileNameEventSources, RecordAll(Empty, TwoEventRun).eventSinks, [])
         == Table([RelName("a.src", "b.src")], map[RelName("a.src", "b.src") := ["x", "y"]])
  {
    TwoEventIndexes();
    var sources := Table(["a.src"], map["a.src" := ["x", "y"]]);
    var sinks := Table(["x", "y"], map["x" := ["b.src"], "y" := ["b.src"]]);
    var key := RelName("a.src", "b.src");
    TwoEventPushes(key);
    TwoEventLoops(key, sinks, "a.src", "x", "y", "b.src");
    assert ["a.src"][..0] == [];
    assert AddFiles(EmptyTable, ["a.src"], sources, sinks, []) == AddEvents(EmptyTable, "a.src", ["x", "y"], sinks, []);
  }

  lemma TwoEventStatementText()
    ensures Statement(RelName("a.src", "b.src"), ["x", "y"])
         == "\t\"" + "a.src\" -> \"b.src" + "\" [label = \"" + "x\\ly" + "\" ];\n"
  {
    assert ["x", "y"][..1] == ["x"];
    assert Join(["x", "y"], LabelBreak) == "x" + LabelBreak + "y";
    assert "x" + LabelBreak + "y" == "x\\ly";
    assert RelName("a.src", "b.src") == "a.src\" -> \"b.src";
  }

  /** A file emitting two events another file listens for: one statement,
      labelled with both names joined by the line break. */
  lemma TwoEventsOneEdge()
    ensures GraphOf(RecordAll(Empty, TwoEventRun), IgnoredEvents(Absent))
         == Header + ("\t\"" + "a.src\" -> \"b.src" + "\" [label = \"" + "x\\ly" + "\" ];\n") + "}"
  {
    TwoEventRelationships();
    var key := RelName("a.src", "b.src");
    var rels := Table([key], map[key := ["x", "y"]]);
    assert IgnoredEvents(Absent) == [];
    assert GraphOf(RecordAll(Empty, TwoEventRun), []) == Render(rels);
    assert [key][..0] == [];
    assert Statements([key], rels) == Statement(key, ["x", "y"]);
    TwoEventStatementText();
    assert Render(rels) == Header + Statement(key, ["x", "y"]) + "}";
  }

  /** An event that is emitted but never listened for: no statement at all. */
  lemma UnresolvedEventDropped()
    ensures GraphOf(RecordAll(Empty, [Occurrence("a.src", "orphan", Source)]), IgnoredEvents(Absent)) == Header + "}"
  {
    var os := [Occurrence("a.src", "orphan", Source)];
    assert os[..0] == [];
    SingletonAdd("a.src", "orphan");
    SingletonAdd("orphan", "a.src");
    var ix := RecordAll(Empty, os);
    assert ix == Empty.RecordSource("a.src", "orphan");
    assert ix.fileNameEventSources == Table(["a.src"], map["a.src" := ["orphan"]]);
    assert ix.eventSinks == EmptyTable;
    assert ["a.src"][..0] == [] && ["orphan"][..0] == [];
    assert Relationships(ix.fileNameEventSources, ix.eventSinks, []) == EmptyTable;
  }

  /** No directories at all: the header and the closing brace only. */
  lemma NothingScanned(option: IgnoreOption)
    ensures GraphOf(RecordAll(Empty, []), IgnoredEvents(option)) == Header + "}"
  {
  }
}
