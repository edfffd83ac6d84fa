# node-flight-doc: a Dafny model of the graph engine

node-flight-doc scans JavaScript files for Flight-style events. A file
*listens* for an event when it calls `.on(document, 'name', ...)`. It *emits*
an event when it calls `.trigger('name', ...)`. After the scan the tool prints
a Graphviz `digraph`. The graph has one edge from each emitting file to each
listening file of a shared event, and each edge is labelled with the events
the two files share.

This project models the engine of `index.js`:

- **Tables** (`tables.dfy`). A JavaScript object used as a dictionary from a
  string to an array of strings. It is a key order (the order in which keys
  were first created, which is the order `Object.keys` reports) plus a map.
  It provides the three update idioms the program uses:
  - `x[k] = x[k] || []` (`GetOrCreate`);
  - an unconditional `push` (`Push`);
  - a `push` guarded by `indexOf(v) < 0` (`Add`).
- **Aggregation** (`aggregation.dfy`). The four indexes, as values:
  - `eventSinks` and `eventSources` map an event to its files;
  - `fileNameEventSinks` and `fileNameEventSources` map a file to its events.

  This module also defines one record step per occurrence, a whole run of
  records, and the invariants the indexes keep.
- **Synthesis** (`synthesis.dfy`). The first half of `createGraphString`: the
  three nested loops that build the `relationships` dictionary, written as
  folds. It proves:
  - soundness, completeness and the ignore rule;
  - exactly what each label list holds.
- **Rendering** (`rendering.dfy`). The second half of `createGraphString`:
  - the fixed header;
  - one statement per relationship, in key order, with its events joined by
    `\l`;
  - the closing brace.
- **IgnoreList** (`ignore.dfy`). The normalisation of the `--ignore-event`
  option.
- **FlightDoc** (`flightdoc.dfy`). The program's own imperative form:
  - `Engine` is a class whose four fields are the module-level objects;
  - its `RecordSink` and `RecordSource` methods update those fields in place;
  - `BuildRelationships` is the three `forEach` loops as `for` loops;
  - `RenderRelationships` is the string-appending loop;
  - `Run` strings the whole program together.

  Each method is proved equal to the functional definition in the modules
  above.
- **Scenarios** (`flightdoc.dfy`). Concrete runs whose whole output text is
  computed from the model.

### The relationship key

The code keys a relationship by the string `source + '" -> "' + sink`
(`index.js:60`), not by the pair of file names. The model does the same
(`Synthesis.RelName`).

Two properties one expects of the graph:
- each label list holds each shared event exactly once;
- a key stands for one pair of files.

Both hold whenever no *source* file name holds a double quote:
- `Synthesis.RelNameInjective` proves that under that condition, a key
  determines both names;
- `Synthesis.LabelsExact` proves the label list is the events the two files
  share, and `Synthesis.LabelsDistinct` proves it has no duplicates;
- `Synthesis.RelNameAmbiguous` and `Synthesis.KeyCollision` show what happens
  without the condition. Two different pairs can share one key, and one event
  then appears twice on its label list. A quote in a source name does not
  always break the properties: it breaks them only when a second pair happens
  to produce the same key.

It is not enough for names to avoid the arrow `" -> "` itself: the arrow
starts and ends with a double quote, so the name next to it can complete it.

The renderer escapes nothing either (`index.js:77`). The model renders the
text exactly as written.

### Ignore list

`if (args['ignore-event'])` tests JavaScript truthiness (`index.js:23`). So
`--ignore-event ""` behaves as if the option were absent.

## Model

| member | source | states |
|---|---|---|
| Tables.Table.GetOrCreate | index.js:130 | `x[k] = x[k] \|\| []` makes `k` a key and changes no list. A new key goes to the end of the key order, and the key order stays duplicate-free and in step with the dictionary. |
| Tables.Table.Push | index.js:61-62 | Get-or-create, then push. The list of `k` gains `v` at its end and every other list is unchanged. Keys are new only when absent. Validity and non-empty lists are preserved. |
| Tables.Table.Add | index.js:130-133 | The `indexOf` guard. The list of `k` gains `v` at its end exactly when it did not hold it, and its members are the old ones plus `v`. Every other list is unchanged. Key order, validity, non-empty lists and duplicate-freedom are all preserved. |
| Tables.AddContents | index.js:130-133 | After `Add(k, v)`, an element is in a list exactly when it was there before or is `v` on key `k`. |
| Tables.AddIdempotent | index.js:131-133 | Adding the same pair twice equals adding it once. |
| Tables.EmptyTableSound | index.js:31-34 | A fresh `{}` satisfies the index invariant. |
| Aggregation.MirrorsAdd | index.js:130-138 | Adding one pair to both the event-keyed and the file-keyed view keeps the two views holding the same pairs. |
| Aggregation.Indexes.RecordSink | index.js:130-138 | The pair ends up in `eventSinks` and in `fileNameEventSinks`. The two source indexes are unchanged. The invariant is kept: sound tables and mirrored views. |
| Aggregation.Indexes.RecordSource | index.js:147-155 | The pair ends up in `eventSources` and in `fileNameEventSources`. The two sink indexes are unchanged. The invariant is kept. |
| Aggregation.EmptyValid | index.js:31-34 | The four empty objects satisfy the invariant. |
| Aggregation.RecordAllValid | index.js:106-123 | Any sequence of records keeps the invariant. |
| Aggregation.RecordSinkAdds | index.js:130-138 | A listener record changes `eventSinks` and `fileNameEventSinks` by exactly the guarded push `Add`: it only appends, other keys keep their lists, and a new key goes last. |
| Aggregation.RecordSourceAdds | index.js:147-155 | An emitter record changes `eventSources` and `fileNameEventSources` by exactly the guarded push `Add`. |
| Aggregation.RecordSinkPresent | index.js:130-138 | In a valid state, recording a listener pair that is already present, at any later time, leaves every index as it is. |
| Aggregation.RecordSourcePresent | index.js:147-155 | In a valid state, recording an emitter pair that is already present leaves every index as it is. |
| Tables.AddPresent | index.js:131-133 | Adding a value already on its key's list leaves the table unchanged. |
| Aggregation.RecordSinkIdempotent | index.js:130-138 | Recording the same listener pair twice has no further effect. |
| Aggregation.RecordSourceIdempotent | index.js:147-155 | Recording the same emitter pair twice has no further effect. |
| Aggregation.RecordContents | index.js:125-157 | One record adds exactly its own pair, in both views of its kind, and nothing else. |
| Aggregation.RecordAllContents | index.js:106-123 | After a run, a pair is in an index exactly when it was there before or one of the occurrences recorded it with that kind. |
| Aggregation.RecordOrderIrrelevant | index.js:36-45 | Any permutation of the occurrences gives every index the same contents. This covers the unordered completion of concurrent file scans. |
| Synthesis.Relationships | index.js:48-68 | The relationships dictionary has a duplicate-free key order matching its keys, and no key has an empty list. |
| Synthesis.RelationshipsGet | index.js:50-63 | The list of every key is exactly what the loops push onto it, in loop order. |
| Synthesis.RelationshipsSound | index.js:50-63 | An event on a label list is not ignored, and some source file in key order emits it. Its key is `RelName(source, sink)` for a file `sink` that listens for it. |
| Synthesis.IgnoredNeverLabelled | index.js:53-55 | An ignored event is on no label list. |
| Synthesis.UnresolvedDropped | index.js:57-66 | An event with no entry in `eventSinks` is on no label list. |
| Synthesis.RelationshipsComplete | index.js:50-63 | Take a non-ignored event that a source file emits and a file listening for it. The key for the two files exists, and its list holds the event. |
| Synthesis.SelfRelationship | index.js:50-63 | A file that both emits and listens for a non-ignored event gets a key to itself labelled with that event. |
| Synthesis.RelationshipExists | index.js:50-63 | A key exists if and only if some file emits a non-ignored event that some file listens for, and the key is built from those two files. |
| Synthesis.RelNameInjective | index.js:60 | With quote-free source names, equal keys mean equal source and sink names, and conversely. |
| Synthesis.LabelsExact | index.js:50-63 | With quote-free source names and duplicate-free sink lists, a label list is exactly the events the source emits that are not ignored and that the sink listens for, in emission order. |
| Synthesis.LabelsDistinct | index.js:50-63 | Under the same conditions, no label list holds an event twice. |
| Synthesis.RelNameAmbiguous | index.js:60 | The pairs (a, b + arrow + c) and (a + arrow + b, c) share one key. |
| Synthesis.KeyCollision | index.js:60-62 | A concrete index in which one event lands twice on one label list through such a shared key. |
| Synthesis.IgnoreUnusedNoOp | index.js:53 | Ignoring a name that no file emits changes no relationship. |
| Rendering.Render | index.js:70-80 | The text begins with the fixed header and ends with `}`. With no relationships it is exactly the header and `}`. |
| Rendering.RenderInKeyOrder | index.js:75-78 | The statement of the i-th key comes right after all earlier keys' statements and right before all later ones. |
| Rendering.JoinAppend | index.js:77 | `join` of two non-empty lists placed one after the other is the join of the first, one separator, and the join of the second. |
| IgnoreList.IgnoredEvents | index.js:22-29 | An array is used as given. A non-empty string gives a one-element list. An absent option or the empty string gives the empty list. |
| IgnoreList.NormaliseIgnoreList | index.js:22-29 | The imperative normalisation, starting from `[]`, yields `IgnoredEvents`. |
| FlightDoc.Engine.constructor | index.js:31-34 | The four objects start empty and satisfy the invariant. |
| FlightDoc.Engine.RecordSink | index.js:130-138 | Updating the fields in place keeps the invariant. The new state is the old state's `RecordSink`. |
| FlightDoc.Engine.RecordSource | index.js:147-155 | Updating the fields in place keeps the invariant. The new state is the old state's `RecordSource`. |
| FlightDoc.Engine.BuildRelationships | index.js:48-68 | The three nested loops compute `Relationships` of the current indexes. |
| FlightDoc.RenderRelationships | index.js:70-80 | The string-appending loop computes `Render`. |
| FlightDoc.Engine.CreateGraphString | index.js:47-81 | The graph text is `Render(Relationships(...))` of the current indexes. |
| FlightDoc.Run | index.js:22-45 | Normalise the ignore list, record every occurrence, then build the graph. The text handed to `console.log` is the graph of the recorded indexes. |
| Scenarios.SingleEdge | index.js:47-81 | `a.src` emits `ready` and `b.src` listens for it. The output is the header, one statement `"a.src" -> "b.src"` labelled `ready`, then `}`. |
| Scenarios.IgnoredEdge | index.js:22-29 | The same run with `--ignore-event ready` prints only the header and `}`. |
| Scenarios.TwoEventsOneEdge | index.js:47-81 | Two events shared by one pair of files give one statement labelled `x\ly`. |
| Scenarios.UnresolvedEventDropped | index.js:57-66 | An event emitted but never listened for gives no statement. |
| Scenarios.NothingScanned | index.js:47-81 | With nothing recorded, the output is the header and `}` whatever the ignore list. |

## Left out

- Command-line parsing with optimist, and the help flag that exits with status 1 (`index.js:9-20`): the parsed `--ignore-event` value is an input of the model.
- Non-string scalar values optimist can produce for `--ignore-event`, such as a number or `true`: the model accepts only absent, a string, or an array of strings.
- Directory walking with glob, file reading, and their error paths (`index.js:36-45`, `83-104`): file names and extracted events reach the model as a sequence of occurrences.
- The regular expressions that extract event names (`index.js:106-126`, `143`): the event name is an input of the record step.
- The concurrency of `async.forEach`: occurrences are recorded one at a time in some order, and `Aggregation.RecordOrderIrrelevant` shows that the order does not change what the indexes contain. The order of the keys and of each list does follow the recording order, so different completion orders of the scans can print different, equivalent graphs (the same statements and labels, in another order).
- Writing the graph or an error to the console (`index.js:37-43`).
- `Object.keys` lists integer-like keys first, in numeric order. The model uses plain insertion order for every key.
- Keys that JavaScript looks up on `Object.prototype`, such as `constructor` or `__proto__`. In JavaScript these make `x[k] || []` return a non-array and the program fails; the model treats them as ordinary keys.
- Synthesis.LabelsExact: stated only for quote-free source file names, because the key is a concatenated string (`Synthesis.KeyCollision` shows the claim false without that condition).
- Synthesis.LabelsDistinct: stated only for quote-free source file names, for the same reason.
