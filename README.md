# firestore-ui-utils, modelled in Dafny

This project models the core of two command-line utilities for a Firestore collection:

- the **document duplicator** (`lib/duplicate.js`). It validates its settings, then copies one source document `NUM_OF_DUPLICATES` times. Each copy gets an id built from an optional prefix, the source id, an optional postfix and a timestamp-based suffix, or a database-generated id when there is neither prefix nor postfix.
- the **bulk inserter** (`lib/insert.js`). It takes a parsed JSON array of documents and runs each one through the **timestamp normaliser**. That step turns `{_seconds, _nanoseconds}` objects under `pubDate`, `updatedDate` and `lastModified` into native timestamps. Each document is then written under its `slug` or under a generated id. Successes and failures are counted, and a failed write does not stop the batch.

Modules, one per component:

| file | module | models |
|---|---|---|
| `json.dfy` | `Wrappers`, `JsonValues` | Option/Result; JSON values with JavaScript truthiness and property reads |
| `timestamps.dfy` | `Timestamps` | `convertTimestamp`, `convertTimestamps` (pure functions and lemmas) |
| `store.dfy` | `DocumentStore` | one collection: documents by id plus generated ids, as a class `Collection` with a value-level specification `StoreState` |
| `insert.dfy` | `Insert` | the loop of `insertDocuments` (method with loop invariants, specified by `InsertDocumentsSpec`) |
| `text.dfy` | `Text` | `trim`, decimal rendering of integers, `join("_")` |
| `duplicate.dfy` | `Duplicate` | settings validation, `generateNewDocId`, `duplicateDocument` and the loop of `run` |

Each stateful operation is a method on a `Collection`. Its postcondition equates the collection's new state and its result with a specification function of the old state (`InsertDocumentsSpec`, `DuplicateOne`, `RunSpec`). The lemmas prove what the source promises about those functions.

The database, the clock and write failures are parameters:

- **Collection.** The database is a `Collection` holding a map from `DocId` to `Json`.
- **Generated ids.** A generated id is `Auto(n)`, taken from a counter. This makes generated ids distinct from every caller-chosen `Named` id, as Firestore's random 20-character ids are in practice.
- **Write failures.** A set `failing` of loop indices says which iterations' database calls throw.
- **Clock.** `Date.now()` in iteration `i` of the duplicator is `clock(i)`.

Behaviour of the code worth noting:

- The shape test for a wire timestamp is only "truthy and has a `_seconds` field" (`lib/insert.js:10`). The types of `_seconds` and `_nanoseconds` are not checked.
- The millisecond value is `_seconds * 1000 + _nanoseconds / 1000000`, computed in floating point. The model keeps this value opaque.
- A `null` element of the inserted array ends the whole run. Reading `.slug` from it throws inside the catch block (`lib/insert.js:96`), so the whole run aborts after the writes already made.
- The log lines convert values to text, and that conversion throws for an object with its own `toString` key, or an array holding one. Such a title turns a written document into a counted error, and such a slug in a failing element aborts the run (see Findings).
- `duplicateDocument` reads the source again on every iteration.
- The command dispatcher `index.js` only knows `duplicate`; the inserter is reached only through its own `run`.

## Model

| member | source | states |
|---|---|---|
| `Timestamps.ConvertTimestamp` | lib/insert.js:9-17 | a value that is truthy and has a `_seconds` field becomes a native timestamp carrying that `_seconds` value and `NanosOrZero` of the value (so a missing or falsy `_nanoseconds` counts as 0); any other value is returned unchanged |
| `Timestamps.MissingNanosReadAsZero` | lib/insert.js:10-13 | `{_seconds: s}` with no `_nanoseconds` converts to the native timestamp of `s` and 0 |
| `Timestamps.NanosOrZero` | lib/insert.js:13 | the nanosecond count is the `_nanoseconds` value when it is present and truthy, and 0 otherwise |
| `Timestamps.WireTimestampRoundTrip` | lib/insert.js:9-17 | converting the wire form `{_seconds: s, _nanoseconds: n}` gives the native timestamp of `s` and `n`, with a falsy `n` read as 0 |
| `Timestamps.ConvertTimestamps` | lib/insert.js:22-39 | an array maps element-wise to an array of the same length; an object maps to an object with the same keys in the same order, each value given by `ConvertEntry`; null, booleans, numbers and strings are returned unchanged |
| `Timestamps.ConvertEntry` | lib/insert.js:27-35 | under `pubDate`/`updatedDate`/`lastModified` the value is only passed to `convertTimestamp` and never descended into; under any other key an array or object is converted recursively and anything else is copied verbatim |
| `Timestamps.ConvertTimestampsNormalizes` | lib/insert.js:22-39 | no wire timestamp is left under a timestamp key anywhere the normaliser looks |
| `Timestamps.ConvertTimestampsFixpoint` | lib/insert.js:22-39 | the normaliser returns its input unchanged if and only if the input is already normalised |
| `Timestamps.ConvertTimestampsIdempotent` | lib/insert.js:22-39 | normalising twice equals normalising once |
| `Timestamps.NoTimestampKeysUnchanged` | lib/insert.js:22-39 | a value in which none of the three timestamp keys occurs is returned unchanged |
| `Timestamps.ConvertTimestampsAsWritten` | lib/insert.js:26-36 | the copy loop as JavaScript runs it: the copy never has a `__proto__` field |
| `Timestamps.ProtoKeyDropped` | lib/insert.js:26-36 | `{"__proto__": 1}` loses its only field in the as-written copy, while `ConvertTimestamps` keeps it |
| `Timestamps.AsWrittenAgreesWithoutProtoKeys` | lib/insert.js:22-39 | without `__proto__` keys, the as-written copy and the corrected one are equal |
| `DocumentStore.NewAutoId` | lib/insert.js:81 | `collection.doc()` issues an id not used by any document, and the store stays fresh |
| `DocumentStore.Write` | lib/insert.js:83 | `set` creates or replaces exactly the one document and leaves every other document as it was |
| `DocumentStore.Collection.Get` | lib/duplicate.js:13-16 | a read returns the document's data exactly when the document exists |
| `DocumentStore.Collection.NewDocRef` | lib/duplicate.js:29 | the collection allocates a fresh generated id |
| `DocumentStore.Collection.Set` | lib/duplicate.js:31 | the collection's new state is the old one with the document written |
| `Insert.InsertItem` | lib/insert.js:63-101 | one pass of the loop body: the new collection state and the outcome equal `InsertOne` of the old state |
| `Insert.InsertDocuments` | lib/insert.js:47-115 | the method's new collection state and result equal `InsertDocumentsSpec`: a non-array rejects before any write, a `null` element aborts, and otherwise the result is the summary |
| `Insert.InsertCounts` | lib/insert.js:59-102 | every iteration that ran incremented exactly one of the two counters; the run aborts exactly at the first `null` element, and `successCount + errorCount` counts the iterations before it |
| `Insert.InsertAbortStays` | lib/insert.js:94-114 | after an abort no later element is processed |
| `Insert.InsertSummaryAddsUp` | lib/insert.js:59-110 | with no `null` element the run completes with `successCount + errorCount == total == documents.length` |
| `Insert.InsertPrefixKeepsFresh` | lib/insert.js:79-83 | the run never reuses a generated id that is already in use |
| `Insert.ConvertedSlug` | lib/insert.js:67-72 | the slug of the normalised document is present, truthy and a string exactly when the document's own slug is; a string slug is unchanged |
| `Insert.InsertOneEffect` | lib/insert.js:63-101 | one iteration: a `null` element aborts; a failing write, a non-object document or a truthy non-string slug counts as an error and changes no document; otherwise the normalised document is written under `Named(slug)` exactly when `useSlugAsId` holds and the slug is truthy, and under a fresh generated id otherwise |
| `Insert.InsertOneAsWrittenEffect` | lib/insert.js:63-101 | one iteration as written (`InsertOneAsWritten`) writes exactly what `InsertOne` writes; it aborts on `null` and also when the raw slug has no string form and the iteration did not end in a logged success; it counts a success exactly when `InsertOne` does and the title has a string form |
| `Insert.ConvertedTitle` | lib/insert.js:88-89 | the normalised document's title makes the log line throw exactly when the document's own title would |
| `Insert.AsWrittenAgreesWhenLogsConvert` | lib/insert.js:86-98 | when neither the slug nor the title lacks a string form, the iteration as written and `InsertOne` agree |
| `Insert.SlugWithoutStringFormAborts` | lib/insert.js:79-98 | `{"slug": {"toString": 0}}` with `useSlugAsId`: `InsertOne` counts an error, the iteration as written aborts |
| `Insert.TitleWithoutStringFormCountsError` | lib/insert.js:83-93 | `{"title": {"toString": 0}}` is written under a generated id; `InsertOne` counts a success, the iteration as written counts an error |
| `Timestamps.ConvertKeepsStringForm` | lib/insert.js:22-39 | the normaliser keeps a value's truthiness and whether it can be converted to text |
| `Insert.InsertSlugExample` | lib/insert.js:62-110 | `[{"slug":"a","title":"A"},{"title":"B"}]` is stored as `a` and under a generated id, with summary (2, 0, 2) |
| `Text.Trim` | lib/duplicate.js:48-49 | the trimmed setting is a slice `s[a..b]` of the setting with only whitespace outside it, and it neither starts nor ends with whitespace |
| `Text.TrimEmptyIff` | lib/duplicate.js:48-49 | a setting trims to empty exactly when it is all whitespace |
| `Text.NatToString` | lib/duplicate.js:87-91 | the rendering of a timestamp or index is a non-empty run of decimal digits (so it has no `_`) whose decimal value is the number itself, with no leading zero and two or more digits exactly from 10 up |
| `Text.NatToStringInjective` | lib/duplicate.js:86-91 | distinct numbers render differently |
| `Text.JoinSnoc` | lib/duplicate.js:92-93 | joining with one more part appends `_` and that part |
| `Duplicate.LoadDuplicateConfig` | lib/duplicate.js:46-65 | the settings are accepted exactly when `COLLECTION_PATH` and `SOURCE_DOC_ID` are non-empty and the count parses to at least 1; a missing path or id is reported before the count; accepted settings carry the trimmed prefix and postfix |
| `Duplicate.GenerateNewDocId` | lib/duplicate.js:72-94 | asks for a generated id (`None`) exactly when both the trimmed prefix and postfix are empty |
| `Duplicate.GeneratedIdShape` | lib/duplicate.js:81-93 | otherwise the id is `{prefix}_{sourceDocId}_{postfix}_{timestamp}`, with absent parts left out, followed by `_{index+1}` when the count is above 1 |
| `Duplicate.GeneratedIdExample` | lib/duplicate.js:81-93 | two copies of `abc` with prefix `bak` and postfix `v2` are named `bak_abc_v2_{timestamp}_1` and `bak_abc_v2_{timestamp}_2` |
| `Duplicate.GeneratedIdEndsWithIndex` | lib/duplicate.js:86-93 | with a count above 1, the id ends in `_` followed by the decimal `index + 1`, which holds no `_`, so `index + 1` is the text after the id's last `_` |
| `Duplicate.GeneratedIdsDistinct` | lib/duplicate.js:86-92 | with a count above 1, the ids for different indices differ, whatever the clock reads at each |
| `Duplicate.GeneratedIdNotSource` | lib/duplicate.js:82-93 | a generated id is never empty and never the source's own id |
| `Duplicate.BlankAffixesMeanGeneratedIds` | lib/duplicate.js:48-79 | a whitespace-only prefix and postfix count as absent: every copy gets a database-generated id |
| `Duplicate.DuplicateOneEffect` | lib/duplicate.js:10-42 | `duplicateDocument`: an error leaves everything unchanged and is rethrown; a missing source writes nothing and does not throw; otherwise exactly one write copies the source's data unchanged to `newDocId` when that is a non-empty string, and to a fresh generated id otherwise |
| `Duplicate.DuplicateDocument` | lib/duplicate.js:10-42 | the method's new collection state and outcome equal `DuplicateOne` of the old state |
| `Duplicate.DuplicateAll` | lib/duplicate.js:97-117 | the duplication loop: the new collection state, the outcomes and whether an error escaped equal `DuplicatePrefix` after `count` iterations |
| `Duplicate.Run` | lib/duplicate.js:44-118 | the method's new collection state, exit status and per-call outcomes equal `RunSpec` of the old state |
| `Duplicate.DuplicateThrowStays` | lib/duplicate.js:97-117 | once an iteration throws, no later iteration runs |
| `Duplicate.DuplicateStopsAtFirstError` | lib/duplicate.js:102-117 | iterations run in index order; the loop stops exactly at the first throwing iteration, and every earlier iteration neither failed nor threw |
| `Duplicate.DuplicateMissingSource` | lib/duplicate.js:102-108 | with a missing source, every iteration reports not-found and writes nothing, and the loop carries on to the end |
| `Duplicate.CopyTargetsDistinct` | lib/duplicate.js:86-104 | different iterations of one run write to different documents, none of them the source |
| `Duplicate.DuplicateCopies` | lib/duplicate.js:102-108 | with the source present and no error, after `n` iterations each iteration `k` has copied the source's data to its own target; all copies are still in place; the source and every other document are unchanged |
| `Duplicate.RunExitStatus` | lib/duplicate.js:53-117 | `run` exits with 0 exactly when the settings are valid and no iteration throws, and with 1 otherwise; invalid settings change nothing |

## Left out

- The Firestore client library is not part of this model (`./firebase`, `get`, `set`, `doc`). It is replaced by the in-memory `Collection`. Connection set-up, network retries and serialisation are not modelled.
- Failure oracle: which calls throw is the `failing` parameter, not derived from the client library. The model does derive three rejections from it:
  - `set` rejects a non-object document;
  - `doc` rejects a non-string slug;
  - a `null` document throws.
  A slug containing `/`, which Firestore reads as a sub-path, is treated as a plain id.
- `Timestamp.fromMillis` and the millisecond arithmetic (`lib/insert.js:12-14`) are floating-point library code. A native timestamp keeps the raw `_seconds` value and the defaulted `_nanoseconds` value instead.
- `Insert.InsertOne`, `Insert.InsertDocuments`: a conversion `Timestamp.fromMillis` rejects is not derived from the document. That covers a non-numeric `_seconds`, a non-numeric truthy `_nanoseconds` and an out-of-range `_seconds`; the source then counts an error for that document. The model writes the document unless its index is in `failing`, so such cases are expressed only through `failing`.
- `Insert.InsertOne`, `Insert.InsertOneEffect`, `Insert.InsertCounts`, `Insert.InsertSummaryAddsUp`, `Insert.InsertDocuments`: the loop is modelled with the corrected iteration of the Findings table, in which a log line never throws. As written, the source also aborts when a failing element's truthy slug has no string form, and counts a written document as an error when its truthy title has none. So "aborts exactly at a `null` element" and "with no `null` element the run completes" hold only for elements whose slug and title can be converted to text (`Insert.AsWrittenAgreesWhenLogsConvert`). `Insert.InsertOneAsWritten` models one iteration as written.
- `Insert.InsertOne`, `Insert.InsertDocuments`: they normalise with the corrected `Timestamps.ConvertTimestamps`, which keeps a `__proto__` key. The source's copy drops that key (see Findings), so for such documents the model writes one field more than the source does.
- Native timestamps never occur in `JSON.parse` output. The model passes them through the normaliser unchanged. The source would rebuild one found under a timestamp key from its milliseconds, giving the same instant to within about a microsecond (the milliseconds are a double), and would copy one found elsewhere as a plain object.
- `JSON.parse`, `fs.readFileSync`, `fs.existsSync` and `path.resolve` are I/O and parsing: `InsertDocuments` takes the parsed value. Duplicate keys in the file and prototype changes made by a `__proto__` value are not modelled.
- `parseInt(NUM_OF_DUPLICATES || "1", 10)` is taken as its result: `Option<int>`, with `None` for NaN. The `"1"` default is applied before parsing.
- `dotenv`/`process.env` loading: settings are the fields of `DuplicateEnv`.
- The `run` function of `lib/insert.js` is left out. It exits with 1 when `COLLECTION_PATH` or `JSON_FILE_PATH` is missing or empty, or when the file does not exist; it passes `useSlugAsId` as true unless `USE_SLUG_AS_ID` is exactly `"false"`; and it exits with 1 when `insertDocuments` throws and with 0 otherwise. `Insert.InsertDocuments` takes `useSlugAsId` as a parameter and returns the error instead.
- `index.js` is left out: it only dispatches on the command, and cannot reach the inserter.
- All console output and `process.exit`: `Duplicate.Run` returns the exit status instead.
- `async`/`await`: every call is sequential and synchronous.
- `Date.now()` is the parameter `clock`. Nothing is assumed about how its readings relate to each other.

## Findings

| source | as written | input that shows it | evidently intended | confidence | as-written member | corrected member |
|---|---|---|---|---|---|---|
| lib/insert.js:86-98 | the log lines interpolate `${convertedData.title}` and, in the catch block, `${docData.slug}`; both throw for a truthy value with no string form (an object with its own `toString` key, or an array holding one) | `[{"title": {"toString": 0}}]` is written but counted as an error; `[{"slug": {"toString": 0}}]` with `useSlugAsId` aborts the whole run instead of counting one error | logging never changes an element's outcome: a written document counts as a success, a failed write as an error, and the loop goes on | medium, not executed | `Insert.TitleWithoutStringFormCountsError`, `Insert.SlugWithoutStringFormAborts` (about `Insert.InsertOneAsWritten`) | `Insert.InsertOne` (`Insert.InsertOneEffect`: aborts exactly on `null`; a write counts as a success) |
| lib/insert.js:26-36 | `converted[key] = ...` with the key `__proto__` runs the prototype setter, so the copy has no `__proto__` field | the parsed document `{"__proto__": 1}` is copied to `{}` | the copy keeps every key of the parsed document, converting only timestamps | medium, not executed | `Timestamps.ProtoKeyDropped` (about `Timestamps.ConvertTimestampsAsWritten`) | `Timestamps.ConvertTimestamps` (same keys in the same order, proved in its postcondition) |
