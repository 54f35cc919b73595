/**
 * The bulk inserter of lib/insert.js (`insertDocuments`): every element of a
 * parsed JSON array is normalised, given an id (its slug or a generated one)
 * and written; a failed write is counted and the loop goes on.
 */
module Insert {
  import opened Wrappers
  import opened JsonValues
  import opened Timestamps
  import opened DocumentStore

  datatype Summary = Summary(successCount: nat, errorCount: nat, total: nat)

  /**
   * Why a run ends by throwing: the parsed file is not an array, or element
   * `index` is `null`, whose error handler itself throws a TypeError.
   */
  datatype InsertError = NotAnArray | NullDocumentAt(index: nat)

  /** What one iteration of the loop does with its element. */
  datatype ItemOutcome = Inserted(id: DocId) | Failed | Aborted

  /** `useSlugAsId && convertedData.slug`: the slug is used as the id. */
  predicate UsesSlug(useSlugAsId: bool, converted: Json) {
    var slug := Property(converted, "slug");
    useSlugAsId && slug.Some? && Truthy(slug.value)
  }

  /**
   * One iteration for element `i`.  A `null` element aborts the run: reading
   * `convertedData.slug` (or writing `null`) throws, and so does the handler's
   * `docData.slug`.  A write fails when `i` is in `failing` (the database
   * rejects it), when the document is not an object (`set` takes only objects)
   * or when the slug used as id is not a string (`doc` takes only string
   * paths); a failure leaves the documents as they were.  A generated id is
   * allocated by `collection.doc()` before the write is attempted.  The log
   * lines never change the outcome here; `InsertOneAsWritten` adds the two
   * that can throw.
   */
  function InsertOne(s: StoreState, doc: Json, i: nat, useSlugAsId: bool, failing: set<nat>)
    : (StoreState, ItemOutcome)
  {
    if doc.Null? then (s, Aborted)
    else
      var converted := ConvertTimestamps(doc);
      if UsesSlug(useSlugAsId, converted) then
        var slug := Property(converted, "slug").value;
        if slug.Str? && i !in failing && converted.Obj? then
          (Write(s, Named(slug.s), converted), Inserted(Named(slug.s)))
        else (s, Failed)
      else
        var (id, s1) := NewAutoId(s);
        if i !in failing && converted.Obj? then (Write(s1, id, converted), Inserted(id))
        else (s1, Failed)
  }

  /** The state of the loop after the first `n` iterations. */
  datatype Progress = Progress(state: StoreState, successCount: nat, errorCount: nat, abortedAt: Option<nat>)

  function InsertPrefix(s0: StoreState, documents: seq<Json>, n: nat, useSlugAsId: bool, failing: set<nat>)
    : Progress
    requires n <= |documents|
  {
    if n == 0 then Progress(s0, 0, 0, None)
    else
      var p := InsertPrefix(s0, documents, n - 1, useSlugAsId, failing);
      if p.abortedAt.Some? then p
      else
        var (s', o) := InsertOne(p.state, documents[n - 1], n - 1, useSlugAsId, failing);
        match o
        case Inserted(_) => Progress(s', p.successCount + 1, p.errorCount, None)
        case Failed => Progress(s', p.successCount, p.errorCount + 1, None)
        case Aborted => Progress(p.state, p.successCount, p.errorCount, Some(n - 1))
  }

  /** The new state of the collection and the result of `insertDocuments`. */
  function InsertDocumentsSpec(s0: StoreState, parsed: Json, useSlugAsId: bool, failing: set<nat>)
    : (StoreState, Result<Summary, InsertError>)
  {
    if !parsed.Arr? then (s0, Err(NotAnArray))
    else
      var p := InsertPrefix(s0, parsed.items, |parsed.items|, useSlugAsId, failing);
      if p.abortedAt.Some? then (p.state, Err(NullDocumentAt(p.abortedAt.value)))
      else (p.state, Ok(Summary(p.successCount, p.errorCount, |parsed.items|)))
  }

  /**
   * The body of the loop for element `i`: the `try` block, with the `catch`
   * that counts an error, and the abort when the element is `null`.
   */
  method InsertItem(c: Collection, docData: Json, i: nat, useSlugAsId: bool, failing: set<nat>)
    returns (o: ItemOutcome)
    requires c.Valid()
    modifies c
    ensures c.Valid()
    ensures (c.State(), o) == InsertOne(old(c.State()), docData, i, useSlugAsId, failing)
  {
    if docData.Null? {
      return Aborted;
    }
    var convertedData := ConvertTimestamps(docData);
    if UsesSlug(useSlugAsId, convertedData) {
      var slug := Property(convertedData, "slug").value;
      if slug.Str? && i !in failing && convertedData.Obj? {
        c.Set(Named(slug.s), convertedData);
        o := Inserted(Named(slug.s));
      } else {
        o := Failed;
      }
    } else {
      var id := c.NewDocRef();
      if i !in failing && convertedData.Obj? {
        c.Set(id, convertedData);
        o := Inserted(id);
      } else {
        o := Failed;
      }
    }
  }

  /** `insertDocuments` over an already parsed file, writing into `c`. */
  method InsertDocuments(c: Collection, parsed: Json, useSlugAsId: bool, failing: set<nat>)
    returns (r: Result<Summary, InsertError>)
    requires c.Valid()
    modifies c
    ensures c.Valid()
    ensures (c.State(), r) == InsertDocumentsSpec(old(c.State()), parsed, useSlugAsId, failing)
  {
    if !parsed.Arr? {
      return Err(NotAnArray);
    }
    var documents := parsed.items;
    var successCount, errorCount := 0, 0;
    for i := 0 to |documents|
      invariant c.Valid()
      invariant InsertPrefix(old(c.State()), documents, i, useSlugAsId, failing)
             == Progress(c.State(), successCount, errorCount, None)
    {
      var o := InsertItem(c, documents[i], i, useSlugAsId, failing);
      match o {
        case Aborted =>
          InsertAbortStays(old(c.State()), documents, i + 1, |documents|, useSlugAsId, failing);
          return Err(NullDocumentAt(i));
        case Inserted(_) =>
          successCount := successCount + 1;
        case Failed =>
          errorCount := errorCount + 1;
      }
    }
    r := Ok(Summary(successCount, errorCount, |documents|));
  }

  /**
   * Every iteration that ran incremented exactly one counter; the run aborts
   * exactly at the first `null` element, if there is one.
   */
  lemma {:induction false} InsertCounts(s0: StoreState, documents: seq<Json>, n: nat, useSlugAsId: bool, failing: set<nat>)
    requires n <= |documents|
    ensures var p := InsertPrefix(s0, documents, n, useSlugAsId, failing);
      && (p.abortedAt.None? ==>
            && p.successCount + p.errorCount == n
            && forall j :: 0 <= j < n ==> !documents[j].Null?)
      && (p.abortedAt.Some? ==>
            && p.abortedAt.value < n
            && documents[p.abortedAt.value].Null?
            && (forall j :: 0 <= j < p.abortedAt.value ==> !documents[j].Null?)
            && p.successCount + p.errorCount == p.abortedAt.value)
  {
    if n > 0 {
      InsertCounts(s0, documents, n - 1, useSlugAsId, failing);
    }
  }

  /** Once the loop has aborted, later elements change nothing. */
  lemma {:induction false} InsertAbortStays(s0: StoreState, documents: seq<Json>, k: nat, n: nat, useSlugAsId: bool, failing: set<nat>)
    requires k <= n <= |documents|
    requires InsertPrefix(s0, documents, k, useSlugAsId, failing).abortedAt.Some?
    ensures InsertPrefix(s0, documents, n, useSlugAsId, failing) == InsertPrefix(s0, documents, k, useSlugAsId, failing)
    decreases n
  {
    if n > k {
      InsertAbortStays(s0, documents, k, n - 1, useSlugAsId, failing);
    }
  }

  /** With no `null` element the run completes and `successCount + errorCount == total`. */
  lemma InsertSummaryAddsUp(s0: StoreState, documents: seq<Json>, useSlugAsId: bool, failing: set<nat>)
    requires forall j :: 0 <= j < |documents| ==> !documents[j].Null?
    ensures var r := InsertDocumentsSpec(s0, Arr(documents), useSlugAsId, failing).1;
      r.Ok? && r.value.total == |documents| && r.value.successCount + r.value.errorCount == |documents|
  {
    InsertCounts(s0, documents, |documents|, useSlugAsId, failing);
  }

  /** The generated ids the run issues are never in use. */
  lemma {:induction false} InsertPrefixKeepsFresh(s0: StoreState, documents: seq<Json>, n: nat, useSlugAsId: bool, failing: set<nat>)
    requires n <= |documents|
    requires AutoFresh(s0)
    ensures AutoFresh(InsertPrefix(s0, documents, n, useSlugAsId, failing).state)
  {
    if n > 0 {
      InsertPrefixKeepsFresh(s0, documents, n - 1, useSlugAsId, failing);
    }
  }

  /**
   * Lookups in two objects with the same keys at the same positions find the
   * same position `j`.
   */
  lemma {:induction false} LookupSamePosition(fs: seq<Field>, gs: seq<Field>, k: string) returns (j: nat)
    requires |fs| == |gs|
    requires forall i :: 0 <= i < |fs| ==> fs[i].key == gs[i].key
    ensures Lookup(fs, k).Some? <==> Lookup(gs, k).Some?
    ensures Lookup(fs, k).Some? ==>
      j < |fs| && fs[j].key == k && Lookup(fs, k) == Some(fs[j].value) && Lookup(gs, k) == Some(gs[j].value)
  {
    j := 0;
    if fs != [] && fs[0].key != k {
      var j' := LookupSamePosition(fs[1..], gs[1..], k);
      j := j' + 1;
    }
  }

  /** The slug of a normalised document is the document's own slug, converted. */
  lemma ConvertedSlug(doc: Json)
    requires doc.Obj?
    ensures var slug := Property(doc, "slug");
      var c := Property(ConvertTimestamps(doc), "slug");
      && (slug.None? <==> c.None?)
      && (slug.Some? ==> Truthy(c.value) == Truthy(slug.value) && (c.value.Str? <==> slug.value.Str?))
      && (slug.Some? && slug.value.Str? ==> c == slug)
  {
    var r := ConvertTimestamps(doc);
    var j := LookupSamePosition(doc.fields, r.fields, "slug");
  }

  /**
   * The effect of one iteration on a collection whose generated ids are fresh:
   * the element is written, under its slug exactly when `useSlugAsId` holds and
   * its slug is truthy and otherwise under a new generated id, unless the
   * write fails, in which case no document changes.
   */
  lemma InsertOneEffect(s: StoreState, doc: Json, i: nat, useSlugAsId: bool, failing: set<nat>)
    requires AutoFresh(s)
    ensures var (s', o) := InsertOne(s, doc, i, useSlugAsId, failing);
      var slug := Property(doc, "slug");
      var bySlug := useSlugAsId && slug.Some? && Truthy(slug.value);
      && (o.Aborted? <==> doc.Null?)
      && (o.Aborted? ==> s' == s)
      && (o.Failed? <==> !doc.Null? && (i in failing || !doc.Obj? || (bySlug && !slug.value.Str?)))
      && (o.Failed? ==> s'.docs == s.docs)
      && (o.Inserted? ==> (o.id.Named? <==> bySlug))
      && (o.Inserted? && o.id.Named? ==> slug == Some(Str(o.id.name)))
      && (o.Inserted? && o.id.Auto? ==> o.id !in s.docs)
      && (o.Inserted? ==> s'.docs == s.docs[o.id := ConvertTimestamps(doc)])
      && AutoFresh(s')
  {
    if doc.Obj? {
      ConvertedSlug(doc);
    }
  }

  /**
   * A value read for a log line that makes the line throw: the line runs only
   * when the value is truthy, and `${value}` throws when it has no string form.
   */
  predicate LogThrows(p: Option<Json>) {
    p.Some? && Truthy(p.value) && !HasStringForm(p.value)
  }

  /**
   * One iteration with the log lines as written.  After a successful write,
   * `${convertedData.title}` throws for a title with no string form, so the
   * `catch` block runs and counts an error although the document was written.
   * In the `catch` block, `${docData.slug}` throws for a raw slug with no
   * string form, and that error escapes the loop and aborts the run.
   */
  function InsertOneAsWritten(s: StoreState, doc: Json, i: nat, useSlugAsId: bool, failing: set<nat>)
    : (StoreState, ItemOutcome)
  {
    var (s', o) := InsertOne(s, doc, i, useSlugAsId, failing);
    if o.Aborted? then (s', o)
    else if o.Inserted? && !LogThrows(Property(ConvertTimestamps(doc), "title")) then (s', o)
    else if LogThrows(Property(doc, "slug")) then (s', Aborted)
    else (s', Failed)
  }

  /** The title of a normalised document throws in a log line exactly when the document's own title does. */
  lemma ConvertedTitle(doc: Json)
    ensures LogThrows(Property(ConvertTimestamps(doc), "title")) <==> LogThrows(Property(doc, "title"))
  {
    if doc.Obj? {
      var r := ConvertTimestamps(doc);
      var j := LookupSamePosition(doc.fields, r.fields, "title");
      if Property(doc, "title").Some? {
        assert !IsTimestampKey("title");
        ConvertKeepsStringForm(doc.fields[j].value);
      }
    }
  }

  /**
   * The iteration as written writes exactly what `InsertOne` writes; only the
   * outcome differs.  It aborts on `null`, and also when the raw slug has no
   * string form and the iteration did not end in a logged success; it counts a
   * success exactly when `InsertOne` does and the title has a string form.
   */
  lemma InsertOneAsWrittenEffect(s: StoreState, doc: Json, i: nat, useSlugAsId: bool, failing: set<nat>)
    ensures var (s1, o1) := InsertOne(s, doc, i, useSlugAsId, failing);
      var (s2, o2) := InsertOneAsWritten(s, doc, i, useSlugAsId, failing);
      var clean := o1.Inserted? && !LogThrows(Property(doc, "title"));
      && s2 == s1
      && (o2.Aborted? <==> doc.Null? || (!clean && LogThrows(Property(doc, "slug"))))
      && (o2.Inserted? <==> clean)
      && (o2.Inserted? ==> o2 == o1)
  {
    ConvertedTitle(doc);
  }

  /**
   * When neither the slug nor the title of the element lacks a string form,
   * the iteration as written and the corrected one agree.
   */
  lemma AsWrittenAgreesWhenLogsConvert(s: StoreState, doc: Json, i: nat, useSlugAsId: bool, failing: set<nat>)
    requires !LogThrows(Property(doc, "slug")) && !LogThrows(Property(doc, "title"))
    ensures InsertOneAsWritten(s, doc, i, useSlugAsId, failing) == InsertOne(s, doc, i, useSlugAsId, failing)
  {
    ConvertedTitle(doc);
  }

  /**
   * `{"slug": {"toString": 0}}` with `useSlugAsId`: `doc` rejects the slug and
   * the corrected iteration counts an error, while as written the handler's
   * `${docData.slug}` throws and the run aborts.
   */
  lemma SlugWithoutStringFormAborts(s: StoreState, i: nat, failing: set<nat>)
    ensures var doc := Obj([Field("slug", Obj([Field("toString", Num(0.0))]))]);
      && InsertOne(s, doc, i, true, failing) == (s, Failed)
      && InsertOneAsWritten(s, doc, i, true, failing) == (s, Aborted)
  {
    var bad := Obj([Field("toString", Num(0.0))]);
    var doc := Obj([Field("slug", bad)]);
    assert Keys(bad.fields) == ["toString"];
    assert !HasStringForm(bad);
    assert NoTimestampKeys(doc);
    NoTimestampKeysUnchanged(doc);
    assert Property(doc, "slug") == Some(bad);
  }

  /**
   * `{"title": {"toString": 0}}`: the document is written under a generated id,
   * and the corrected iteration counts a success, while as written the log
   * line `${convertedData.title}` throws and the written document counts as an
   * error.
   */
  lemma TitleWithoutStringFormCountsError(s: StoreState)
    ensures var doc := Obj([Field("title", Obj([Field("toString", Num(0.0))]))]);
      var written := Write(s.(nextAuto := s.nextAuto + 1), Auto(s.nextAuto), doc);
      && InsertOne(s, doc, 0, true, {}) == (written, Inserted(Auto(s.nextAuto)))
      && InsertOneAsWritten(s, doc, 0, true, {}) == (written, Failed)
  {
    var bad := Obj([Field("toString", Num(0.0))]);
    var doc := Obj([Field("title", bad)]);
    assert Keys(bad.fields) == ["toString"];
    assert !HasStringForm(bad);
    assert NoTimestampKeys(doc);
    NoTimestampKeysUnchanged(doc);
    assert Property(doc, "title") == Some(bad);
    assert Property(doc, "slug") == None by {
      assert Keys(doc.fields) == ["title"];
    }
  }

  /**
   * `[{"slug":"a","title":"A"},{"title":"B"}]` with `useSlugAsId`: the first
   * document is stored as "a", the second under a generated id, and both count
   * as successes.
   */
  lemma InsertSlugExample(s0: StoreState)
    requires AutoFresh(s0)
    ensures var a := Obj([Field("slug", Str("a")), Field("title", Str("A"))]);
      var b := Obj([Field("title", Str("B"))]);
      var (s', r) := InsertDocumentsSpec(s0, Arr([a, b]), true, {});
      && r == Ok(Summary(2, 0, 2))
      && s'.docs == s0.docs[Named("a") := a][Auto(s0.nextAuto) := b]
  {
    var a := Obj([Field("slug", Str("a")), Field("title", Str("A"))]);
    var b := Obj([Field("title", Str("B"))]);
    assert NoTimestampKeys(a) && NoTimestampKeys(b);
    NoTimestampKeysUnchanged(a);
    NoTimestampKeysUnchanged(b);
    assert Property(a, "slug") == Some(Str("a"));
    assert Property(b, "slug") == None by {
      assert Keys(b.fields) == ["title"];
    }
    var docs := [a, b];
    assert InsertPrefix(s0, docs, 0, true, {}) == Progress(s0, 0, 0, None);
    var s1 := Write(s0, Named("a"), a);
    assert InsertPrefix(s0, docs, 1, true, {}) == Progress(s1, 1, 0, None);
    var s2 := Write(s1.(nextAuto := s0.nextAuto + 1), Auto(s0.nextAuto), b);
    assert InsertPrefix(s0, docs, 2, true, {}) == Progress(s2, 2, 0, None);
  }
}
