/**
 * One collection of the document database, as the utilities use it through
 * the client library: read a document by id, create-or-replace a document by
 * id, and allocate a fresh auto-generated id (`collection.doc()`).
 */
module DocumentStore {
  import opened Wrappers
  import opened JsonValues

  /**
   * A document id: a caller-chosen name, or an id the database generated.
   * Generated ids are a separate kind so that they never coincide with a name
   * the caller chose, as the database's random 20-character ids do not in
   * practice.
   */
  datatype DocId = Named(name: string) | Auto(serial: nat)

  /** The documents of the collection and the serial of the next generated id. */
  datatype StoreState = StoreState(docs: map<DocId, Json>, nextAuto: nat)

  /** Every generated id in use was issued before `nextAuto`. */
  ghost predicate AutoFresh(s: StoreState) {
    forall id :: id in s.docs && id.Auto? ==> id.serial < s.nextAuto
  }

  /** `collection.doc()`: a fresh generated id, and the state that has issued it. */
  function NewAutoId(s: StoreState): (r: (DocId, StoreState))
    ensures AutoFresh(s) ==> r.0 !in s.docs && AutoFresh(r.1)
    ensures r.1.docs == s.docs
  {
    (Auto(s.nextAuto), s.(nextAuto := s.nextAuto + 1))
  }

  /** `docRef.set(data)`: create or replace the document `id`. */
  function Write(s: StoreState, id: DocId, data: Json): (r: StoreState)
    ensures r.docs.Keys == s.docs.Keys + {id} && r.docs[id] == data
    ensures forall other :: other in s.docs && other != id ==> r.docs[other] == s.docs[other]
    ensures id.Named? && AutoFresh(s) ==> AutoFresh(r)
  {
    s.(docs := s.docs[id := data])
  }

  /** The collection as the database holds it during one run. */
  class Collection {
    var docs: map<DocId, Json>
    var nextAuto: nat

    ghost predicate Valid()
      reads this
    {
      AutoFresh(State())
    }

    function State(): StoreState
      reads this
    {
      StoreState(docs, nextAuto)
    }

    constructor (initial: map<DocId, Json>)
      requires forall id :: id in initial ==> id.Named?
      ensures Valid() && docs == initial && nextAuto == 0
    {
      docs := initial;
      nextAuto := 0;
    }

    /** `docRef.get()`: the document's data, or `None` when it does not exist. */
    method Get(id: DocId) returns (r: Option<Json>)
      ensures r.Some? <==> id in docs
      ensures r.Some? ==> r.value == docs[id]
    {
      r := if id in docs then Some(docs[id]) else None;
    }

    method NewDocRef() returns (id: DocId)
      requires Valid()
      modifies this
      ensures Valid()
      ensures (id, State()) == NewAutoId(old(State()))
    {
      id := Auto(nextAuto);
      nextAuto := nextAuto + 1;
    }

    method Set(id: DocId, data: Json)
      requires Valid()
      requires id.Auto? ==> id.serial < nextAuto
      modifies this
      ensures Valid()
      ensures State() == Write(old(State()), id, data)
    {
      docs := docs[id := data];
    }
  }
}
