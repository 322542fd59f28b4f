/** The document store as the services use it. A MongoDB collection is an object
    whose documents, in natural order, are the sequence `docs`; the driver calls
    the services make (`findOne`, `insertMany`, `drop`, `deleteOne`) are its
    methods. `PopulateDb` is the database service's guarded bulk insert. */
module DatabaseService {
  import opened Queries

  /** The `data` argument of `populateDb`: either an array of documents or some
      other value, which `Array.isArray` rejects. */
  datatype Data<T> = ArrayData(elems: seq<T>) | NonArray

  class Collection<T> {
    var docs: seq<T>

    constructor (docs: seq<T>)
      ensures this.docs == docs
    {
      this.docs := docs;
    }

    /** `findOne()` with no filter: some document, or `None` (`null`) when the
        collection is empty. */
    function FindOne(): (r: Option<T>)
      reads this
      ensures r.None? <==> docs == []
      ensures r.Some? ==> r.value in docs
    {
      if docs == [] then None else Some(docs[0])
    }

    /** `insertMany(elems)`: the documents are added after the existing ones. */
    method InsertMany(elems: seq<T>)
      modifies this
      ensures docs == old(docs) + elems
    {
      docs := docs + elems;
    }

    /** `drop()`: the collection loses every document. */
    method Drop()
      modifies this
      ensures docs == []
    {
      docs := [];
    }

    /** `deleteOne({field: id})`: removes the first document whose field is `id`
        and reports how many documents went. */
    method DeleteOne<K(==)>(key: T -> K, id: K) returns (deletedCount: nat)
      modifies this
      ensures docs == RemoveFirst(old(docs), key, id)
      ensures deletedCount == |old(docs)| - |docs|
      ensures deletedCount == (if exists x :: x in old(docs) && key(x) == id then 1 else 0)
    {
      var before := |docs|;
      docs := RemoveFirst(docs, key, id);
      deletedCount := before - |docs|;
    }
  }

  /** The documents of a collection after `populateDb` on a collection that held
      `docs`: the data goes in only when the collection is empty and the data is
      an array. */
  function Populated<T>(docs: seq<T>, data: Data<T>): seq<T> {
    if docs == [] && data.ArrayData? then data.elems else docs
  }

  /** `populateDb(collectionName, data)`, with the collection passed itself
      rather than looked up by name. */
  method PopulateDb<T>(collection: Collection<T>, data: Data<T>)
    modifies collection
    ensures collection.docs == Populated(old(collection.docs), data)
  {
    var isEmpty := collection.FindOne() == None;
    var dataIsArray := data.ArrayData?;
    if dataIsArray && isEmpty {
      collection.InsertMany(data.elems);
    }
  }

  /** A collection that already holds a document is left as it is. */
  lemma PopulateKeepsNonEmpty<T>(docs: seq<T>, data: Data<T>)
    requires |docs| > 0
    ensures Populated(docs, data) == docs
  {
  }

  /** Data that is not an array is ignored. */
  lemma PopulateIgnoresNonArray<T>(docs: seq<T>, data: Data<T>)
    requires data.NonArray?
    ensures Populated(docs, data) == docs
  {
  }

  /** An empty collection receives exactly the documents of the array; so drop
      followed by `populateDb(list)` leaves exactly `list`, which is how the
      reservation service appends. */
  lemma PopulateFillsEmpty<T>(elems: seq<T>)
    ensures Populated([], ArrayData(elems)) == elems
  {
  }

  /** Once populated with a non-empty array, a second call with any data changes
      nothing, so repeated population is idempotent. */
  lemma PopulateIdempotent<T>(docs: seq<T>, first: Data<T>, second: Data<T>)
    requires first.ArrayData? && |first.elems| > 0
    ensures Populated(Populated(docs, first), second) == Populated(docs, first)
  {
  }
}
