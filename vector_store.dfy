/** The part of the Chroma vector store the pipeline relies on, as a value and
    as the persistent object behind it: named collections of records, each record
    an id, a chunk's text, its embedding and its metadata. */
module VectorStore {

  type Metadata = map<string, string>

  /** A LangChain `Document`: page content and metadata. */
  datatype Document = Document(pageContent: string, metadata: Metadata)

  /** An embedding. Its components are floats in the source; the model never
      computes with them, it only stores and returns them. */
  datatype Vector = Vector(components: seq<real>)

  /** One stored chunk. The store assigns the id. */
  datatype Record = Record(id: nat, text: string, embedding: Vector, metadata: Metadata)

  /** The whole store: its collections, and the number of ids issued so far. */
  datatype StoreValue = StoreValue(collections: map<string, seq<Record>>, issued: nat)

  /** Every id in the store was issued before, so ids handed out from `issued`
      on are new. */
  ghost predicate IdsBelow(s: StoreValue) {
    forall n, i :: n in s.collections && 0 <= i < |s.collections[n]| ==> s.collections[n][i].id < s.issued
  }

  /** An ASCII letter or digit. */
  predicate Alnum(c: char) {
    'a' <= c <= 'z' || 'A' <= c <= 'Z' || '0' <= c <= '9'
  }

  /** The collection names the store accepts: between 3 and 63 characters,
      starting and ending with a letter or digit. Any other name makes
      `Chroma(collection_name=name, ...)` raise a `ValueError`. */
  predicate AcceptedName(name: string) {
    3 <= |name| <= 63 && Alnum(name[0]) && Alnum(name[|name| - 1])
  }

  /** `Chroma(collection_name=name, ...)` for an accepted name: get-or-create. An existing collection
      keeps its records; a missing one is created empty. */
  function Opened(s: StoreValue, name: string): (r: StoreValue)
    ensures name in r.collections
    ensures r.collections[name] == if name in s.collections then s.collections[name] else []
    ensures r.collections.Keys == s.collections.Keys + {name}
    ensures forall n :: n in s.collections ==> r.collections[n] == s.collections[n]
    ensures r.issued == s.issued
    ensures IdsBelow(s) ==> IdsBelow(r)
  {
    if name in s.collections then s else s.(collections := s.collections[name := []])
  }

  /** `get()["ids"]`: the ids of a collection, in storage order. */
  function IdsOf(records: seq<Record>): (ids: seq<nat>)
    ensures |ids| == |records|
    ensures forall i :: 0 <= i < |records| ==> ids[i] == records[i].id
  {
    seq(|records|, i requires 0 <= i < |records| => records[i].id)
  }

  /** The skip decision: the collection exists and `get()["ids"]` is non-empty,
      that is, it holds at least one record. */
  predicate AlreadyIngested(s: StoreValue, name: string): (b: bool)
    ensures b <==> name in s.collections && |s.collections[name]| > 0
  {
    name in s.collections && IdsOf(s.collections[name]) != []
  }

  /** The records `add_documents` creates: one per chunk, in order, with fresh ids
      from `firstId` on, the chunk's text and metadata unchanged and the
      embedding of its text. */
  function ToRecords(chunks: seq<Document>, firstId: nat, embed: string -> Vector): (r: seq<Record>)
    ensures |r| == |chunks|
    ensures forall i :: 0 <= i < |chunks| ==>
      r[i] == Record(firstId + i, chunks[i].pageContent, embed(chunks[i].pageContent), chunks[i].metadata)
  {
    seq(|chunks|, i requires 0 <= i < |chunks| =>
      Record(firstId + i, chunks[i].pageContent, embed(chunks[i].pageContent), chunks[i].metadata))
  }

  /** `add_documents(chunks)` on collection `name`: exactly the chunks' records
      are appended to that collection, nothing else changes. */
  function Added(s: StoreValue, name: string, chunks: seq<Document>, embed: string -> Vector): (r: StoreValue)
    requires name in s.collections
    ensures r.collections.Keys == s.collections.Keys
    ensures r.collections[name] == s.collections[name] + ToRecords(chunks, s.issued, embed)
    ensures forall n :: n in s.collections && n != name ==> r.collections[n] == s.collections[n]
    ensures r.issued == s.issued + |chunks|
  {
    StoreValue(s.collections[name := s.collections[name] + ToRecords(chunks, s.issued, embed)], s.issued + |chunks|)
  }

  /** Adding no chunk changes nothing. */
  lemma AddedNothing(s: StoreValue, name: string, embed: string -> Vector)
    requires name in s.collections
    ensures Added(s, name, [], embed) == s
  {
    assert s.collections[name] + ToRecords([], s.issued, embed) == s.collections[name];
  }

  /** Adding keeps every id below the counter, and the new ids differ from all
      ids already stored. */
  lemma AddedKeepsIdsBelow(s: StoreValue, name: string, chunks: seq<Document>, embed: string -> Vector)
    requires name in s.collections && IdsBelow(s)
    ensures IdsBelow(Added(s, name, chunks, embed))
    ensures forall n, i, j :: n in s.collections && 0 <= i < |s.collections[n]| && 0 <= j < |chunks| ==>
      s.collections[n][i].id != ToRecords(chunks, s.issued, embed)[j].id
  {
    var r := Added(s, name, chunks, embed);
    var old_ := s.collections[name];
    var fresh_ := ToRecords(chunks, s.issued, embed);
    forall n, i | n in r.collections && 0 <= i < |r.collections[n]|
      ensures r.collections[n][i].id < r.issued
    {
      if n == name && i >= |old_| {
        assert r.collections[n][i] == fresh_[i - |old_|];
      }
    }
  }

  /** The store behind `persist_directory`; it outlives any one pipeline object. */
  class ChromaStore {
    var collections: map<string, seq<Record>>
    var issued: nat

    function Value(): StoreValue
      reads this
    {
      StoreValue(collections, issued)
    }

    ghost predicate Valid()
      reads this
    {
      IdsBelow(Value())
    }

    /** An empty persist directory. */
    constructor ()
      ensures Valid() && Value() == StoreValue(map[], 0)
    {
      collections := map[];
      issued := 0;
    }

    /** `Chroma(collection_name=name, embedding_function=..., persist_directory=...)`:
        a rejected name raises (`accepted` is false) and changes nothing. */
    method GetOrCreate(name: string) returns (accepted: bool)
      requires Valid()
      modifies this
      ensures Valid()
      ensures accepted == AcceptedName(name)
      ensures Value() == if accepted then Opened(old(Value()), name) else old(Value())
    {
      if !AcceptedName(name) {
        return false;
      }
      if name !in collections {
        collections := collections[name := []];
      }
      accepted := true;
    }

    /** `get()["ids"]` on the bound collection. */
    method Ids(name: string) returns (ids: seq<nat>)
      requires name in collections
      ensures |ids| == |collections[name]|
      ensures ids == IdsOf(collections[name])
    {
      ids := IdsOf(collections[name]);
    }

    /** `add_documents(chunks)`: embeds each chunk's text and stores it under a
        new id. An empty list reaches the upsert with no ids, which the store
        refuses with a `ValueError`; nothing is stored then. */
    method AddDocuments(name: string, chunks: seq<Document>, embed: string -> Vector) returns (added: bool)
      requires Valid() && name in collections
      modifies this
      ensures Valid()
      ensures added <==> chunks != []
      ensures Value() == if added then Added(old(Value()), name, chunks, embed) else old(Value())
    {
      if chunks == [] {
        return false;
      }
      added := true;
      AddedKeepsIdsBelow(Value(), name, chunks, embed);
      collections := collections[name := collections[name] + ToRecords(chunks, issued, embed)];
      issued := issued + |chunks|;
    }

    /** `get(ids=..., include=["documents", "embeddings", "metadatas"])`: three
        parallel columns in storage order. */
    method GetAll(name: string) returns (texts: seq<string>, embeddings: seq<Vector>, metadatas: seq<Metadata>)
      requires name in collections
      ensures |texts| == |embeddings| == |metadatas| == |collections[name]|
      ensures forall i :: 0 <= i < |collections[name]| ==>
        && texts[i] == collections[name][i].text
        && embeddings[i] == collections[name][i].embedding
        && metadatas[i] == collections[name][i].metadata
    {
      var c := collections[name];
      texts := seq(|c|, i requires 0 <= i < |c| => c[i].text);
      embeddings := seq(|c|, i requires 0 <= i < |c| => c[i].embedding);
      metadatas := seq(|c|, i requires 0 <= i < |c| => c[i].metadata);
    }
  }
}
