/** `KnowledgeBasePipeline`: loads a source, splits it into chunks and stores
    the chunks in a Chroma collection named after the source, skipping sources
    whose collection already holds records. */
module KnowledgeBase {
  import opened Wrappers
  import opened CollectionNaming
  import opened LoaderDispatch
  import opened VectorStore

  /** The collection `reset_vectorstore_collection` binds when none is bound. */
  const DefaultCollection: string := "example_collection"

  /** The splitter's configuration: chunk size and overlap, in characters. */
  const ChunkSize: nat := 150
  const ChunkOverlap: nat := 20

  /** What a reader returns for a location (file, directory or network I/O):
      total, and the same for the same location on every call. */
  type Reader = (LoaderKind, string) -> seq<Document>
  /** `RecursiveCharacterTextSplitter(chunk_size, chunk_overlap).split_documents`. */
  type Splitter = (seq<Document>, nat, nat) -> seq<Document>
  /** The embedding model (`OllamaEmbeddings`), one vector per text. */
  type Embedder = string -> Vector

  datatype PipelineError =
    | LoadFailed(cause: LoaderError)   // a ValueError from document_loader
    | VectorstoreNotInitialized        // the ValueError of document_embedder
    | InvalidName(name: string)        // the ValueError the store raises for a rejected collection name
    | EmptyAdd                         // the ValueError the store raises for an upsert with no ids

  /** How a call ended: it returned, or it raised. */
  datatype Status = Done | Raised(error: PipelineError)

  /** The pipeline's fields together with the store: `vectorstore` is the name of
      the bound collection, `None` before any binding. */
  datatype PipelineState = PipelineState(
    documents: seq<Document>,
    chunks: seq<Document>,
    vectorstore: Option<string>,
    store: StoreValue)

  datatype Step = Step(state: PipelineState, status: Status)

  /** One exported row: `chunk_text`, `embedding`, `metadata`. */
  datatype Row = Row(chunkText: string, embedding: Vector, metadata: Metadata)

  /** Every id is below the store's counter, and the bound collection exists
      under a name the store accepts. */
  ghost predicate Consistent(s: PipelineState) {
    && IdsBelow(s.store)
    && (s.vectorstore.Some? ==> s.vectorstore.value in s.store.collections && AcceptedName(s.vectorstore.value))
  }

  /** `self.vectorstore = Chroma(collection_name=name, ...)` once the store has
      accepted the name. */
  function Bind(s: PipelineState, name: string): (r: PipelineState)
    ensures r.vectorstore == Some(name) && r.store == Opened(s.store, name)
    ensures r.documents == s.documents && r.chunks == s.chunks
  {
    s.(vectorstore := Some(name), store := Opened(s.store, name))
  }

  /** `self.vectorstore = Chroma(collection_name=name, ...)` with the store's
      check: a rejected name raises before the assignment, so the previous
      binding and the store stay as they were. */
  function Connect(s: PipelineState, name: string): (r: Step)
    ensures r.status == Done <==> AcceptedName(name)
    ensures r.status == Done ==> r.state == Bind(s, name)
    ensures r.status.Raised? ==> r == Step(s, Raised(InvalidName(name)))
  {
    if AcceptedName(name) then Step(Bind(s, name), Done) else Step(s, Raised(InvalidName(name)))
  }

  /** The part of `process_document_intelligently` after the skip check: load,
      split and add to collection `name`; raise when no reader fits, or when
      the split is empty and the store refuses the add. */
  function Ingest(bound: PipelineState, name: string, location: string, isDir: bool, fileType: Option<string>,
                  read: Reader, split: Splitter, embed: Embedder): (r: Step)
    requires name in bound.store.collections
    ensures r.state.vectorstore == bound.vectorstore
    ensures r.state.store.collections.Keys == bound.store.collections.Keys
    ensures SelectLoader(location, isDir, fileType).Err? ==>
      r == Step(bound, Raised(LoadFailed(SelectLoader(location, isDir, fileType).error)))
    ensures SelectLoader(location, isDir, fileType).Ok? ==> (r.status == Done <==> r.state.chunks != [])
    ensures r.status.Raised? ==> r.state.store == bound.store
    ensures forall n :: n in bound.store.collections ==> bound.store.collections[n] <= r.state.store.collections[n]
    ensures forall n :: n in bound.store.collections && n != name ==>
      r.state.store.collections[n] == bound.store.collections[n]
  {
    match SelectLoader(location, isDir, fileType)
    case Err(e) => Step(bound, Raised(LoadFailed(e)))
    case Ok(kind) =>
      var docs := read(kind, location);
      var chunks := split(docs, ChunkSize, ChunkOverlap);
      if chunks == [] then Step(bound.(documents := docs, chunks := chunks), Raised(EmptyAdd))
      else Step(bound.(documents := docs, chunks := chunks, store := Added(bound.store, name, chunks, embed)), Done)
  }

  /** `process_document_intelligently` on the state: bind the derived collection
      (raising when the store rejects its name); if it already holds an id,
      stop; otherwise load, split and add. */
  function Process(s: PipelineState, location: string, isDir: bool, fileType: Option<string>,
                   read: Reader, split: Splitter, embed: Embedder): (r: Step)
    ensures !AcceptedName(CollectionName(location, isDir)) ==>
      r == Step(s, Raised(InvalidName(CollectionName(location, isDir))))
    ensures AcceptedName(CollectionName(location, isDir)) ==>
      && r.state.vectorstore == Some(CollectionName(location, isDir))
      && CollectionName(location, isDir) in r.state.store.collections
      && r.state.store.collections.Keys == s.store.collections.Keys + {CollectionName(location, isDir)}
    ensures forall n :: n in s.store.collections ==>
      n in r.state.store.collections && s.store.collections[n] <= r.state.store.collections[n]
    ensures forall n :: n in s.store.collections && n != CollectionName(location, isDir) ==>
      r.state.store.collections[n] == s.store.collections[n]
  {
    var name := CollectionName(location, isDir);
    if !AcceptedName(name) then Step(s, Raised(InvalidName(name)))
    else
      var bound := Bind(s, name);
      if AlreadyIngested(bound.store, name) then Step(bound, Done)
      else Ingest(bound, name, location, isDir, fileType, read, split, embed)
  }

  /** `reset_vectorstore_collection` on the state: rebind the current collection,
      or `example_collection` when none is bound. No record is deleted, and on
      a consistent state the rebinding never raises. */
  function Reset(s: PipelineState): (r: Step)
    ensures r.state.documents == s.documents && r.state.chunks == s.chunks
    ensures r.state.store.issued == s.store.issued
    ensures forall n :: n in s.store.collections ==>
      n in r.state.store.collections && r.state.store.collections[n] == s.store.collections[n]
    ensures r.status == Done ==>
      && r.state.vectorstore == Some(if s.vectorstore.Some? then s.vectorstore.value else DefaultCollection)
      && r.state.store.collections.Keys == s.store.collections.Keys + {r.state.vectorstore.value}
    ensures r.status.Raised? ==> r.state == s
    ensures Consistent(s) ==> r.status == Done && Consistent(r.state)
  {
    Connect(s, s.vectorstore.GetOr(DefaultCollection))
  }

  /** The store accepts a derived name exactly when something follows the
      prefix and the last character is a letter or digit: the length and the
      leading `k` are guaranteed by the derivation. */
  lemma DerivedNameAccepted(location: string, isDir: bool)
    ensures var name := CollectionName(location, isDir);
      AcceptedName(name) <==> |name| > 3 && Alnum(name[|name| - 1])
  {
    var name := CollectionName(location, isDir);
    assert name[0] == name[..3][0] == 'k';
  }

  /** `.hidden` derives `kb_`, which the store rejects: the call raises before
      anything is bound, read or stored. */
  lemma HiddenFileRaises(s: PipelineState, fileType: Option<string>, read: Reader, split: Splitter, embed: Embedder)
    ensures Process(s, ".hidden", false, fileType, read, split, embed) == Step(s, Raised(InvalidName("kb_")))
  {
    HiddenFile();
    assert !Alnum("kb_"[2]);
  }

  /** Processing keeps the bound collection present and every id fresh. */
  lemma ProcessKeepsConsistent(s: PipelineState, location: string, isDir: bool, fileType: Option<string>,
                               read: Reader, split: Splitter, embed: Embedder)
    requires Consistent(s)
    ensures Consistent(Process(s, location, isDir, fileType, read, split, embed).state)
  {
    var name := CollectionName(location, isDir);
    var bound := Bind(s, name);
    if AcceptedName(name) && !AlreadyIngested(s.store, name) && SelectLoader(location, isDir, fileType).Ok? {
      var docs := read(SelectLoader(location, isDir, fileType).value, location);
      ProcessFresh(s, location, isDir, fileType, read, split, embed);
      IngestLoaded(bound, name, location, isDir, fileType, read, split, embed);
      AddedKeepsIdsBelow(bound.store, name, split(docs, ChunkSize, ChunkOverlap), embed);
    }
  }

  /** A collection that already holds an id is left alone: only the binding
      changes, and the call returns normally. */
  lemma ProcessSkipsIngested(s: PipelineState, location: string, isDir: bool, fileType: Option<string>,
                             read: Reader, split: Splitter, embed: Embedder)
    requires AcceptedName(CollectionName(location, isDir))
    requires AlreadyIngested(s.store, CollectionName(location, isDir))
    ensures Process(s, location, isDir, fileType, read, split, embed)
         == Step(s.(vectorstore := Some(CollectionName(location, isDir))), Done)
  {
  }

  /** An empty (or missing) collection receives exactly the split chunks of
      what the chosen reader returned, under fresh ids, and `documents` and
      `chunks` hold what was loaded and split; an empty split raises. */
  lemma ProcessIngestsFresh(s: PipelineState, location: string, isDir: bool, fileType: Option<string>,
                            read: Reader, split: Splitter, embed: Embedder)
    requires AcceptedName(CollectionName(location, isDir))
    requires !AlreadyIngested(s.store, CollectionName(location, isDir))
    requires SelectLoader(location, isDir, fileType).Ok?
    ensures var r := Process(s, location, isDir, fileType, read, split, embed);
      var docs := read(SelectLoader(location, isDir, fileType).value, location);
      && r.status == (if r.state.chunks == [] then Raised(EmptyAdd) else Done)
      && r.state.documents == docs
      && r.state.chunks == split(docs, ChunkSize, ChunkOverlap)
      && r.state.store.collections[CollectionName(location, isDir)] == ToRecords(r.state.chunks, s.store.issued, embed)
      && r.state.store.issued == s.store.issued + |r.state.chunks|
  {
    var name := CollectionName(location, isDir);
    var bound := Bind(s, name);
    assert bound.store.collections[name] == [] by {
      assert IdsOf(bound.store.collections[name]) == [];
    }
    ProcessFresh(s, location, isDir, fileType, read, split, embed);
    IngestLoaded(bound, name, location, isDir, fileType, read, split, embed);
  }

  /** A location the dispatch rejects raises before anything is read or stored:
      the store only gains the (empty) bound collection. */
  lemma ProcessRejectsSource(s: PipelineState, location: string, isDir: bool, fileType: Option<string>,
                             read: Reader, split: Splitter, embed: Embedder)
    requires AcceptedName(CollectionName(location, isDir))
    requires !AlreadyIngested(s.store, CollectionName(location, isDir))
    requires SelectLoader(location, isDir, fileType).Err?
    ensures var r := Process(s, location, isDir, fileType, read, split, embed);
      && r.status == Raised(LoadFailed(SelectLoader(location, isDir, fileType).error))
      && r.state == Bind(s, CollectionName(location, isDir))
      && r.state.store.collections[CollectionName(location, isDir)] == []
  {
    var name := CollectionName(location, isDir);
    var bound := Bind(s, name);
    assert bound.store.collections[name] == [] by {
      assert IdsOf(bound.store.collections[name]) == [];
    }
    ProcessFresh(s, location, isDir, fileType, read, split, embed);
    IngestRejected(bound, name, location, isDir, fileType, read, split, embed);
  }

  /** A source that is not yet ingested goes on to be ingested. */
  lemma ProcessFresh(s: PipelineState, location: string, isDir: bool, fileType: Option<string>,
                     read: Reader, split: Splitter, embed: Embedder)
    requires AcceptedName(CollectionName(location, isDir))
    requires !AlreadyIngested(s.store, CollectionName(location, isDir))
    ensures var name := CollectionName(location, isDir);
      Process(s, location, isDir, fileType, read, split, embed)
      == Ingest(Bind(s, name), name, location, isDir, fileType, read, split, embed)
  {
    var name := CollectionName(location, isDir);
    assert !AlreadyIngested(Bind(s, name).store, name) by {
      assert IdsOf(Bind(s, name).store.collections[name]) == [];
    }
  }

  /** Ingesting a source no reader fits raises and changes nothing. */
  lemma IngestRejected(bound: PipelineState, name: string, location: string, isDir: bool, fileType: Option<string>,
                       read: Reader, split: Splitter, embed: Embedder)
    requires name in bound.store.collections
    requires SelectLoader(location, isDir, fileType).Err?
    ensures Ingest(bound, name, location, isDir, fileType, read, split, embed)
         == Step(bound, Raised(LoadFailed(SelectLoader(location, isDir, fileType).error)))
  {
  }

  /** After an ingestion the second call skips, or, when the first stored no
      record, repeats an ingestion of nothing. */
  lemma IngestedThenIdempotent(s: PipelineState, location: string, isDir: bool, fileType: Option<string>,
                               read: Reader, split: Splitter, embed: Embedder)
    requires AcceptedName(CollectionName(location, isDir))
    requires !AlreadyIngested(s.store, CollectionName(location, isDir))
    requires SelectLoader(location, isDir, fileType).Ok?
    ensures var first := Process(s, location, isDir, fileType, read, split, embed);
      Process(first.state, location, isDir, fileType, read, split, embed) == first
  {
    var name := CollectionName(location, isDir);
    var t := Process(s, location, isDir, fileType, read, split, embed).state;
    ProcessIngestsFresh(s, location, isDir, fileType, read, split, embed);
    if t.chunks != [] {
      FreshIngestionMarksIngested(s, location, isDir, fileType, read, split, embed);
      ProcessSkipsIngested(t, location, isDir, fileType, read, split, embed);
      assert t.(vectorstore := Some(name)) == t;
    } else {
      EmptyIngestionRepeats(s, location, isDir, fileType, read, split, embed);
    }
  }

  /** An ingestion that stored nothing is repeated exactly by the second call. */
  lemma EmptyIngestionRepeats(s: PipelineState, location: string, isDir: bool, fileType: Option<string>,
                              read: Reader, split: Splitter, embed: Embedder)
    requires AcceptedName(CollectionName(location, isDir))
    requires !AlreadyIngested(s.store, CollectionName(location, isDir))
    requires SelectLoader(location, isDir, fileType).Ok?
    requires split(read(SelectLoader(location, isDir, fileType).value, location), ChunkSize, ChunkOverlap) == []
    ensures var first := Process(s, location, isDir, fileType, read, split, embed);
      Process(first.state, location, isDir, fileType, read, split, embed) == first
  {
    var name := CollectionName(location, isDir);
    var bound := Bind(s, name);
    assert bound.store.collections[name] == [] by {
      assert IdsOf(bound.store.collections[name]) == [];
    }
    IngestNothingTwice(bound, name, location, isDir, fileType, read, split, embed);
  }

  /** Once an ingestion of nothing has run on an empty bound collection, binding
      again changes nothing and a second ingestion repeats the first. */
  lemma IngestNothingTwice(bound: PipelineState, name: string, location: string, isDir: bool, fileType: Option<string>,
                           read: Reader, split: Splitter, embed: Embedder)
    requires bound.vectorstore == Some(name) && name in bound.store.collections && bound.store.collections[name] == []
    requires SelectLoader(location, isDir, fileType).Ok?
    requires split(read(SelectLoader(location, isDir, fileType).value, location), ChunkSize, ChunkOverlap) == []
    ensures var first := Ingest(bound, name, location, isDir, fileType, read, split, embed);
      && Bind(first.state, name) == first.state
      && !AlreadyIngested(first.state.store, name)
      && Ingest(first.state, name, location, isDir, fileType, read, split, embed) == first
  {
    var first := Ingest(bound, name, location, isDir, fileType, read, split, embed);
    IngestNothing(bound, name, location, isDir, fileType, read, split, embed);
    RebindEmpty(first.state, name);
    IngestNothing(first.state, name, location, isDir, fileType, read, split, embed);
  }

  /** When a reader fits, the ingestion loads, splits and adds exactly the
      chunks; it completes iff there is at least one chunk. */
  lemma IngestLoaded(bound: PipelineState, name: string, location: string, isDir: bool, fileType: Option<string>,
                     read: Reader, split: Splitter, embed: Embedder)
    requires name in bound.store.collections
    requires SelectLoader(location, isDir, fileType).Ok?
    ensures var docs := read(SelectLoader(location, isDir, fileType).value, location);
      var chunks := split(docs, ChunkSize, ChunkOverlap);
      var r := Ingest(bound, name, location, isDir, fileType, read, split, embed);
      && r.state == bound.(documents := docs, chunks := chunks, store := Added(bound.store, name, chunks, embed))
      && r.status == (if chunks == [] then Raised(EmptyAdd) else Done)
  {
    var docs := read(SelectLoader(location, isDir, fileType).value, location);
    if split(docs, ChunkSize, ChunkOverlap) == [] {
      AddedNothing(bound.store, name, embed);
    }
  }

  /** Ingesting a source that splits into no chunk records what was loaded and
      raises, because the store refuses an add with no ids. */
  lemma IngestNothing(bound: PipelineState, name: string, location: string, isDir: bool, fileType: Option<string>,
                      read: Reader, split: Splitter, embed: Embedder)
    requires name in bound.store.collections
    requires SelectLoader(location, isDir, fileType).Ok?
    requires split(read(SelectLoader(location, isDir, fileType).value, location), ChunkSize, ChunkOverlap) == []
    ensures Ingest(bound, name, location, isDir, fileType, read, split, embed)
         == Step(bound.(documents := read(SelectLoader(location, isDir, fileType).value, location), chunks := []), Raised(EmptyAdd))
  {
  }

  /** Binding the collection that is already bound, and empty, changes nothing
      and does not skip. */
  lemma RebindEmpty(t: PipelineState, name: string)
    requires t.vectorstore == Some(name) && name in t.store.collections && t.store.collections[name] == []
    ensures Bind(t, name) == t && !AlreadyIngested(t.store, name)
  {
  }

  /** A second call with the same arguments changes nothing and ends the same
      way, whether the first call skipped, ingested, ingested nothing or raised. */
  lemma ProcessIdempotent(s: PipelineState, location: string, isDir: bool, fileType: Option<string>,
                          read: Reader, split: Splitter, embed: Embedder)
    ensures var first := Process(s, location, isDir, fileType, read, split, embed);
      Process(first.state, location, isDir, fileType, read, split, embed) == first
  {
    var name := CollectionName(location, isDir);
    if !AcceptedName(name) {
      // Both calls raise before changing anything.
    } else if AlreadyIngested(s.store, name) {
      ProcessSkipsIngested(s, location, isDir, fileType, read, split, embed);
      ProcessSkipsIngested(s.(vectorstore := Some(name)), location, isDir, fileType, read, split, embed);
    } else if SelectLoader(location, isDir, fileType).Ok? {
      IngestedThenIdempotent(s, location, isDir, fileType, read, split, embed);
    } else {
      ProcessRejectsSource(s, location, isDir, fileType, read, split, embed);
      ProcessRejectsSource(Bind(s, name), location, isDir, fileType, read, split, embed);
    }
  }

  /** Any other location that derives the same name is skipped once the first
      ingestion stored something: the store stays as the first call left it. */
  lemma SameNameSkips(s: PipelineState, location: string, isDir: bool, fileType: Option<string>,
                      other: string, otherIsDir: bool, otherType: Option<string>,
                      read: Reader, split: Splitter, embed: Embedder)
    requires AcceptedName(CollectionName(location, isDir))
    requires CollectionName(other, otherIsDir) == CollectionName(location, isDir)
    requires AlreadyIngested(Process(s, location, isDir, fileType, read, split, embed).state.store, CollectionName(location, isDir))
    ensures var first := Process(s, location, isDir, fileType, read, split, embed);
      Process(first.state, other, otherIsDir, otherType, read, split, embed) == Step(first.state, Done)
  {
    var first := Process(s, location, isDir, fileType, read, split, embed);
    ProcessSkipsIngested(first.state, other, otherIsDir, otherType, read, split, embed);
  }

  /** Ingesting a non-empty chunk list marks the source as ingested, so the
      next call skips it. */
  lemma FreshIngestionMarksIngested(s: PipelineState, location: string, isDir: bool, fileType: Option<string>,
                                    read: Reader, split: Splitter, embed: Embedder)
    requires AcceptedName(CollectionName(location, isDir))
    requires !AlreadyIngested(s.store, CollectionName(location, isDir))
    requires SelectLoader(location, isDir, fileType).Ok?
    requires split(read(SelectLoader(location, isDir, fileType).value, location), ChunkSize, ChunkOverlap) != []
    ensures AlreadyIngested(Process(s, location, isDir, fileType, read, split, embed).state.store, CollectionName(location, isDir))
  {
    ProcessIngestsFresh(s, location, isDir, fileType, read, split, embed);
    var r := Process(s, location, isDir, fileType, read, split, embed);
    var name := CollectionName(location, isDir);
    assert |IdsOf(r.state.store.collections[name])| > 0;
  }

  class KnowledgeBasePipeline {
    var documents: seq<Document>
    var chunks: seq<Document>
    /** The bound collection's name; `None` until a collection is bound. */
    var vectorstore: Option<string>
    /** The embedding model every bound collection uses. */
    const embeddings: Embedder
    /** The store under `./chroma_langchain_db`. */
    const db: ChromaStore

    function State(): PipelineState
      reads this, db
    {
      PipelineState(documents, chunks, vectorstore, db.Value())
    }

    ghost predicate Valid()
      reads this, db
    {
      Consistent(State())
    }

    /** `__init__`: no documents, no chunks, no bound collection. */
    constructor (db: ChromaStore, embeddings: Embedder)
      requires db.Valid()
      ensures Valid()
      ensures this.db == db && this.embeddings == embeddings
      ensures State() == PipelineState([], [], None, old(db.Value()))
    {
      this.documents := [];
      this.chunks := [];
      this.embeddings := embeddings;
      this.db := db;
      this.vectorstore := None;
    }

    /** `document_loader`: choose a reader, read, and keep the result in
        `documents`; a rejected location raises and leaves `documents` alone. */
    method DocumentLoader(location: string, isDir: bool, fileType: Option<string>, read: Reader)
      returns (r: Result<seq<Document>, LoaderError>)
      modifies this`documents
      ensures SelectLoader(location, isDir, fileType).Ok? ==>
        && documents == read(SelectLoader(location, isDir, fileType).value, location)
        && r == Ok(documents)
      ensures SelectLoader(location, isDir, fileType).Err? ==>
        documents == old(documents) && r == Err(SelectLoader(location, isDir, fileType).error)
      ensures State() == old(State()).(documents := documents)
    {
      var choice := SelectLoader(location, isDir, fileType);
      match choice
      case Err(e) =>
        r := Err(e);
      case Ok(kind) =>
        documents := read(kind, location);
        r := Ok(documents);
    }

    /** `document_splitter`: split with size 150 and overlap 20, keep the result
        in `chunks`. */
    method DocumentSplitter(docs: seq<Document>, split: Splitter) returns (r: seq<Document>)
      modifies this`chunks
      ensures chunks == split(docs, ChunkSize, ChunkOverlap) && r == chunks
      ensures State() == old(State()).(chunks := chunks)
    {
      chunks := split(docs, ChunkSize, ChunkOverlap);
      r := chunks;
    }

    /** `document_embedder`: raise when no collection is bound, otherwise add
        exactly `newChunks` to the bound collection, which raises for an empty
        list. */
    method DocumentEmbedder(newChunks: seq<Document>) returns (status: Status)
      requires Valid()
      modifies db
      ensures Valid()
      ensures vectorstore.None? ==> status == Raised(VectorstoreNotInitialized) && db.Value() == old(db.Value())
      ensures vectorstore.Some? && newChunks == [] ==> status == Raised(EmptyAdd) && db.Value() == old(db.Value())
      ensures vectorstore.Some? && newChunks != [] ==>
        status == Done && db.Value() == Added(old(db.Value()), vectorstore.value, newChunks, embeddings)
      ensures State() == old(State()).(store := db.Value())
    {
      if vectorstore.None? {
        status := Raised(VectorstoreNotInitialized);
        return;
      }
      var added := db.AddDocuments(vectorstore.value, newChunks, embeddings);
      status := if added then Done else Raised(EmptyAdd);
    }

    method ProcessDocumentIntelligently(location: string, isDir: bool, fileType: Option<string>,
                                        read: Reader, split: Splitter) returns (status: Status)
      requires Valid()
      modifies this, db
      ensures Valid()
      ensures Step(State(), status) == Process(old(State()), location, isDir, fileType, read, split, embeddings)
    {
      ghost var before := State();
      var name := CollectionName(location, isDir);
      status := BindCollection(name);
      if status.Raised? {
        return;
      }
      var existingIds := db.Ids(name);
      if existingIds != [] {
        assert AlreadyIngested(State().store, name);
        status := Done;
      } else {
        assert !AlreadyIngested(State().store, name);
        status := IngestNew(name, location, isDir, fileType, read, split);
      }
      ProcessKeepsConsistent(before, location, isDir, fileType, read, split, embeddings);
    }

    /** The `else` branch of `process_document_intelligently`: load, split and
        embed into the bound collection `name`. */
    method IngestNew(name: string, location: string, isDir: bool, fileType: Option<string>,
                     read: Reader, split: Splitter) returns (status: Status)
      requires Valid() && vectorstore == Some(name)
      modifies this`documents, this`chunks, db
      ensures Valid()
      ensures Step(State(), status) == Ingest(old(State()), name, location, isDir, fileType, read, split, embeddings)
    {
      ghost var bound := State();
      var loaded := DocumentLoader(location, isDir, fileType, read);
      if loaded.Err? {
        status := Raised(LoadFailed(loaded.error));
        IngestRejected(bound, name, location, isDir, fileType, read, split, embeddings);
      } else {
        var newChunks := DocumentSplitter(loaded.value, split);
        status := DocumentEmbedder(newChunks);
        IngestLoaded(bound, name, location, isDir, fileType, read, split, embeddings);
      }
    }

    /** `self.vectorstore = Chroma(collection_name=name, ...)`: the store's
        `ValueError` for a rejected name leaves the old binding in place. */
    method BindCollection(name: string) returns (status: Status)
      requires Valid()
      modifies this`vectorstore, db
      ensures Valid()
      ensures Step(State(), status) == Connect(old(State()), name)
    {
      var accepted := db.GetOrCreate(name);
      if !accepted {
        return Raised(InvalidName(name));
      }
      vectorstore := Some(name);
      status := Done;
    }

    method ResetVectorstoreCollection() returns (status: Status)
      requires Valid()
      modifies this`vectorstore, db
      ensures Valid()
      ensures Step(State(), status) == Reset(old(State()))
    {
      var name := if vectorstore.Some? then vectorstore.value else DefaultCollection;
      status := BindCollection(name);
    }

    /** `get_vectorstore_data_as_dataframe`: nothing when no collection is bound
        or it is empty, otherwise row i pairs the i-th text, embedding and
        metadata of the bound collection. */
    method GetVectorstoreDataAsRows() returns (rows: seq<Row>)
      requires Valid()
      ensures vectorstore.None? ==> rows == []
      ensures vectorstore.Some? ==> |rows| == |db.collections[vectorstore.value]|
      ensures vectorstore.Some? ==> forall i :: 0 <= i < |rows| ==>
        var c := db.collections[vectorstore.value];
        rows[i] == Row(c[i].text, c[i].embedding, c[i].metadata)
    {
      if vectorstore.None? {
        return [];
      }
      var texts, vectors, metadatas := db.GetAll(vectorstore.value);
      if texts == [] {
        return [];
      }
      rows := [];
      for i := 0 to |texts|
        invariant |rows| == i
        invariant forall k :: 0 <= k < i ==> rows[k] == Row(texts[k], vectors[k], metadatas[k])
      {
        rows := rows + [Row(texts[i], vectors[i], metadatas[i])];
      }
    }
  }
}
