# Agentic RAG: ingestion controller, credential checks and frontend auth guard

This project is a Dafny model of the decision logic in the Agentic_RAG repository. It proves properties of that model. It covers three parts.

- **Knowledge-base ingestion** (`KnowledgeBasePipeline`). A location is a file path, a directory path or a URL. It is turned into a Chroma collection name: the basename, cut at the first `.` for a non-directory, with every character outside `[A-Za-z0-9_]` replaced by `_`, prefixed with `kb_` and truncated to 63 characters.
  - The pipeline binds that collection. Chroma's constructor is get-or-create.
  - It skips the source when the collection already holds an id.
  - Otherwise it chooses a reader from the directory flag, the declared type and the lowered extension. It reads, splits with size 150 and overlap 20, and adds one record per chunk.
  - `reset_vectorstore_collection` rebinds the current collection, or `example_collection` when none is bound.
  - The exporter returns one row per stored record.
- **Backend credential checks** (`dependencies.py`, `auth.py`):
  - user lookup by name (the first row);
  - password authentication;
  - bearer-token resolution, where any failure is one 401;
  - the active-user gate (400);
  - `/register`: 400 for a taken name, 500 when a unique `full_name` or `email` clashes at commit, otherwise insert and return a token;
  - `/token`, `/users/me/` and `/users/me/items`.
- **Frontend auth** (`router/index.ts`, `useAuth.ts`):
  - the four-route table;
  - the `beforeEach` guard: redirect to `login`, redirect to `home`, or proceed;
  - the token state: the reactive ref plus `localStorage`.

## Structure

Each module follows one source file; the pipeline file is split across several modules.

| file | module | part of the source |
|---|---|---|
| `wrappers.dfy` | `Wrappers` | `Option` and `Result` |
| `path_text.dfy` | `PathText` | `os.path.basename`, `split('.')[0]`, `split('.')[-1]` and `lower()` |
| `collection_naming.dfy` | `CollectionNaming` | `_get_sanitized_collection_name` |
| `loader_dispatch.dfy` | `LoaderDispatch` | the branches of `document_loader` |
| `vector_store.dfy` | `VectorStore` | the Chroma store: a value and the object `ChromaStore` |
| `knowledge_base.dfy` | `KnowledgeBase` | the class `KnowledgeBasePipeline`, and the pure functions `Process` and `Reset` that specify its methods |
| `user_models.dfy` | `Users` | Pydantic models, the `users` table, and the security primitives as parameters |
| `dependencies.dfy` | `Dependencies` | `get_user`, `authenticate_user`, `get_current_user` and `get_current_active_user` |
| `auth_routes.dfy` | `AuthRoutes` | the four routes of `auth.py` |
| `router.dfy` | `Router` | the route table and the guard |
| `use_auth.dfy` | `UseAuth` | `isAuthenticated` and `setToken` |

The state-changing parts are classes, and each method's `ensures` ties its new state to a pure function of the old state. `KnowledgeBasePipeline` and `ChromaStore` are specified by `Process`, `Reset`, `Opened` and `Added`. `AuthSession` is specified by `SetTokenValue`. `Register` is specified by `Registered`. The lemmas are stated about those functions.

Two library rules are stated as predicates: `VectorStore.AcceptedName` is Chroma's rule for collection names, and `Router.PathMatches` is vue-router's matching of a static path under `createRouter`'s defaults, which ignores ASCII case and one trailing `/`.

These are parameters of the model rather than code in it:
- the readers (file, directory and network I/O);
- the text splitter;
- the embedding model;
- bcrypt (`verify`, `hash`);
- JWT (`encode`, `decode`; `decode` returns `None` where `jwt.decode` raises);
- the clock (`now`);
- `os.path.isdir` (`isDir`).

Some consequences of the code as written, each proved as a lemma:
- **The collection name is cut at the first `.`.** `docs/a.b.txt` gives `kb_a` (`CollectionNaming.MultiDotFile`), and `.hidden` gives `kb_` (`CollectionNaming.HiddenFile`).
- **Names collide beyond disallowed characters.** Dropping everything after the first `.` and truncating to 63 characters make more locations share a name. `a.txt` and `a.pdf` share `kb_a` (`CollectionNaming.ExtensionsCollide`).
- **Some derived names are refused by the store.** The comment in `_get_sanitized_collection_name` states Chroma's rule: 3 to 63 characters, and the first and last a letter or digit. The code does not enforce the last part. A derived name always starts with `k`, so the store accepts it iff it is longer than `kb_` and ends in a letter or digit (`KnowledgeBase.DerivedNameAccepted`). For `.hidden` (`kb_`) or `notes-.txt` (`kb_notes_`), the constructor raises before anything is bound, and the call raises with the state unchanged (`KnowledgeBase.HiddenFileRaises`).
- **An empty split raises.** A source that splits into no chunk reaches `add_documents([])`, and the store refuses an upsert with no ids. The call raises after `documents` and `chunks` were set, and stores nothing (`KnowledgeBase.IngestNothing`). The next call on the same source does the same again (`KnowledgeBase.EmptyIngestionRepeats`).
- **Reset deletes nothing.** `reset_vectorstore_collection` rebinds the current collection, or `example_collection`, and keeps every record (`KnowledgeBase.Reset`).
- **Dotted URLs are rejected.** The test "starts with http" is applied to the text after the last `.`. So a location reaches the web reader iff its lowered text after the last `.`, or the whole location when it has no `.`, starts with `http` (`LoaderDispatch.FileSelectsWeb`). `https://example.com` is therefore rejected (`LoaderDispatch.DottedUrlRejected`), while `https://example.com/a.http` reaches the web reader.

## Model

| member | source | states |
|---|---|---|
| PathText.AfterLast | backend/src/core/knowledge_base_pipeline/pipeline.py:39 | the result is the suffix of the input with no separator in it, preceded by a separator or the start |
| PathText.BeforeFirst | backend/src/core/knowledge_base_pipeline/pipeline.py:22 | the result is the prefix of the input with no separator in it, followed by a separator or the end |
| PathText.Basename | backend/src/core/knowledge_base_pipeline/pipeline.py:22 | the basename contains no '/' |
| PathText.AfterLastSegment | backend/src/core/knowledge_base_pipeline/pipeline.py:22 | the segment after a final separator, or the whole location when it has none, is what the last-segment cut returns |
| PathText.Lower | backend/src/core/knowledge_base_pipeline/pipeline.py:39 | the length is kept and each character is lowered on its own (ASCII) |
| PathText.LowerKeepsLowercase | backend/src/core/knowledge_base_pipeline/pipeline.py:39 | lowering a string without capitals leaves it unchanged |
| PathText.Partition | backend/src/Auth/dependencies.py:16 | with the separator present: the input is the part before it, the separator and the part after, and the part before holds no separator; without it: the whole input and an empty rest |
| PathText.PartitionAt | backend/src/Auth/dependencies.py:16 | splitting `a + sep + b` with `sep` not in `a` gives back `a` and `b` |
| CollectionNaming.Sanitize | backend/src/core/knowledge_base_pipeline/pipeline.py:23 | each disallowed character becomes exactly one '_', each allowed one is kept, and the length is kept |
| CollectionNaming.Take | backend/src/core/knowledge_base_pipeline/pipeline.py:26 | the result is the prefix of length min(len, n) |
| CollectionNaming.BaseName | backend/src/core/knowledge_base_pipeline/pipeline.py:22 | a directory gives its basename; anything else gives the basename before its first '.'; the result contains no '/' |
| CollectionNaming.NameFromBase | backend/src/core/knowledge_base_pipeline/pipeline.py:23-26 | for any base: starts with `kb_`, 3 to 63 characters from `[A-Za-z0-9_]`, length min(3 + base length, 63), character i is the sanitised base character i - 3 |
| CollectionNaming.CollectionName | backend/src/core/knowledge_base_pipeline/pipeline.py:19-26 | the name starts with `kb_`, has 3 to 63 characters, all in `[A-Za-z0-9_]`; its length is min(3 + base length, 63); character i is the sanitised base character i - 3 |
| CollectionNaming.SanitizeKeepsAllowed | backend/src/core/knowledge_base_pipeline/pipeline.py:23 | a string already inside the class is unchanged |
| CollectionNaming.SanitizeIdempotent | backend/src/core/knowledge_base_pipeline/pipeline.py:23 | sanitising twice is sanitising once |
| CollectionNaming.CollectionNameIsSanitized | backend/src/core/knowledge_base_pipeline/pipeline.py:23-26 | a derived name is a fixed point of sanitising |
| CollectionNaming.UntruncatedLength | backend/src/core/knowledge_base_pipeline/pipeline.py:22-26 | when the base has at most 60 characters, the name is exactly `kb_` plus the sanitised base, 3 characters longer than the base |
| CollectionNaming.MultiDotFile | backend/src/core/knowledge_base_pipeline/pipeline.py:22 | `docs/a.b.txt` names `kb_a`: the base is cut at the first '.' |
| CollectionNaming.HiddenFile | backend/src/core/knowledge_base_pipeline/pipeline.py:22-26 | `.hidden` names `kb_` |
| CollectionNaming.DirectoryBase | backend/src/core/knowledge_base_pipeline/pipeline.py:22 | a directory's base keeps its dots |
| CollectionNaming.SanitizeSpaceAndDot | backend/src/core/knowledge_base_pipeline/pipeline.py:23 | a space and a dot each become one '_' |
| CollectionNaming.DirectoryName | backend/src/core/knowledge_base_pipeline/pipeline.py:22-26 | the directory `/d/a b.c` names `kb_a_b_c` |
| CollectionNaming.BeforeFirstOneChar | backend/src/core/knowledge_base_pipeline/pipeline.py:22 | a string whose second character is the separator keeps only its first character when cut at the first separator |
| CollectionNaming.FileNamedA | backend/src/core/knowledge_base_pipeline/pipeline.py:22-26 | a file whose basename starts with `a.` names `kb_a`, whatever its directory and whatever follows the dot |
| CollectionNaming.NameOfA | backend/src/core/knowledge_base_pipeline/pipeline.py:23-26 | the base `a` names `kb_a` |
| CollectionNaming.ExtensionsCollide | backend/src/core/knowledge_base_pipeline/pipeline.py:22-26 | any two slash-free file locations starting with `a.`, such as `a.txt` and `a.pdf`, share the collection `kb_a` |
| LoaderDispatch.Extension | backend/src/core/knowledge_base_pipeline/pipeline.py:39 | the extension contains no '.' and is no longer than the location |
| LoaderDispatch.SelectLoader | backend/src/core/knowledge_base_pipeline/pipeline.py:28-47 | a directory gets the PDF directory reader iff the type is "pdf", the text directory reader iff it is "txt", and otherwise an error; a non-directory gets a PDF, text or web reader or the unsupported-source error naming the location |
| LoaderDispatch.DotFreeWhenLowerIs | backend/src/core/knowledge_base_pipeline/pipeline.py:39 | lowering neither creates nor removes a '.' |
| LoaderDispatch.ExtensionIsSuffix | backend/src/core/knowledge_base_pipeline/pipeline.py:39 | the extension is either the whole lowered location or the lowered text after a final '.' |
| LoaderDispatch.WholeLocationIsExtension | backend/src/core/knowledge_base_pipeline/pipeline.py:39 | a location without '.' is its own extension, up to case |
| LoaderDispatch.DottedSuffixIsExtension | backend/src/core/knowledge_base_pipeline/pipeline.py:39 | the dot-free text after a final '.' is the extension, up to case |
| LoaderDispatch.ExtensionMatches | backend/src/core/knowledge_base_pipeline/pipeline.py:39 | for a dot-free `ext`, the extension equals `ext` iff the location is `ext` up to ASCII case, or ends in '.' followed by `ext` up to ASCII case |
| LoaderDispatch.FileSelectsPdf | backend/src/core/knowledge_base_pipeline/pipeline.py:39-41 | a file gets the PDF reader iff it ends in `.pdf` in any ASCII case (or is `pdf`) |
| LoaderDispatch.FileSelectsTxt | backend/src/core/knowledge_base_pipeline/pipeline.py:39-43 | a file gets the text reader iff it ends in `.txt` in any ASCII case (or is `txt`) |
| LoaderDispatch.FileSelectsWeb | backend/src/core/knowledge_base_pipeline/pipeline.py:39-45 | a file gets the web reader iff its extension starts with `http`; the declared type is ignored for a non-directory |
| LoaderDispatch.DottedUrlRejected | backend/src/core/knowledge_base_pipeline/pipeline.py:39-47 | `https://example.com` is rejected as unsupported |
| LoaderDispatch.DotFreeUrlAccepted | backend/src/core/knowledge_base_pipeline/pipeline.py:39-45 | a URL with neither a '.' nor a capital goes to the web reader, whatever the declared type |
| LoaderDispatch.UpperCasePdfExtension | backend/src/core/knowledge_base_pipeline/pipeline.py:39 | the extension of `A.PDF` is `pdf` |
| LoaderDispatch.DocxExtension | backend/src/core/knowledge_base_pipeline/pipeline.py:39 | the extension of `notes.docx` is `docx` |
| LoaderDispatch.CaseAndUnsupportedExamples | backend/src/core/knowledge_base_pipeline/pipeline.py:39-47 | `A.PDF` gets the PDF reader; `notes.docx` is rejected even with type "pdf" |
| VectorStore.Opened | backend/src/core/knowledge_base_pipeline/pipeline.py:74-78 | binding keeps an existing collection's records, creates a missing one empty, changes no other collection and keeps every id below the counter |
| VectorStore.AlreadyIngested | backend/src/core/knowledge_base_pipeline/pipeline.py:81-82 | true iff the named collection exists and holds at least one record |
| VectorStore.IdsOf | backend/src/core/knowledge_base_pipeline/pipeline.py:81 | one id per record, in storage order |
| VectorStore.ToRecords | backend/src/core/knowledge_base_pipeline/pipeline.py:67 | record i holds id firstId + i, chunk i's text and metadata, and the embedding of its text |
| VectorStore.Added | backend/src/core/knowledge_base_pipeline/pipeline.py:67 | exactly the chunks' records are appended to the named collection; other collections are unchanged; the counter grows by the number of chunks |
| VectorStore.AddedNothing | backend/src/core/knowledge_base_pipeline/pipeline.py:67 | adding an empty chunk list leaves the store unchanged |
| VectorStore.AddedKeepsIdsBelow | backend/src/core/knowledge_base_pipeline/pipeline.py:67 | after adding, all ids stay below the counter, and the new ids differ from every stored id |
| VectorStore.ChromaStore.constructor | backend/src/core/knowledge_base_pipeline/pipeline.py:77 | an empty persist directory |
| VectorStore.ChromaStore.GetOrCreate | backend/src/core/knowledge_base_pipeline/pipeline.py:74-78 | reports whether the store accepts the name; an accepted name makes the new store value `Opened` of the old one, and a refused name changes nothing |
| VectorStore.ChromaStore.Ids | backend/src/core/knowledge_base_pipeline/pipeline.py:81 | returns the ids of the collection in order |
| VectorStore.ChromaStore.AddDocuments | backend/src/core/knowledge_base_pipeline/pipeline.py:67 | adds iff the chunk list is non-empty; then the new store value is `Added` of the old one, and otherwise nothing changes |
| VectorStore.ChromaStore.GetAll | backend/src/core/knowledge_base_pipeline/pipeline.py:112-115 | three parallel columns of texts, embeddings and metadata, one entry per record |
| KnowledgeBase.Bind | backend/src/core/knowledge_base_pipeline/pipeline.py:74-78 | the named collection becomes the bound one; documents and chunks are kept |
| KnowledgeBase.Connect | backend/src/core/knowledge_base_pipeline/pipeline.py:74-78 | completes iff the store accepts the name, and then the state is `Bind` of the old one; a refused name raises `InvalidName` with the state unchanged |
| KnowledgeBase.Ingest | backend/src/core/knowledge_base_pipeline/pipeline.py:84-91 | binding and key set are kept; no reader raises that loader error with the state unchanged; with a reader, the call completes iff the split is non-empty; a raised call stores nothing; collections only grow, and only the bound one can change |
| KnowledgeBase.Process | backend/src/core/knowledge_base_pipeline/pipeline.py:69-91 | a name the store refuses raises `InvalidName` with the state unchanged; otherwise the derived collection is bound and present and the key set gains just the derived name; in both cases every collection only grows and only the derived one can change |
| KnowledgeBase.Reset | backend/src/core/knowledge_base_pipeline/pipeline.py:93-103 | rebinds the current collection, or `example_collection` when none is bound; no record, document or chunk changes; a refused name raises with the state unchanged; from a consistent state it never raises and keeps the invariant |
| KnowledgeBase.ProcessKeepsConsistent | backend/src/core/knowledge_base_pipeline/pipeline.py:69-91 | processing keeps the bound collection present and accepted, and all ids below the counter |
| KnowledgeBase.DerivedNameAccepted | backend/src/core/knowledge_base_pipeline/pipeline.py:22-26 | the store accepts a derived name iff it is longer than `kb_` and ends in a letter or digit |
| KnowledgeBase.HiddenFileRaises | backend/src/core/knowledge_base_pipeline/pipeline.py:70-78 | processing the file `.hidden` raises `InvalidName("kb_")` and changes nothing |
| KnowledgeBase.ProcessSkipsIngested | backend/src/core/knowledge_base_pipeline/pipeline.py:81-83 | a collection with an id is skipped: only the binding changes and the call returns |
| KnowledgeBase.ProcessIngestsFresh | backend/src/core/knowledge_base_pipeline/pipeline.py:84-91 | an empty or missing collection receives exactly the split chunks of what the chosen reader read, under fresh ids; `documents` and `chunks` hold what was loaded and split; the call completes iff there is a chunk, and otherwise raises the empty-add error |
| KnowledgeBase.ProcessRejectsSource | backend/src/core/knowledge_base_pipeline/pipeline.py:84-86 | a rejected location raises its `ValueError` after binding an empty collection and before anything is read |
| KnowledgeBase.ProcessFresh | backend/src/core/knowledge_base_pipeline/pipeline.py:81-91 | a source whose collection holds no id is not skipped: the call goes on to load, split and add into the bound collection |
| KnowledgeBase.IngestRejected | backend/src/core/knowledge_base_pipeline/pipeline.py:86 | when no reader fits, the ingestion raises that reader error and changes no field and no collection |
| KnowledgeBase.IngestLoaded | backend/src/core/knowledge_base_pipeline/pipeline.py:84-91 | when a reader fits, the ingestion sets `documents` to what it read and `chunks` to their split, and appends exactly those chunks to the collection; it completes iff there is a chunk |
| KnowledgeBase.ProcessIdempotent | backend/src/core/knowledge_base_pipeline/pipeline.py:69-91 | a second identical call changes nothing and ends the same way, on every path |
| KnowledgeBase.IngestedThenIdempotent | backend/src/core/knowledge_base_pipeline/pipeline.py:81-91 | after an ingestion, a second identical call repeats the first call's result |
| KnowledgeBase.EmptyIngestionRepeats | backend/src/core/knowledge_base_pipeline/pipeline.py:81-91 | an ingestion that stored no record is repeated exactly, with the same state and outcome |
| KnowledgeBase.IngestNothing | backend/src/core/knowledge_base_pipeline/pipeline.py:86-91 | a source that splits into no chunk sets `documents` to what was read and `chunks` to empty, leaves the store unchanged, and raises the empty-add error |
| KnowledgeBase.RebindEmpty | backend/src/core/knowledge_base_pipeline/pipeline.py:74-82 | rebinding the already-bound empty collection changes nothing, and the call is not skipped |
| KnowledgeBase.IngestNothingTwice | backend/src/core/knowledge_base_pipeline/pipeline.py:74-91 | after an ingestion of nothing into the bound empty collection, rebinding changes nothing, the collection is still not ingested, and a second ingestion gives the same result |
| KnowledgeBase.SameNameSkips | backend/src/core/knowledge_base_pipeline/pipeline.py:70-83 | once a collection holds records, every location deriving the same name is skipped |
| KnowledgeBase.FreshIngestionMarksIngested | backend/src/core/knowledge_base_pipeline/pipeline.py:82-90 | ingesting a non-empty chunk list makes the next call skip |
| KnowledgeBase.KnowledgeBasePipeline.constructor | backend/src/core/knowledge_base_pipeline/pipeline.py:13-17 | no documents, no chunks, no bound collection |
| KnowledgeBase.KnowledgeBasePipeline.DocumentLoader | backend/src/core/knowledge_base_pipeline/pipeline.py:28-51 | on a selected reader, `documents` becomes what it read and is returned; on a rejection, the error and `documents` unchanged; no other field changes |
| KnowledgeBase.KnowledgeBasePipeline.DocumentSplitter | backend/src/core/knowledge_base_pipeline/pipeline.py:54-62 | `chunks` becomes the split with size 150 and overlap 20, and is returned; no other field changes |
| KnowledgeBase.KnowledgeBasePipeline.DocumentEmbedder | backend/src/core/knowledge_base_pipeline/pipeline.py:64-67 | raises, with the store unchanged, when nothing is bound or the chunk list is empty; otherwise adds exactly the chunks to the bound collection; no other field changes |
| KnowledgeBase.KnowledgeBasePipeline.BindCollection | backend/src/core/knowledge_base_pipeline/pipeline.py:74-78 | the new state and the outcome are `Connect` of the old state, and the invariant is kept |
| KnowledgeBase.KnowledgeBasePipeline.IngestNew | backend/src/core/knowledge_base_pipeline/pipeline.py:84-91 | the new state and the outcome are `Ingest` of the old state |
| KnowledgeBase.KnowledgeBasePipeline.ProcessDocumentIntelligently | backend/src/core/knowledge_base_pipeline/pipeline.py:69-91 | the new state and the outcome are `Process` of the old state |
| KnowledgeBase.KnowledgeBasePipeline.ResetVectorstoreCollection | backend/src/core/knowledge_base_pipeline/pipeline.py:93-103 | the new state and the outcome are `Reset` of the old state |
| KnowledgeBase.KnowledgeBasePipeline.GetVectorstoreDataAsRows | backend/src/core/knowledge_base_pipeline/pipeline.py:105-135 | no rows when nothing is bound; otherwise row i pairs record i's text, embedding and metadata, one row per record |
| Dependencies.ToUserInDB | backend/src/Auth/dependencies.py:33-40 | every field is copied from the row |
| Dependencies.BearerToken | backend/src/Auth/dependencies.py:16 | a missing header gives 401 "Not authenticated"; every failure is that error |
| Dependencies.BearerHeader | backend/src/Auth/dependencies.py:16 | a header `scheme token` with a space-free scheme yields a token iff the scheme is `bearer` up to ASCII case, and the token is the text after the first space |
| Dependencies.BearerRoundTrip | backend/src/Auth/dependencies.py:16 | the header `Bearer ` followed by a token yields that token |
| Dependencies.GetUser | backend/src/Auth/dependencies.py:29-41 | `None` iff no row has the name; otherwise the copy of the first row with the name |
| Dependencies.GetUserAfterAppend | backend/src/Auth/dependencies.py:29-41 | after appending a row to a table without the name, the lookup finds exactly that row, or nothing |
| Dependencies.GetUserOtherAfterAppend | backend/src/Auth/dependencies.py:29-41 | appending a row leaves lookups of other names unchanged |
| Dependencies.AuthenticateUser | backend/src/Auth/dependencies.py:43-51 | an unknown name or a password that fails verification gives a falsy result; otherwise the looked-up user |
| Dependencies.GetCurrentUser | backend/src/Auth/dependencies.py:54-91 | the user is found iff the token decodes, carries `sub` and names an existing user, and then it is that user; every failure is the same 401 |
| Dependencies.GetCurrentActiveUser | backend/src/Auth/dependencies.py:94-113 | passes the user through iff `is_active` is true, otherwise 400 "Inactive user" |
| AuthRoutes.CreateAccessToken | backend/src/Auth/security.py:40-49 | the token encodes `sub` and an expiry `expires_delta` after now when the delta is present and non-zero, and `ACCESS_TOKEN_EXPIRE_MINUTES` after now otherwise |
| AuthRoutes.ExplicitDefaultLifetime | backend/src/Auth/auth.py:43-44 | passing `ACCESS_TOKEN_EXPIRE_MINUTES` explicitly, as `/token` does, issues the same token as passing nothing, as `/register` does |
| AuthRoutes.NewRow | backend/src/Auth/auth.py:23-24 | the inserted row carries the submitted fields, the password's hash and the active default |
| AuthRoutes.Registered | backend/src/Auth/auth.py:15-29 | a taken name gives 400 and an unchanged table; a free name whose unique `full_name` or `email` clashes gives 500 and an unchanged table; success iff the name is free and no unique column clashes, and then the new row is appended and the token for the name is returned |
| AuthRoutes.UniqueConflict | backend/src/database/tables.py:8-9 | no clash on an empty table or for a row with neither `full_name` nor `email` |
| AuthRoutes.Register | backend/src/Auth/auth.py:15-29 | the table and the answer after the call are `Registered` of the table before |
| AuthRoutes.LoginForAccessToken | backend/src/Auth/auth.py:31-45 | 401 iff authentication fails; otherwise a bearer token for the name |
| AuthRoutes.ActiveUser | backend/src/Auth/auth.py:48 | a missing header gives 401 "Not authenticated"; succeeds iff the header carries a bearer token that resolves to an active user, and then returns that user; the only errors are the two 401s and the 400 |
| AuthRoutes.PublicView | backend/src/Auth/auth.py:47 | the response keeps the name, full name and email of the user |
| AuthRoutes.ReadUsersMe | backend/src/Auth/auth.py:47-52 | succeeds iff the `Authorization` header carries a bearer token that resolves to an active user, and then returns that user without hash or flag; a missing header gives 401 "Not authenticated"; it fails with exactly the error of the active-user dependency |
| AuthRoutes.ReadOwnItems | backend/src/Auth/auth.py:54-59 | succeeds exactly when `/users/me/` does, with one item of id 1 owned by the whole user record; otherwise it fails with the same error |
| AuthRoutes.RegisterThenLookup | backend/src/Auth/auth.py:20-27 | after registering, the name finds the new user with its fields and hash, and every other name finds what it found before |
| AuthRoutes.LoginAs | backend/src/Auth/auth.py:36-45 | a user found by name whose password verifies gets a bearer token |
| AuthRoutes.RegisterThenLogin | backend/src/Auth/auth.py:15-45 | logging in right after registering succeeds when the password verifies against its own hash |
| AuthRoutes.RegisterThenReadMe | backend/src/Auth/auth.py:15-52 | the header `Bearer ` followed by the token `/register` returns opens `/users/me/` for the new user, when decoding inverts encoding |
| AuthRoutes.RegisterTwiceRefused | backend/src/Auth/auth.py:20-22 | a second registration under the same name is refused and changes nothing |
| Users.UsersTable.constructor | backend/src/database/tables.py:4-11 | a table with the given rows and next id |
| Router.Lookup | frontend/Agentic_RAG/src/router/index.ts:8-33 | no record matches iff no path matches up to ASCII case and one trailing `/`; otherwise the first record of the table that matches |
| Router.Resolve | frontend/Agentic_RAG/src/router/index.ts:8-33 | a path no record matches yields no name and no `requiresAuth`; a matched path yields a name, and it is the name and `requiresAuth` of a matching record |
| Router.Named | frontend/Agentic_RAG/src/router/index.ts:10-32 | navigating by name yields that name and the flag of its record |
| Router.NamedRecord | frontend/Agentic_RAG/src/router/index.ts:10-32 | navigating by a record's name yields that record's name and `requiresAuth` |
| Router.Guard | frontend/Agentic_RAG/src/router/index.ts:35-46 | a protected route without a token redirects to `login`; `login` or `signup` with a token redirects to `home`; it proceeds exactly in all other cases |
| Router.OnlyHomeRequiresAuth | frontend/Agentic_RAG/src/router/index.ts:26-31 | a route requires authentication iff it is `home` |
| Router.ResolveNamed | frontend/Agentic_RAG/src/router/index.ts:10-32 | each table path resolves to the target its name navigates to |
| Router.UnauthenticatedReachesPublic | frontend/Agentic_RAG/src/router/index.ts:38-45 | without a token, `onboarding`, `login` and `signup` are reached directly |
| Router.UnauthenticatedNeverHome | frontend/Agentic_RAG/src/router/index.ts:38-39 | without a token, no navigation ends on `home` |
| Router.AuthenticatedDestinations | frontend/Agentic_RAG/src/router/index.ts:40-45 | with a token, `login` and `signup` end on `home`, and the other routes are reached directly |
| Router.RedirectIsStable | frontend/Agentic_RAG/src/router/index.ts:35-46 | a redirect target is never redirected again under the same token state |
| Router.UnknownPathProceeds | frontend/Agentic_RAG/src/router/index.ts:38-45 | a path that matches no record, even up to case and a trailing `/`, always proceeds |
| Router.RoutePathsLowercase | frontend/Agentic_RAG/src/router/index.ts:10-32 | every route path is already lower case |
| Router.LoweredClassified | frontend/Agentic_RAG/src/router/index.ts:10-32 | a lowered path equal to record i's path, possibly followed by one `/`, is classified as record i |
| Router.MatchClassified | frontend/Agentic_RAG/src/router/index.ts:10-32 | a path that matches record i is classified as record i |
| Router.MatchIsUnique | frontend/Agentic_RAG/src/router/index.ts:10-32 | no path matches two records |
| Router.HomeAnyCase | frontend/Agentic_RAG/src/router/index.ts:26-31 | `/HOME` resolves to `home`, and without a token it redirects to `login` |
| Router.HomeTrailingSlash | frontend/Agentic_RAG/src/router/index.ts:26-31 | `/home/` resolves to `home`, and without a token it redirects to `login` |
| Router.ResolveAt | frontend/Agentic_RAG/src/router/index.ts:10-32 | a path matching record i resolves to the name and flag of record i |
| Router.NoPathReachesHomeUnauthenticated | frontend/Agentic_RAG/src/router/index.ts:38-39 | without a token, no path, in any case and with or without a trailing `/`, ends on `home` |
| UseAuth.GetItem | frontend/Agentic_RAG/src/composables/useAuth.ts:4 | the stored value under the key, or null when there is none |
| UseAuth.Loaded | frontend/Agentic_RAG/src/composables/useAuth.ts:4 | the ref starts as the stored token, or null |
| UseAuth.Truthy | frontend/Agentic_RAG/src/composables/useAuth.ts:10 | `null` and `""` are falsy, and every non-empty string is truthy |
| UseAuth.SetTokenValue | frontend/Agentic_RAG/src/composables/useAuth.ts:9-16 | the ref becomes the argument; a truthy token is stored, and anything else removes the entry |
| UseAuth.LoadedInSync | frontend/Agentic_RAG/src/composables/useAuth.ts:4 | a page load starts with the ref equal to storage |
| UseAuth.SetTruthyTokenAuthenticates | frontend/Agentic_RAG/src/composables/useAuth.ts:10-15 | a non-empty token authenticates, now and after a reload |
| UseAuth.SetNullTokenSignsOut | frontend/Agentic_RAG/src/composables/useAuth.ts:12-15 | a null token signs out, now and after a reload |
| UseAuth.SetTokenSyncUnlessEmpty | frontend/Agentic_RAG/src/composables/useAuth.ts:9-16 | ref and storage agree after `setToken` iff the token is not `""`; `setToken("")` leaves the user authenticated while a reload would not |
| UseAuth.SetTokenKeepsOtherKeys | frontend/Agentic_RAG/src/composables/useAuth.ts:10-14 | no other storage key changes |
| UseAuth.SetTokenIdempotent | frontend/Agentic_RAG/src/composables/useAuth.ts:9-16 | setting the same token twice is setting it once |
| UseAuth.AuthSession.constructor | frontend/Agentic_RAG/src/composables/useAuth.ts:4 | the session starts as `Loaded` of the storage |
| UseAuth.AuthSession.IsAuthenticated | frontend/Agentic_RAG/src/composables/useAuth.ts:7 | authenticated iff the ref is not null |
| UseAuth.AuthSession.SetToken | frontend/Agentic_RAG/src/composables/useAuth.ts:9-16 | the new ref and storage are `SetTokenValue` of the old ones |

## Left out

- The readers: `PyPDFLoader` (with image extraction), `TextLoader`, `DirectoryLoader` and `WebBaseLoader`. They do file, directory and network I/O in foreign libraries. Their result is the `read` parameter.
- The chunking done by `RecursiveCharacterTextSplitter`. It is library code. The splitter is the `split` parameter; the model passes it 150 and 20 and proves nothing about chunk counts.
- Ollama embeddings. They are a foreign model computing floats. `embed` is a parameter, and vectors are stored and returned, never computed with.
- KnowledgeBase.Ingest, KnowledgeBase.Process, KnowledgeBase.KnowledgeBasePipeline.DocumentEmbedder: `embed` never fails. An unreachable Ollama server, which makes `add_documents` raise, is not modelled.
- The refusal of an empty add is the store library's own check on an upsert with no ids. It is modelled from that library's behaviour, whose code is not part of this model.
- Chroma persistence on disk, and ids. Chroma issues random uuids; the model draws ids from a counter and proves only that they are fresh.
- `os.path.isdir` is a filesystem query. The model takes it as the `isDir` input.
- `print` output and the pandas DataFrame. The exporter returns a sequence of rows.
- The `__main__` demo at the end of `pipeline.py`.
- PathText.Lower: only ASCII letters are lowered, not the full Unicode `str.lower`.
- `os.path.basename` is modelled with '/' as the only separator (POSIX).
- The ingestion skip reads the collection's ids once per call. Concurrent writers to the same persist directory are not modelled.
- SQL and the session (`get_db`, `db.refresh`). The table is a sequence of rows, and the lookup takes the first match.
- The `WWW-Authenticate` header on the 401s. The model returns status and detail only.
- Pydantic validation. A row whose `hashed_password` is null would fail to convert; hashes are non-null strings here.
- bcrypt, JWT signing and expiry checking. They are the `verify`, `hash`, `encode` and `decode` parameters. `decode` returning `None` covers a bad signature, a malformed token and an expired token alike.
- `main.py`, the CORS set-up and the database engine. They are not part of this model.
- Vue reactivity. `isAuthenticated` is recomputed from the ref on each read, and the ref is one object shared by every `useAuth()` caller.
- AuthRoutes.ReadOwnItems: the item's owner is the `UserInDB` record as FastAPI would serialise it, including the hash. It has no response model to drop fields.
- Reader failures. A missing file, an unreadable PDF or an unreachable URL raises inside the reader, after the empty collection was created and bound. Here `read` is a total function, so that path is not modelled.
- KnowledgeBase.EmptyIngestionRepeats, KnowledgeBase.ProcessIdempotent, KnowledgeBase.IngestedThenIdempotent: these hold because `read`, `split` and `embed` are functions of their inputs. A file or page that changes between two calls is not modelled.
- AuthRoutes.CreateAccessToken: `expires_delta` is a whole number of seconds. Sub-second parts of a `timedelta` are not modelled.
- Chroma's other name rules: the allowed characters, no `..`, and no IPv4 address. A derived name uses only `[A-Za-z0-9_]` (`CollectionNaming.CollectionName`), so none of them can fail for it. The model checks only the length and the end characters.
- Router: query strings, hashes, percent-encoding and the base URL are not modelled. The table has no catch-all route, so an unknown path resolves to no name.
