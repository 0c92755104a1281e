# A verified model of the distributed storage system

The repository holds two systems that store files as blocks on several machines.

* The Go coordinator, storage node and client (with a TypeScript twin): a file is cut into
  fixed-size blocks, each block is stored under its SHA-256 on the nodes that rendezvous hashing
  ranks first, and two SQLite tables say which blocks have arrived. Handlers run concurrently and
  no transaction surrounds the sequence of statements and requests a handler makes.
* The C++ reactor service and its storage servers: an epoll loop, a growing byte buffer, and
  length-prefixed frames that carry blocks checked by MD5.

The model follows the form of the code. Objects that the code updates in place are classes
(`Metastore.Store`, `NodeStore.StorageNode`, `Client.Coordinator`, `Chunking.Chunker`,
`ByteBuffer.Buffer`, `Connection.Poller`, `Connection.EpollEvent`, `Connection.TcpConnection`,
`UploadIds.FileValue`, `UploadIds.ClientFile`, `Relay.UploadService`, `Relay.BlockServer`,
`EventLoop.LoopThread`); each method is proved against a function of the old state, and what is
promised is proved about those functions. Concurrency is modelled as steps: `NodeStore` cuts a PUT
at its system calls, `Protocol` cuts the coordinator's handlers at every statement and every
request, `EventLoop` cuts the threads at the lock and at the eventfd. SHA-256, MD5 and the scores
of rendezvous hashing are parameters; freedom from collisions is a hypothesis on the byte strings
that occur in a run, stated only where it is needed. What the network or a system call does is a
parameter too, so a theorem holds for every behaviour.

| file | subject |
|---|---|
| Basics.dfy | bytes, options, sequences |
| Metastore.dfy | the files and blocks tables, their statements and invariant |
| NodeStore.dfy | verify-then-rename storage node, with concurrent requests and crashes |
| Placement.dfy, Replication.dfy | rendezvous ranking, stable and unstable, the replicas recorded by it, and what adding or removing a node changes |
| Transfer.dfy | PUT fan-out and the two read paths |
| Chunking.dfy | the plain split, the TypeScript and the Go chunker |
| Protocol.dfy, ProtocolInvariant.dfy, ProtocolSteps.dfy, ProtocolTheorems.dfy | all interleavings of all handlers |
| Staleness.dfy, Diligence.dfy | handlers that outlive the file they looked up, and handlers that do not stop early, over whole runs |
| Client.dfy, Serving.dfy | the resumable upload, download, delete, and the round trip |
| Cluster.dfy | the storage nodes as an upload and a later download meet them |
| Traces.dfy, Downloads.dfy, Witnesses.dfy | the handlers' methods as runs of the protocol, delivery under outages, and runs that exist |
| ByteBuffer.dfy | the reactor's buffer as a byte queue |
| Frames.dfy, Relay.dfy | frame decoding and the C++ upload path end to end |
| UploadIds.dfy | the upload bitmap and the string that carries it |
| Connection.dfy | epoll registration and the output path |
| EventLoop.dfy | the functor queue and its wakeup |

## Properties the code does not have

Each is stated exactly, with the condition under which the code does what one would want.

* `CreateOrResume` compares content and size but not the block size, so a second upload with
  another block size is accepted as a resume of the first. It really is one exactly when both
  sizes are equal or the file fits in one block of either (`Client.ResumableIffSameChunks`).
  `Client.Upload` says what any pass ends in, that one included: 400 at the first missing index whose
  chunk differs, 400 at the commit if blocks are missing that its manifest does not have, and success
  if nothing was missing.
* Go's `sort.Slice` leaves the order of tied nodes open: the ranking is determined by the node
  list if and only if no two nodes tie (`Placement.RankingDetermined`). The TypeScript sort is
  stable and needs no such condition (`Placement.PickNodesStableIsMinimal`).
* The UPDATE of `MarkComplete` is not sound by itself; it is exactly when the count before it
  found nothing pending (`Metastore.CompleteKeepsSchema`). `ProtocolTheorems.CommitSound` shows
  why no interleaving can come between the two.
* DELETE goes by name. A delete handler that has looked a file up removes exactly that file if and
  only if no other DELETE of the name has run in between; otherwise it removes nothing, or a file
  registered later (`Staleness.StaleDelete`). `Witnesses.StaleDeleteRun` is a run of thirteen states
  in which it removes such a file. Uploads have no such defect (`Staleness.StaleUploadMarksNothing`).
* `streamBlock` gives up when a transfer breaks off, where `fetchBlock` goes on to the next node. Of
  a block that some candidate serves, the Go read fails exactly when the first candidate to answer
  200 breaks off (`Transfer.StreamFailsIffBroken`); `Transfer.RetryMatters` has two replicas for
  which one read returns the block and the other does not.
* The C++ storage server opens block files for appending. After an honest upload of a whole file, the
  first on its storage connection, the file stored for a block is that block if and only if it was
  empty or absent before and no other block of the upload with its digest has any bytes
  (`Relay.WholeUploadStored`). `Relay.EqualBlocksDoubled` is the smallest file for which it is not;
  `Relay.UploadedAgain` is any file uploaded again into the directory the first upload left, after a
  restart of both services. For any accepted frames, blocks sent twice included, the condition is that
  of `Relay.StoredIffAcceptedOnce`.
* The reactor service writes "upppload" to the storage connections at every init, and a storage server
  goes back to expecting it on a new connection only. From the second upload or resume on, it reads
  "uppp" as a block size and saves nothing as long as fewer bytes follow than that size announces,
  about 1.97 GB, and exactly that long it decodes nothing (`Relay.SwitchStalls`); the client is told
  "success" all the same (`Relay.SecondUploadLost`).
* A negative frame size is compared as a `size_t`: small ones make the decoder throw, others make
  it wait for ever (`Frames.NegativeSize`).
* A `sendInLoop` still queued when `connectDestroyed` runs registers the descriptor again, exactly
  when it cannot write all of its message at once (`Connection.LateSend`).

## Model

| member | source | states |
|---|---|---|
| Metastore.Find | go/internal/metastore/metastore.go:97-110 | a lookup by name returns a row with that name, and none only if no row has it |
| Metastore.RegisterKeepsSchema | go/internal/metastore/metastore.go:116-179 | registration keeps names and ids unique and rows attached to files; an error or a resume changes nothing, a creation adds one file row with exactly its block rows under a fresh id |
| Metastore.RegisterConflicts | go/internal/metastore/metastore.go:131-137 | a registration conflicts if and only if a row of its name has another hash or another size, and fails on a constraint if and only if the name is free and an index occurs twice; otherwise the name stands for its hash and size |
| Metastore.DeleteUndoesRegister | go/internal/metastore/metastore.go:294-304 | deleting a file just created restores both tables, except that its id is spent for ever |
| Metastore.DeleteUndoesCreated | go/internal/metastore/metastore.go:294-304 | a file just created is the one found by its name, and deleting by that name restores the tables, with the id spent |
| Metastore.DeleteKeepsSchema | go/internal/metastore/metastore.go:294-304 | delete cascades to the blocks of its own file and leaves every other file and its blocks alone |
| Metastore.MarkKeepsSchema | go/internal/metastore/metastore.go:245-257 | marking removes exactly that index from the pending set of that file and touches no other file |
| Metastore.CompleteKeepsSchema | go/internal/metastore/metastore.go:259-273 | setting a file complete keeps "complete means all uploaded" if and only if nothing is pending |
| Metastore.ListsUnique | go/internal/metastore/metastore.go:181-197 | an ORDER BY idx has one answer only: a set has one ascending listing |
| Metastore.InsertLists | go/internal/metastore/metastore.go:181-197 | ordered insertion keeps a listing ascending and complete |
| Metastore.NewBlocksAt | go/internal/metastore/metastore.go:156-174 | with distinct indices the insert loop leaves one not-uploaded row for each block and no other |
| Metastore.NewBlocksSize | go/internal/metastore/metastore.go:156-174 | as many rows as blocks are inserted |
| Metastore.Store.constructor | go/internal/metastore/metastore.go:68-93 | an empty store satisfies the schema |
| Metastore.Store.GetFile | go/internal/metastore/metastore.go:97-110 | the row and id of the name, or NotFound exactly when there is none |
| Metastore.Store.CreateOrResume | go/internal/metastore/metastore.go:116-179 | the whole transaction: Conflict exactly for a row of the name with another hash or size, ConstraintFailed exactly for a free name with a duplicate index, both rolling everything back; otherwise the row of the name, with that hash and size, which is new only under the next id |
| Metastore.Store.Create | go/internal/metastore/metastore.go:147-178 | the inserts of the transaction: one file row, pending, with its block rows, or nothing |
| Metastore.Store.InsertBlocks | go/internal/metastore/metastore.go:166-174 | the loop succeeds exactly when the indices are distinct |
| Metastore.Store.MissingBlocks | go/internal/metastore/metastore.go:181-197 | the strictly ascending list of exactly the indices whose row is not flagged as uploaded |
| Metastore.Store.GetBlock | go/internal/metastore/metastore.go:199-218 | the row of the index, or NotFound exactly when there is none |
| Metastore.Store.ListBlocks | go/internal/metastore/metastore.go:220-243 | all rows of the file in index order |
| Metastore.Store.MarkUploaded | go/internal/metastore/metastore.go:245-257 | sets one flag, or reports NotFound and changes nothing |
| Metastore.Store.MarkComplete | go/internal/metastore/metastore.go:259-273 | completes exactly when nothing is pending, otherwise reports how many blocks are |
| Metastore.Store.Delete | go/internal/metastore/metastore.go:294-304 | removes the file and its blocks, or reports NotFound |
| NodeStore.StepKeepsInv | go/internal/storagesrv/server.go:103-151 | every step of every interleaving keeps: visible blocks hash to their ids, and each accepted block is on disk unless a DELETE of it came after its PUT began |
| NodeStore.RunKeepsInv | go/internal/storagesrv/server.go:103-151 | the same over whole runs, with a crash at any point |
| NodeStore.VisibleChange | go/internal/storagesrv/server.go:146-150 | visible blocks change only by the rename of a verified body answered 201, or by DELETE |
| NodeStore.RejectedPutPublishesNothing | go/internal/storagesrv/server.go:103-151 | a put answered anything but 201 never renamed, however it was interleaved |
| NodeStore.PutTrace | go/internal/storagesrv/server.go:103-151 | the put handler, with any fault, is one of the interleavings, and ends there with the status it returns |
| NodeStore.RunKeepsAccepted | go/internal/storagesrv/server.go:103-151 | what a node has accepted stays on record over any run |
| NodeStore.StorageNode.constructor | go/internal/storagesrv/server.go:25-33 | an empty node satisfies the invariant |
| NodeStore.StorageNode.Put | go/internal/storagesrv/server.go:103-151 | 201 exactly for a new block whose body hashes to the id when nothing fails, 200 exactly for one already there, 400 exactly for a body that breaks off or has another hash; only 201 changes a visible block; no temporary file stays |
| NodeStore.StorageNode.WriteAndRename | go/internal/storagesrv/server.go:119-150 | the part under the deferred clean-up: publishes exactly when nothing failed and the hash fits |
| NodeStore.StorageNode.Get | go/internal/storagesrv/server.go:65-81 | 404 exactly for absent blocks, 500 where opening fails, otherwise the stored bytes, which hash to the id |
| NodeStore.StorageNode.Delete | go/internal/storagesrv/server.go:88-93 | 204 and the block gone, also when it was absent; 500 and nothing changed where removing fails |
| Placement.StableSortIsRank | ts/src/coordinator/server.ts:53-66 | a result is the stable sort of its input if and only if it is Rank |
| Placement.RankFilter | ts/src/coordinator/server.ts:53-66 | ranking commutes with dropping nodes, ties and duplicates included |
| Placement.RankIsRanking | go/internal/coordinator/server.go:61-81 | Rank is sorted by score and a permutation of the nodes |
| Placement.RankIsStable | ts/src/coordinator/server.ts:53-66 | Rank keeps nodes of equal score in configured order |
| Placement.RankingDetermined | go/internal/coordinator/server.go:75-75 | what sort.Slice promises determines the ranking if and only if no two different nodes tie |
| Placement.MinimalDisruption | ts/src/coordinator/server.ts:53-66 | removing a node gives the old ranking without it; a replica set changes only if it held the node, and then by one replacement, the next in line |
| Placement.MinimalDisruptionGo | go/internal/coordinator/server.go:61-81 | the same for any result of Go's sort, given pairwise distinct scores |
| Placement.PickNodesStableIsMinimal | ts/src/coordinator/server.ts:53-66 | the TypeScript pickNodes is the stable sort by score, hence minimally disruptive without any condition |
| Replication.AdmittedManifest | go/internal/coordinator/server.go:212-221 | what the protocol lets be registered is exactly what initUpload makes of the manifests it does not answer with 400 |
| Replication.RecordedReplicas | go/internal/coordinator/server.go:222-228 | each registered block is recorded on the first `replicas` nodes of the ranking, exactly so many, and no configured node left out scores lower than one of them |
| Replication.RowReplicas | go/internal/coordinator/server.go:222-228 | the same for every row of every reachable state |
| Replication.ReplicasChangeLittle | go/internal/coordinator/server.go:61-81 | one node less: a block it was not recorded for keeps its replicas; any other loses it and gains, at the end, the best of the nodes left out, if no two nodes tie |
| Replication.StableReplicasChangeLittle | ts/src/coordinator/server.ts:53-66 | the same for the TypeScript ranking, ties included |
| Placement.SortSlice | go/internal/coordinator/server.go:75-75 | the in-place sort leaves a sorted permutation |
| Placement.PickNodes | go/internal/coordinator/server.go:61-81 | scoring, sorting in place and copying out give a ranking of exactly the configured nodes |
| Transfer.FanoutPut | go/internal/coordinator/server.go:299-322 | counts exactly the positions answered with a status of 200 to 299 and reports the last one that was not |
| Transfer.AcceptingIsComplete | go/internal/coordinator/server.go:299-322 | every position answered 2xx is counted |
| Transfer.CandidatesCover | go/internal/coordinator/server.go:341-350 | recorded replicas come first, every recorded or configured node is a candidate and nothing else, no duplicate is added |
| Transfer.CandidatesInRankOrder | ts/src/coordinator/server.ts:343-346 | the candidates are the recorded replicas as they are, then the other configured nodes in rank order, each once |
| Transfer.ReadsInOrder | go/internal/coordinator/server.go:341-356 | a read decides as if it asked the recorded replicas and then the whole ranking in order |
| Transfer.BuildCandidates | ts/src/coordinator/server.ts:343-346 | the loop appends the ranked nodes not yet in the list, in rank order |
| Transfer.Once | go/internal/coordinator/server.go:352-356 | skipping the nodes already tried asks each candidate once, in order of first occurrence |
| Transfer.OnceKeepsOrder | go/internal/coordinator/server.go:352-356 | the order in which nodes are asked is that of their first occurrence |
| Transfer.ServedIfAnyServes | ts/src/coordinator/server.ts:341-359 | a read that retries succeeds if and only if some candidate serves the block, with bytes of such a candidate |
| Transfer.FirstAnswerAt | go/internal/coordinator/server.go:352-380 | the deciding reply is that of the first candidate, by position, to answer 200 |
| Transfer.FirstServedAt | ts/src/coordinator/server.ts:347-358 | what a retrying read returns is the body of the first candidate, by position, that serves |
| Transfer.StreamFailsIffBroken | go/internal/coordinator/server.go:377-379 | of a block some candidate serves, the Go read fails exactly when the first to answer breaks off |
| Transfer.RetryMatters | ts/src/coordinator/server.ts:353-357 | two replicas for which the TypeScript read returns the block and the Go read does not |
| Transfer.FetchBlock | ts/src/coordinator/server.ts:341-359 | returns the block if and only if some recorded or configured node serves it, with the body of the first recorded replica that serves or, if none does, of the first such node of the ranking; asks the candidates in order, each once, up to that one |
| Transfer.StreamBlock | go/internal/coordinator/server.go:341-386 | succeeds if and only if the first candidate to answer 200 sends its whole body, which is the first recorded replica to answer or, if none does, the first node of the ranking to answer; puts out what it sends; asks the candidates in order, each once, up to that one |
| Chunking.SplitFlattens | go/internal/chunk/chunk.go:38-61 | the blocks concatenate to the file |
| Chunking.SplitAt | go/cmd/dssctl/main.go:166-169 | block i is the window of the file at i times the block size, and only the last may be short |
| Chunking.ChunksNonEmpty | ts/src/chunk.ts:46-52 | no block is empty or longer than the block size |
| Chunking.SplitCount | go/internal/chunk/chunk.go:38-61 | the number of blocks is the length divided by the block size, rounded up |
| Chunking.SplitFullPrefix | ts/src/chunk.ts:43-50 | full blocks in front split off unchanged, which is why carrying bytes over is sound |
| Chunking.SplitDeterminesSize | go/internal/metastore/metastore.go:134-137 | two block sizes chunk a file alike if and only if they are equal or the file fits in one block |
| Chunking.ManifestCovers | go/internal/chunk/chunk.go:26-70 | a manifest has the hash of the whole file, and for each window of the block size its index, length and hash |
| Chunking.BuildManifest | ts/src/chunk.ts:16-65 | for any cutting of the file into read events the carry loop gives the manifest of the plain split: the hash of every byte of the file, and of each window of the block size |
| Chunking.Reader.ReadFull | go/internal/chunk/chunk.go:41-45 | io.ReadFull fills the buffer unless the file ends first, whatever single reads return |
| Chunking.Chunker.constructor | go/internal/chunk/chunk.go:17-24 | a block size of zero or less means the default |
| Chunking.Chunker.Manifest | go/internal/chunk/chunk.go:26-70 | the read-full loop over a reused buffer gives that same manifest, with the same hashes |
| ProtocolSteps.StepKeepsInv | go/internal/coordinator/server.go:206-473 | every step of every handler and node keeps the invariant, and history only grows |
| ProtocolSteps.RunInv | go/internal/coordinator/server.go:206-473 | hence every reachable state has it |
| ProtocolInvariant.HandlerStable | go/internal/coordinator/server.go:249-297 | what a handler has read and concluded still holds after any step of any other handler or node |
| ProtocolInvariant.CreateTables | go/internal/metastore/metastore.go:145-174 | a creating transaction keeps every file's rows equal to its registration |
| ProtocolInvariant.MarkLedger | go/internal/coordinator/server.go:283-296 | a flag set by a handler is backed by the bytes and acknowledgements that handler holds |
| ProtocolInvariant.DeleteCase | go/internal/coordinator/server.go:449-473 | deleting by name, whoever does it, keeps the invariant |
| ProtocolSteps.InitAdvance | go/internal/coordinator/server.go:206-247 | the registering step keeps the invariant |
| ProtocolSteps.AdmitInv | go/internal/coordinator/server.go:256-281 | bytes pass the checks of uploadBlock only with the hash and size of the registered row |
| ProtocolSteps.SendPut | go/internal/coordinator/server.go:299-311 | sending a PUT to the next replica keeps the invariant |
| ProtocolSteps.FanStep | go/internal/coordinator/server.go:307-320 | counting an answer or an error keeps the acknowledgements honest and on distinct nodes |
| ProtocolSteps.SpecsListed | go/internal/metastore/metastore.go:220-243 | a block list read at any time is the registered blocks in index order |
| ProtocolSteps.OpenStep | go/internal/coordinator/server.go:355-380 | the bytes a download starts to copy are stored bytes with the hash of its block |
| ProtocolTheorems.RunGrows | go/internal/metastore/metastore.go:14-34 | between any two states of a run ids are not reused, rows keep their columns, flags stay set, acknowledgements stay |
| ProtocolTheorems.TablesSafe | go/internal/metastore/metastore.go:14-34 | in every reachable state names and ids are unique, every block row belongs to a live file, and a file has exactly its registered blocks |
| ProtocolTheorems.CommitSound | go/internal/metastore/metastore.go:259-273 | in every reachable state a complete file has all its registered blocks uploaded, without a transaction |
| ProtocolTheorems.NoStaleMarking | go/internal/coordinator/server.go:249-297 | in every reachable state an uploaded flag means that bytes with that row's hash and size were accepted by one of that row's nodes |
| ProtocolTheorems.FlagSetByMark | go/internal/coordinator/server.go:287-292 | no statement but MarkUploaded of that very id and index sets a flag |
| ProtocolTheorems.MissingShrinks | go/internal/metastore/metastore.go:181-197 | between deletes, later missing lists are contained in earlier ones, both strictly ascending |
| ProtocolTheorems.Durability | go/internal/coordinator/server.go:299-322 | over whole runs an accepted block stays on its node unless a DELETE of it reached that node after the PUT began |
| ProtocolTheorems.BlockSurvives | go/internal/coordinator/server.go:341-386 | a block stays readable while fewer nodes are down than replicas accepted it |
| ProtocolTheorems.HonestOrder | go/internal/metastore/metastore.go:220-243 | a non-empty block list of an honest file is the registered list itself |
| ProtocolTheorems.StreamedIsPrefix | go/internal/coordinator/server.go:437-446 | blocks streamed under the invariant are a prefix of the data |
| ProtocolTheorems.DownloadIntegrity | go/internal/coordinator/server.go:423-447 | over every interleaving and failure a download emits a prefix of the data, and the data itself once it reaches the announced length |
| Staleness.NameOwner | go/internal/metastore/metastore.go:14-34 | while its file lives a name is found under the same id; any other owner is a file registered later |
| Staleness.LivesUntilDeleted | go/internal/coordinator/server.go:449-473 | a file found under a name is there until some handler's DELETE of that name, and not after |
| Staleness.RunKeepsReadId | go/internal/coordinator/server.go:249-297 | a handler alive from one state to another still has the id it read, or has replied |
| Staleness.UploadLookedUp | go/internal/coordinator/server.go:249-256 | an upload's id is one it found under its name at an earlier state of the run |
| Staleness.FlagSetOnlyByItsUpload | go/internal/coordinator/server.go:249-297 | in every run a flag is set only by a handler that found this very file under the name, holding bytes of this very row that a replica acknowledged |
| Staleness.StaleUploadMarksNothing | go/internal/coordinator/server.go:249-297 | a handler that read a file before it was deleted and the name re-created writes nothing, however late it acts |
| Staleness.StaleDelete | go/internal/coordinator/server.go:449-473 | a delete handler removes the file it looked up if and only if no DELETE of the name ran in between; otherwise nothing, or a later file |
| Diligence.StepGoesOn | go/internal/coordinator/server.go:299-386 | in every step a fan-out, a download or a delete moves on by one position at most, and leaves its loop only at the end |
| Diligence.FanInOrder | go/internal/coordinator/server.go:299-322 | over any run a fan-out keeps its block and body and passes over no replica |
| Diligence.FanAsksAll | go/internal/coordinator/server.go:299-322 | a fan-out that has become a mark or a 502 had asked every recorded replica |
| Diligence.DownloadTriesAll | go/internal/coordinator/server.go:341-386 | a download ends only when all is sent, when every candidate for a block has been tried, or within a transfer |
| Diligence.DeleteSendsAll | go/internal/coordinator/server.go:456-472 | the row goes only after every DELETE has been sent |
| Client.ReadAtIsBlock | go/cmd/dssctl/main.go:166-169 | the client's offset arithmetic reads exactly the bytes of the manifest's block |
| Client.ManifestDescribes | go/cmd/dssctl/main.go:138-169 | what an honest client reads for each block has the size and hash registered for it |
| Client.ResumableIffSameChunks | go/internal/metastore/metastore.go:134-143 | a second upload with another block size is accepted, but is a resume exactly when both sizes chunk the file alike |
| Client.OtherDataRefused | go/internal/metastore/metastore.go:131-134 | once a name holds a file, an upload of other data under it is refused, whatever the block sizes, exactly if length or hash differ |
| Client.InitHasBlocks | go/internal/coordinator/server.go:206-247 | after init the tables hold the blocks of the manifest, and only their indices can be missing |
| Client.UploadStep | go/internal/coordinator/server.go:249-297 | a missing block, however many before it have been marked: 400 if the chunk is not the registered block, 502 if no replica takes it, 200 otherwise |
| Client.UploadAnswers | go/internal/coordinator/server.go:249-297 | 404 for an unknown file or block; 200 for a block already there, or for the registered bytes with one replica that answers 2xx; 400 exactly for other bytes, 502 where no replica takes them |
| Client.MarkedBelowKeeps | go/internal/metastore/metastore.go:245-257 | marking the missing blocks below k takes exactly those out of the pending set, and changes no file row, no other file and no column but the flag |
| Client.Coordinator.InitUpload | go/internal/coordinator/server.go:206-247 | 400 exactly for a bad manifest, negative sizes included, 409 exactly for a name that holds another hash or size, 500 for a duplicate index, otherwise the exact missing list; a new file has one row per block, recorded on the first `replicas` nodes of the ranking of its hash |
| Client.Coordinator.PlaceBlocks | go/internal/coordinator/server.go:216-229 | the loop makes one row of each block, and fails exactly for a bad hash or size |
| Client.Coordinator.UploadBlock | go/internal/coordinator/server.go:249-297 | the status as a function of tables, bytes and answers; marks the block exactly when it answers 200 |
| Client.Coordinator.Commit | go/internal/coordinator/server.go:388-399 | completes exactly when nothing is missing |
| Client.UploadMissing | go/cmd/dssctl/main.go:138-151 | the loop marks exactly the missing blocks before the first that is refused, and reports that one with its status |
| Client.Upload | go/cmd/dssctl/main.go:104-164 | whatever the name holds: 409 and no change exactly if it holds another hash or length than the data; otherwise the exact tables and outcome, namely the first missing block that does not fit its row (400) or that no replica takes (502), or after the last chunk a commit that fails (400) if and only if blocks are missing beyond it |
| Client.UploadedIffTaken | go/cmd/dssctl/main.go:138-164 | the pass completes the file if and only if the manifest covers what is missing and all of it is taken |
| Client.ResumedPassEnds | go/cmd/dssctl/main.go:104-164 | on a free name or a true resume the pass succeeds, with the file complete, if and only if every missing block is accepted by a replica; otherwise it stops at the first that is not, and those before it stay uploaded |
| Client.CommitEnds | go/internal/coordinator/server.go:388-399 | when the loop has passed every block the commit completes the file and loses none of its blocks |
| Serving.StreamRows | go/internal/coordinator/server.go:437-446 | whole blocks in order, then exactly what the first block that cannot be sent whole puts out; succeeds if and only if each block's first answer is whole |
| Serving.Download | go/internal/coordinator/server.go:423-447 | 404, 409 or the blocks of the file in index order, with the same exact condition |
| Serving.TargetsAre | go/internal/coordinator/server.go:456-467 | the DELETEs are, block by block, one for each recorded replica, with the hash of the block |
| Serving.SendDeletes | go/internal/coordinator/server.go:456-467 | one DELETE for each recorded replica of each block, in order, and no other |
| Serving.Delete | go/internal/coordinator/server.go:449-473 | the DELETEs sent, then the row and its blocks removed whatever the nodes answered |
| Cluster.ServedKeeps | go/internal/storagesrv/server.go:103-151 | a PUT served by a node keeps its invariant, and a 2xx answer means the node has accepted those bytes |
| Cluster.ToldIsHolder | go/internal/coordinator/server.go:299-322 | a replica that answers 2xx during an upload has accepted the block, and still has at its end, whatever the nodes do in between |
| Cluster.SurvivorAnswers | go/internal/coordinator/server.go:341-386 | a block with one accepting node up and no DELETE since its PUT is answered with its very bytes |
| Serving.UploadThenDownload | go/cmd/dssctl/main.go:104-164 | the upload succeeds if and only if every missing block is accepted by a replica; the nodes then take any steps of their own, and the file comes back byte for byte if each block still has an accepting node up that has served no DELETE of it since; every block uploaded is held by a node that accepted it |
| Traces.InitTrace | go/internal/coordinator/server.go:206-247 | initUpload is a run of the protocol: the handler replies the status of its method, or the missing list where that is 200 |
| Traces.UploadTrace | go/internal/coordinator/server.go:249-297 | so is uploadBlock, for any PUTs lost or failing, with the status its method returns |
| Traces.AskTrace | go/internal/coordinator/server.go:300-320 | so is one turn of the fan-out, with the node's own steps |
| Traces.CommitTrace | go/internal/coordinator/server.go:388-399 | so is commit, with the status of its method |
| Traces.DeleteTrace | go/internal/coordinator/server.go:449-473 | so is delete, with the status of its method, for any choice of the DELETEs that reach their node, with their effect on the nodes |
| Downloads.BlockTrace | go/internal/coordinator/server.go:341-386 | so is streamBlock: for any replies the nodes can give, the handler goes on to the next block, or ends with what was copied |
| Downloads.DownloadTrace | go/internal/coordinator/server.go:423-447 | so is download: the status of its method, and what its method sends, for any replies the nodes can give, is what the handler has emitted when it replies |
| Downloads.HonestListing | go/internal/metastore/metastore.go:220-243 | the block list of an honest file that is still there is the registered list |
| Downloads.Delivers | go/internal/coordinator/server.go:423-447 | where every block is readable, a GET that arrives now can be served to its end, and has then emitted the file |
| Downloads.FaultTolerance | go/internal/coordinator/server.go:341-386 | in runs without such DELETEs the download handler can deliver a complete file whole under any k-1 outages, k being the least number of accepting replicas |
| Witnesses.HonestFileReachable | go/cmd/dssctl/main.go:104-164 | from any initial state with the nodes up, a run uploads any file in blocks of any size, commits it and downloads it, the download handler having emitted exactly the file |
| Witnesses.StaleDeleteRun | go/internal/coordinator/server.go:449-473 | a run in which a delete handler removes a file it never looked up |
| ByteBuffer.CopyLeft | ReactorService/inc/Buffer.h:92-97 | a copy onto an overlapping range is right because it goes strictly to the left |
| ByteBuffer.Buffer.constructor | ReactorService/inc/Buffer.h:20-25 | an empty queue with eight prependable bytes |
| ByteBuffer.Buffer.Peek | ReactorService/inc/Buffer.h:30-30 | the front of the queue, which stays |
| ByteBuffer.Buffer.Retrieve | ReactorService/inc/Buffer.h:32-35 | drops from the front |
| ByteBuffer.Buffer.RetrieveAll | ReactorService/inc/Buffer.h:37-41 | empties the queue and restores the prependable space |
| ByteBuffer.Buffer.ReadAsString | ReactorService/inc/Buffer.h:43-48 | returns the whole queue and empties it |
| ByteBuffer.Buffer.ReadAsBlock | ReactorService/inc/Buffer.h:50-55 | splits the queue after size bytes |
| ByteBuffer.Buffer.MakeSpace | ReactorService/inc/Buffer.h:84-100 | keeps the queue and leaves at least len writable bytes; compaction only ever moves bytes to the left |
| ByteBuffer.Buffer.EnsureWritableBytes | ReactorService/inc/Buffer.h:64-70 | len writable bytes, same queue, no growth where none is needed |
| ByteBuffer.Buffer.Append | ReactorService/inc/Buffer.h:57-62 | the queue followed by the data |
| ByteBuffer.Buffer.Prepend | ReactorService/inc/Buffer.h:72-77 | the data followed by the queue |
| ByteBuffer.Buffer.ReadFd | ReactorService/src/Buffer.cc:7-26 | the scatter read adds exactly the bytes that arrived, whichever segment they landed in |
| Frames.Be32RoundTrip | ReactorService/src/upLoad.h:125-127 | an int32 survives htonl and ntohl |
| Frames.WireRoundTrip | ReactorService/src/upLoad.h:125-127 | so do any four bytes on the wire |
| Frames.BigEndian | ReactorService/src/upLoad.h:125-127 | the four bytes count by powers of 256, the first one most, as two's complement |
| Frames.ParseLayout | storageServer/saveFile_0/src/upLoad.h:41-50 | four bytes of size, the header, `size` bytes of body: decoded as soon as all are there and not before |
| Frames.NegativeSize | ReactorService/src/upLoad.h:129-129 | exactly which negative sizes fault and which wait |
| Frames.EncodedParses | ReactorService/src/upLoad.h:144-148 | an encoded frame is decoded whatever follows it |
| Frames.ParseIsEncoded | storageServer/saveFile_0/src/upLoad.h:41-50 | only an encoded frame is decoded |
| Frames.ParseIsStable | storageServer/saveFile_0/src/upLoad.h:41-68 | later bytes never change a decision |
| Frames.SegmentationIndependent | storageServer/saveFile_0/src/upLoad.h:38-71 | for any byte stream and any receiver, how it is cut into reads changes neither the final state nor what is left over |
| Frames.Conserved | storageServer/saveFile_0/src/upLoad.h:38-71 | the frames consumed and the bytes left are the stream, and what is left is not a whole frame |
| Frames.DecodeEncoded | storageServer/saveFile_0/src/upLoad.h:38-71 | decoding what an encoder emitted gives back exactly its frames |
| UploadIds.AtoiOfDecimal | ClientSystem/File.h:108-108 | atoi undoes to_string |
| UploadIds.AtoiPlaces | ClientSystem/File.h:108-108 | digits count by powers of ten, a minus sign negates |
| UploadIds.PrintedIs | ReactorService/inc/Fileproxy.h:53-64 | the string is, for each set bit in order, its decimal id and a colon |
| UploadIds.FieldsAre | ClientSystem/File.h:99-112 | the fields of a string are exactly its parts before each colon; what follows the last colon is none |
| UploadIds.MarkFieldsDoes | ClientSystem/File.h:99-112 | every field must name a bit; exactly the named bits are set in addition |
| UploadIds.ParsePrinted | ClientSystem/File.h:99-112 | parsing the printed ids from i on sets exactly those bits |
| UploadIds.IdStringRoundTrip | ReactorService/inc/Fileproxy.h:53-64 | for every bitmap the client sets exactly the bits the server has; out of range exactly when the server has a bit the client lacks |
| UploadIds.Unset | ClientSystem/File.h:88-97 | ascending, and only blocks not uploaded |
| UploadIds.UnsetIsComplete | ClientSystem/File.h:88-97 | and all of them |
| UploadIds.FileValue.constructor | ReactorService/inc/Fileproxy.h:20-28 | nothing is uploaded at first |
| UploadIds.FileValue.SetBlockFileMD5 | ReactorService/inc/Fileproxy.h:35-41 | the digests are the consecutive 32-byte pieces of the message |
| UploadIds.FileValue.SetUploadId | ReactorService/inc/Fileproxy.h:43-46 | sets one bit |
| UploadIds.FileValue.GetUploadId | ReactorService/inc/Fileproxy.h:53-64 | the loop prints for each set id its decimal and a colon, in order |
| UploadIds.FileValue.LsFileFinish | ReactorService/inc/Fileproxy.h:81-91 | true exactly when every bit is set |
| UploadIds.FileValue.GetIdFromMD5 | ReactorService/inc/Fileproxy.h:100-111 | the first block with that MD5, or -1 exactly when there is none |
| UploadIds.ClientFile.UpdateUploadId | ClientSystem/File.h:99-112 | the scan sets exactly the bits named by the fields that end in a colon, and fails exactly if one names no bit |
| UploadIds.ClientFile.SendFileBlock | ClientSystem/File.h:88-97 | sends exactly the blocks not marked, in order |
| UploadIds.Resume | ClientSystem/File.h:88-112 | a client that asks again sends precisely the server's missing blocks |
| Relay.MarkedIffDelivered | ReactorService/src/upLoad.h:120-170 | a block is marked if and only if some frame carried its id with bytes of its registered MD5 |
| Relay.SuccessOnce | ReactorService/src/upLoad.h:162-168 | "success" is sent once, exactly when all blocks are marked |
| Relay.TurnDoes | ReactorService/src/upLoad.h:124-168 | one frame: an id outside the file faults; a body of another MD5 than registered under the id changes no mark and no wire; any other is marked and relayed behind its size and MD5 to the connection its MD5 adds up to; "success" exactly when all is marked then |
| Relay.WireCarriesDue | ReactorService/src/upLoad.h:140-150 | each storage connection carries exactly the accepted blocks routed to it, in order |
| Relay.UploadOutcome | ReactorService/src/upLoad.h:120-170 | all of this for any byte stream under any segmentation, with nothing lost |
| Relay.OnlyRegisteredBytes | ReactorService/src/upLoad.h:120-170 | for any stream under any segmentation: a new mark needs a frame with that id and a body of the MD5 registered for it, and each connection carries, in order, exactly the bodies whose MD5 is the one registered under the id they came with and adds up to it |
| Relay.SaveDoes | storageServer/saveFile_0/src/upLoad.h:51-63 | a frame of another MD5 than its body's changes nothing; any other adds its body to the file of its MD5 and to no other |
| Relay.OnlyGenuineBytes | storageServer/saveFile_0/src/upLoad.h:51-63 | for any frames a file gains, in order, exactly the bodies that came under its name and have that MD5 |
| Relay.ServerAppends | storageServer/saveFile_0/src/upLoad.h:51-63 | for any frames a file grows by exactly the blocks of its own MD5, in order |
| Relay.EndToEnd | storageServer/saveFile_0/src/upLoad.h:38-71 | however both streams are cut, and whatever the server held before, the file of a digest grows by exactly the accepted blocks with it on the server it is routed to, and not at all on the others, and no byte is left over |
| Relay.StoredIffAcceptedOnce | storageServer/saveFile_0/src/upLoad.h:59-62 | after a first upload on a storage connection, under any segmentation and into any directory, the stored file of a digest is a given accepted block if and only if the file was empty or absent before and every other accepted block with the digest is empty |
| Relay.ClientBlocks | ClientSystem/File.h:88-97 | what a client's frames deliver under a digest is exactly the blocks of its file with that digest |
| Relay.ClientFramesAre | ClientSystem/File.h:88-97 | the client's frames are the blocks not uploaded, in order, each under its id |
| Relay.WholeUploadStored | storageServer/saveFile_0/src/upLoad.h:38-71 | an honest upload of a whole file, the first on its storage connection, completes, and the server holds a block as it is if and only if it held nothing under its digest before and no other block of the file with the digest has any bytes |
| Relay.EqualBlocksDoubled | storageServer/saveFile_0/src/upLoad.h:59-62 | a file of two equal non-empty blocks is stored as both of them together, after what was there |
| Relay.UploadedAgain | storageServer/saveFile_0/src/upLoad.h:59-62 | the same file uploaded again into the directory of the first upload: every stored file is doubled, and no block with any bytes is stored as it is |
| Relay.SwitchIsASize | storageServer/saveFile_0/src/upLoad.h:41-46 | in the receiving phase "upppload" is the front of a frame of 0x75707070 bytes, waited for exactly until they are there |
| Relay.SwitchStalls | storageServer/saveFile_0/src/main.cc:50-62 | whatever follows the word, however it is cut, and whatever the server held: nothing is decoded or saved if and only if the stream is shorter than that frame |
| Relay.SecondUploadLost | ReactorService/src/upLoad.h:44-46 | an honest upload or resume behind such a word is answered "success", all its blocks are relayed, and the storage server is unchanged |
| Relay.ResumeRuns | ClientSystem/File.h:88-97 | from any state, the missing blocks one after the other complete the upload |
| Relay.ResumeCompletes | ReactorService/src/upLoad.h:120-170 | a client that resends what is missing completes the upload under any segmentation: all marked, one "success", every frame consumed |
| Relay.CharSumAdds | ReactorService/src/upLoad.h:29-37 | the sum of a string's characters: a character counts for itself, and sums add up over parts |
| Relay.ConvertMD5toInt | ReactorService/src/upLoad.h:29-37 | the sum of the 32 characters |
| Relay.Assemble | ReactorService/src/upLoad.h:144-148 | size, digest and block in this order, built by two appends and a prepend |
| Relay.NextFrame | ReactorService/src/upLoad.h:125-138 | takes one frame off the buffer, or leaves the buffer alone |
| Relay.UploadService.HandleBlock | ReactorService/src/upLoad.h:139-168 | one block checked, relayed, marked and the file settled; a block of another MD5 than registered leaves marks and wires alone |
| Relay.UploadService.SendBlock | ReactorService/src/upLoad.h:120-170 | the loop is the decode loop of the specification, and terminates |
| Relay.BlockServer.HandleBlock | storageServer/saveFile_0/src/upLoad.h:51-63 | one block checked, appended to its file and counted; a block of another MD5 changes nothing |
| Relay.BlockServer.SaveBlockFile | storageServer/saveFile_0/src/upLoad.h:38-71 | the loop is the decode loop of the specification, and terminates |
| Relay.Serve | ReactorService/src/TcpConnection.cc:93-101 | over all reads of a connection the result depends on the concatenated bytes only |
| Connection.Poller.constructor | ReactorService/src/EPoller.cc:20-25 | nothing is registered at first |
| Connection.Poller.Ctl | ReactorService/src/EPoller.cc:99-107 | epoll_ctl, refused exactly when it adds what is there or changes what is not |
| Connection.Poller.UpdateEvent | ReactorService/src/EPoller.cc:55-84 | afterwards the kernel watches exactly the added events with their masks, and nothing was refused |
| Connection.Poller.RemoveEvent | ReactorService/src/EPoller.cc:86-97 | afterwards neither table nor kernel knows the descriptor, and nothing was refused |
| Connection.EpollEvent.SetEvents | ReactorService/inc/EpollEvent.h:32-35 | a change of interest reaches the kernel and no other descriptor; a deleted event is added again even with an empty mask |
| Connection.TcpConnection.constructor | ReactorService/src/TcpConnection.cc:12-28 | a new connection waits for nothing and owes nothing |
| Connection.TcpConnection.ConnectEstablished | ReactorService/src/TcpConnection.cc:78-83 | the kernel watches for input |
| Connection.TcpConnection.Send | ReactorService/src/TcpConnection.cc:34-44 | a message is taken only while connected |
| Connection.TcpConnection.SendInLoop | ReactorService/src/TcpConnection.cc:46-63 | the message joins the output in order, written directly only when nothing is pending, and what is left is waited for |
| Connection.TcpConnection.Enqueue | ReactorService/src/TcpConnection.cc:57-62 | the rest is queued and write interest is on |
| Connection.TcpConnection.Flush | ReactorService/src/TcpConnection.cc:106-109 | a partial write moves exactly its bytes from the buffer to the wire |
| Connection.TcpConnection.HandleWrite | ReactorService/src/TcpConnection.cc:103-117 | conserves the output, drops write interest exactly when it is all written, and leaves the rest of the connection alone |
| Connection.TcpConnection.StopWriting | ReactorService/src/TcpConnection.cc:110-115 | drops write interest only, and shuts down exactly if disconnecting |
| Connection.TcpConnection.HandleRead | ReactorService/src/TcpConnection.cc:93-101 | what arrived is added to the input; end of file closes |
| Connection.TcpConnection.HandleClose | ReactorService/src/TcpConnection.cc:119-123 | interest is dropped, pending output is kept |
| Connection.TcpConnection.ConnectDestroyed | ReactorService/src/TcpConnection.cc:85-91 | the descriptor is gone from kernel and table |
| Connection.LateSend | ReactorService/src/TcpConnection.cc:40-41 | exactly when a queued sendInLoop registers a destroyed connection again |
| Connection.Run | ReactorService/src/TcpConnection.cc:46-123 | over any sequence of operations wire and output buffer are together the messages in order, and no epoll_ctl is refused |
| EventLoop.StepKeepsInv | ReactorService/src/Loop.cc:42-132 | every step of every thread keeps: executed, batch and queue are the pushes in lock order, and a queued functor comes with a wakeup, and so does a quit() |
| EventLoop.SleepsOnlyWhenDone | ReactorService/src/Loop.cc:82-93 | in every run the loop can block with no wakeup under way only if every functor pushed has been executed, each once, in order, and no one has called quit() |
| EventLoop.QuitStops | ReactorService/src/Loop.cc:42-68 | after quit() the loop returns from epoll_wait at most once, and only if it was in it, and never enters it again |
| EventLoop.PushedBeforePollRunsInRound | ReactorService/src/Loop.cc:47-57 | whatever was pushed when epoll_wait was entered has run when it is next entered or the loop ends |
| EventLoop.LoopThread.constructor | ReactorService/src/Loop.cc:21-34 | the initial state |
| EventLoop.LoopThread.Wakeup | ReactorService/src/Loop.cc:105-109 | adds one to the eventfd unless it is full |
| EventLoop.LoopThread.QueueInLoop | ReactorService/src/Loop.cc:82-93 | on the loop thread a wakeup is written only while functors run |
| EventLoop.LoopThread.Quit | ReactorService/src/Loop.cc:61-68 | on the loop thread quit() sets the flag and writes no wakeup |
| EventLoop.LoopThread.HandleEvents | ReactorService/src/Loop.cc:51-55 | the handlers, which may queue and quit, with the wakeup event anywhere among them or nowhere, are steps of the machine |
| EventLoop.LoopThread.RunFunctor | ReactorService/src/Loop.cc:127-130 | a functor may queue, each push followed by its wakeup, and quit |
| EventLoop.LoopThread.DoFunctors | ReactorService/src/Loop.cc:117-132 | the batch is exactly what was queued at the swap, and runs to its end also when one quits; what it queues waits for the next round; the code is a run of the machine |
| EventLoop.LoopThread.Iterate | ReactorService/src/Loop.cc:47-57 | one turn of the loop is a run of the machine and executes what was queued before the batch; the loop stops after it if and only if someone has quit |

## Left out

- HTTP routing, JSON, URL escaping, logging, flags, CLI output, signals and Docker.
- SQL text and SQLite itself: a statement is atomic (one pinned connection), a transaction is all or nothing. `created_at` and `updated_at` are not modelled; only init touches an existing row's `updated_at` when it resumes.
- The internals of SHA-256 and MD5. The printed MD5 is 32 ASCII characters.
- The width of lengths and ids: `size_t`, `int` and `int64` counters do not overflow, except in the frame size test, where the wrapped sum is modelled; `(int)blockNum_` is exact.
- ts/src/metastore.ts and ts/src/storage/server.ts, twins of the Go files. The copyFile fall-back of the TypeScript node is not atomic and not modelled.
- Requests with a block id that is not a SHA-256 (answered 400), HEAD requests, and downloads of single blocks.
- Orphan blocks and deletes of blocks shared with another file: the code does not promise anything about them, so durability is stated relative to the DELETEs that reached a node.
- Metastore.Store: an I/O error of the database is not modelled.
- Placement.SortSlice: modelled by what sort.Slice promises, a sorted permutation; its algorithm is not.
- The replies of the nodes are fixed while one block is read, as no node is asked twice in one read; `Protocol` lets them change at every step. `Downloads` fixes them for one download, as it shows that a run exists.
- In `Serving` the upload and the download run one after the other, the nodes taking steps of their own in between; interleaved handlers are the subject of `ProtocolTheorems` and `Staleness`. Transfers that break off occur in `Transfer` and `Serving.Download`, not in `Cluster`.
- Enforcement of Content-Length by the HTTP library.
- Directory fsync and MkdirAll of the storage node; a crash keeps every rename that happened.
- ReactorService initFileNumber and storage server switchOperate and mkfile, which rely on the peer pausing between messages, and the dispatch on the upload phase. Of what they send, the word "upppload" before a second upload is modelled, with any bytes for the length and name behind it. initFileNumber also reopens a finished file (ReactorService/src/upLoad.h:95).
- Relay: the storage server's directory path, to which mkfile adds a part for each new connection; `files` is one directory.
- Relay: the result of ::send to a storage server is ignored by the code; the model lets it take the whole frame.
- Relay: a fault ends the model of the process; what an out-of-range vector access would do is not modelled.
- ClientSystem File::initFile, whose last-block arithmetic gives an empty last block for exact multiples, and the threaded C++ download path.
- UploadIds: the unused download bitmap and block contents of FileValue; std::to_string and atoi are modelled by their definitions for values that fit an int.
- Connection: negative results of write() and readv errors other than "nothing read", and the callbacks' own effects, which are further operations. EpollEvent::handleEvent's dispatch on revents.
- Connection.Poller: a descriptor is not reused while an event on it lives.
- EventLoop: functors queued by the loop thread before loop() is called are not woken for by the code and run after the first poll, and a quit() before loop() is forgotten, since loop() clears the flag; the model starts inside loop(). Other threads' interleavings with `LoopThread` are in `Step`; the class covers the loop thread alone.
- db/, sockets, Acceptor, InetAddress, ThreadPool and the copies of the reactor under storageServer/ and ClientSystem/.
