/** The resumable upload: the coordinator's handlers run one after the other against the
    metastore object, driven by the client's loop. `put` says what the replica at each position
    answers and `net` does so for each block, so every pattern of failures is covered. */
module Client {
  import opened Basics
  import opened Metastore
  import C = Chunking
  import P = Protocol
  import T = Transfer

  class Coordinator {
    const store: Store
    const sha: Bytes -> Hash
    const pick: Hash -> seq<Node>
    const replicas: nat

    ghost predicate Valid()
      reads this, store
    {
      store.Valid() && replicas >= 1 && forall h :: replicas <= |pick(h)|
    }

    constructor (store: Store, sha: Bytes -> Hash, pick: Hash -> seq<Node>, replicas: nat)
      requires store.Valid() && replicas >= 1 && forall h :: replicas <= |pick(h)|
      ensures Valid() && this.store == store && this.sha == sha && this.pick == pick && this.replicas == replicas
    {
      this.store, this.sha, this.pick, this.replicas := store, sha, pick, replicas;
    }

    ghost function Placed(m: C.FileManifest): Registration {
      P.Placed(pick, replicas, m)
    }

    /** Block for block, the manifest's rows under `id`, each recorded on the nodes ranked first. */
    ghost predicate Recorded(t: Tables, id: nat, m: C.FileManifest)
      requires forall h :: replicas <= |pick(h)|
    {
      && id in t.files && t.files[id] == FileRow(m.name, m.size, m.sha, m.blockSize, false)
      && id in t.blocks && |t.blocks[id]| == |m.blocks|
      && forall i | 0 <= i < |m.blocks| ::
           var b := m.blocks[i];
           && b.index in t.blocks[id]
           && t.blocks[id][b.index] == BlockRow(BlockSpec(b.index, b.sha, b.size, pick(b.sha)[..replicas]), false)
    }

    lemma InitAnswers(t: Tables, m: C.FileManifest)
      requires Schema(t) && forall h :: replicas <= |pick(h)|
      ensures Register(t, Placed(m)).1 == Some(Conflict) <==>
              exists id :: id in t.files && t.files[id].name == m.name
                           && (t.files[id].sha != m.sha || t.files[id].size != m.size)
      ensures Register(t, Placed(m)).1.None? && (forall id | id in t.files :: t.files[id].name != m.name) ==>
                Recorded(Register(t, Placed(m)).0, t.nextId, m)
    {
      var reg := Placed(m);
      RegisterConflicts(t, reg);
      RegisterKeepsSchema(t, reg);
      forall i | 0 <= i < |m.blocks|
        ensures var b := m.blocks[i]; reg.specs[i] == BlockSpec(b.index, b.sha, b.size, pick(b.sha)[..replicas])
      {
      }
    }

    /** What initUpload answers to a manifest it has accepted. */
    static ghost function InitStatus(t: Tables, reg: Registration): int {
      match Register(t, reg).1
      case None => 200
      case Some(e) => if e == Conflict then 409 else 500
    }

    static ghost function CommitStatus(t: Tables, name: Name): int {
      match Find(t, name)
      case None => 404
      case Some(id) => if PendingSet(t, id) == {} then 200 else 400
    }

    /** The loop over the manifest's blocks; it stops at the first bad one. */
    method PlaceBlocks(blocks: seq<C.BlockInfo>) returns (rows: seq<BlockSpec>, ok: bool)
      ensures ok <==> forall b | b in blocks :: |b.sha| == 64 && b.size > 0
      ensures ok ==> rows == seq(|blocks|, i requires 0 <= i < |blocks| => P.SpecOf(pick, replicas, blocks[i]))
    {
      rows := [];
      while |rows| < |blocks|
        invariant |rows| <= |blocks|
        invariant forall i | 0 <= i < |rows| ::
                    |blocks[i].sha| == 64 && blocks[i].size > 0 && rows[i] == P.SpecOf(pick, replicas, blocks[i])
      {
        var b := blocks[|rows|];
        if |b.sha| != 64 || b.size <= 0 {
          return rows, false;
        }
        rows := rows + [P.SpecOf(pick, replicas, b)];
      }
      ok := true;
    }

    method InitUpload(m: C.FileManifest) returns (status: int, missing: seq<int>)
      requires Valid()
      modifies store
      ensures Valid()
      ensures status == 400 <==>
              || m.blockSize <= 0 || m.size < 0 || |m.sha| != 64
              || exists b :: b in m.blocks && (|b.sha| != 64 || b.size <= 0)
      ensures status == 400 ==> store.View() == old(store.View())
      ensures status != 400 ==> store.View() == Register(old(store.View()), Placed(m)).0
      ensures status != 400 ==> status == InitStatus(old(store.View()), Placed(m)) && status in {200, 409, 500}
      ensures status != 400 ==>
                (status == 409 <==>
                 exists id :: id in old(store.files) && old(store.files)[id].name == m.name
                              && (old(store.files)[id].sha != m.sha || old(store.files)[id].size != m.size))
      ensures status == 200 && (forall id | id in old(store.files) :: old(store.files)[id].name != m.name) ==>
                Recorded(store.View(), old(store.nextId), m)
      ensures status == 200 ==> Find(store.View(), m.name).Some?
                                && Lists(missing, PendingSet(store.View(), Find(store.View(), m.name).value))
    {
      missing := [];
      if m.blockSize <= 0 || m.size < 0 || |m.sha| != 64 {
        return 400, missing;
      }
      var rows, ok := PlaceBlocks(m.blocks);
      if !ok {
        return 400, missing;
      }
      var reg := Registration(m.name, m.size, m.sha, m.blockSize, rows);
      assert reg == Placed(m);
      InitAnswers(store.View(), m);
      var f := store.CreateOrResume(reg);
      match f
      case Err(e) => status := if e == Conflict then 409 else 500;
      case Ok(found) =>
        missing := store.MissingBlocks(found.0);
        status := 200;
    }

    /** What uploadBlock answers, as a function of the tables and the replicas' answers. */
    static ghost function UploadStatus(
        sha: Bytes -> Hash, t: Tables, name: Name, idx: int, body: Bytes, put: nat -> Option<int>): int {
      match Find(t, name)
      case None => 404
      case Some(id) =>
        if idx !in Rows(t, id) then 404
        else if Rows(t, id)[idx].uploaded then 200
        else if |body| != Rows(t, id)[idx].spec.size || sha(body) != Rows(t, id)[idx].spec.sha then 400
        else if T.Accepting(|Rows(t, id)[idx].spec.nodes|, put) == [] then 502
        else 200
    }

    /** Marks the block exactly when it answers 200, and only for the right bytes on one replica. */
    method UploadBlock(name: Name, idx: int, body: Bytes, put: nat -> Option<int>) returns (status: int)
      requires Valid()
      modifies store
      ensures Valid()
      ensures status == UploadStatus(sha, old(store.View()), name, idx, body, put)
      ensures store.View() == if status != 200 then old(store.View())
                              else MarkRow(old(store.View()), Find(old(store.View()), name).value, idx)
    {
      var f := store.GetFile(name);
      if f.Err? {
        return 404;
      }
      var b := store.GetBlock(f.value.0, idx);
      if b.Err? {
        return 404;
      }
      if b.value.uploaded {
        MarkTwice(store.View(), f.value.0, idx);
        return 200;
      }
      var read := Take(body, b.value.spec.size + 1);
      if |read| != b.value.spec.size {
        return 400;
      }
      assert read == body;
      if sha(read) != b.value.spec.sha {
        return 400;
      }
      var successes, lastErr := T.FanoutPut(b.value.spec.nodes, put);
      if successes == 0 {
        return 502;
      }
      var marked := store.MarkUploaded(f.value.0, idx);
      status := if marked.Ok? then 200 else 500;
    }

    method Commit(name: Name) returns (status: int)
      requires Valid()
      modifies store
      ensures Valid() && status == CommitStatus(old(store.View()), name)
      ensures match Find(old(store.View()), name)
              case None => status == 404 && store.View() == old(store.View())
              case Some(id) =>
                if PendingSet(old(store.View()), id) == {}
                then status == 200 && store.View() == SetComplete(old(store.View()), id)
                else status == 400 && store.View() == old(store.View())
    {
      var f := store.GetFile(name);
      if f.Err? {
        return 404;
      }
      var r := store.MarkComplete(f.value.0);
      status := if r.Ok? then 200 else 400;
    }
  }

  /** What an upload of one block is answered: 404 for an unknown file or block; 200 for a block that
      is there already, or for the registered bytes with one replica that answers 2xx; 400 for other
      bytes, 502 where no replica takes them. */
  lemma UploadAnswers(sha: Bytes -> Hash, t: Tables, name: Name, idx: int, body: Bytes, put: nat -> Option<int>)
    ensures var status := Coordinator.UploadStatus(sha, t, name, idx, body, put);
            && status in {200, 400, 404, 502}
            && (status == 404 <==> Find(t, name).None? || idx !in Rows(t, Find(t, name).value))
            && (status != 404 ==>
                  var row := Rows(t, Find(t, name).value)[idx];
                  var right := |body| == row.spec.size && sha(body) == row.spec.sha;
                  var taken := exists k: nat :: k < |row.spec.nodes| && put(k).Some? && 200 <= put(k).value <= 299;
                  && (status == 400 <==> !row.uploaded && !right)
                  && (status == 200 <==> row.uploaded || (right && taken)))
  {
    if Find(t, name).Some? && idx in Rows(t, Find(t, name).value) {
      var nodes := Rows(t, Find(t, name).value)[idx].spec.nodes;
      var taken := T.Accepting(|nodes|, put);
      if taken != [] {
        assert T.Accepts(put(taken[0])) && put(taken[0]).Some?;
      }
      if k: nat :| k < |nodes| && put(k).Some? && 200 <= put(k).value <= 299 {
        T.AcceptingIsComplete(|nodes|, put, k);
      }
    }
  }

  lemma MarkTwice(t: Tables, id: nat, idx: int)
    requires idx in Rows(t, id) && Rows(t, id)[idx].uploaded
    ensures MarkRow(t, id, idx) == t
  {
    assert Marked(t.blocks[id], idx) == t.blocks[id];
  }

  // ----- the client -----

  datatype Outcome =
    | Uploaded
    | InitFailed(status: int)
    | BlockFailed(index: nat, status: int)
    | CommitFailed(status: int)

  /** io.ReaderAt into a zeroed buffer; a short read is not an error for the client. */
  function ReadAt(data: Bytes, off: nat, n: nat): (buf: Bytes)
    ensures |buf| == n
  {
    seq(n, i requires 0 <= i < n => if off + i < |data| then data[off + i] else 0)
  }

  /** The offset arithmetic of uploadOneBlock reads back exactly the block the manifest lists. */
  lemma ReadAtIsBlock(data: Bytes, size: nat, i: nat)
    requires size > 0 && i < |C.Split(data, size)|
    ensures ReadAt(data, i * size, |C.Split(data, size)[i]|) == C.Split(data, size)[i]
  {
    C.SplitAt(data, size, i);
  }

  /** The tables hold, under the id of `name`, exactly the blocks of `reg`. */
  ghost predicate HasBlocks(t: Tables, id: nat, reg: Registration) {
    && Find(t, reg.name) == Some(id)
    && t.files[id].sha == reg.sha && t.files[id].size == reg.size
    && (forall i :: i in Rows(t, id) <==> 0 <= i < |reg.specs|)
    && forall i | 0 <= i < |reg.specs| :: Rows(t, id)[i].spec == reg.specs[i]
  }

  /** The name is free, or holds this very registration: same content, same block size. */
  ghost predicate Resumable(t: Tables, reg: Registration) {
    Find(t, reg.name).Some? ==> HasBlocks(t, Find(t, reg.name).value, reg)
  }

  ghost predicate Indexed(reg: Registration) {
    forall i | 0 <= i < |reg.specs| :: reg.specs[i].idx == i
  }

  lemma InitHasBlocks(t: Tables, reg: Registration)
    requires Schema(t) && Resumable(t, reg) && Indexed(reg)
    ensures Register(t, reg).1.None?
    ensures var u := Register(t, reg).0;
            Find(u, reg.name).Some? && HasBlocks(u, Find(u, reg.name).value, reg)
    ensures forall x | x in PendingSet(Register(t, reg).0, Find(Register(t, reg).0, reg.name).value) ::
            0 <= x < |reg.specs|
  {
    RegisterKeepsSchema(t, reg);
    if Find(t, reg.name).None? {
      assert DistinctIdx(reg.specs);
      var u := Register(t, reg).0;
      DeleteUndoesCreated(t, reg, u);
      var rows := u.blocks[t.nextId];
      forall k ensures k in rows <==> 0 <= k < |reg.specs| {
        if 0 <= k < |reg.specs| { assert reg.specs[k].idx == k; }
      }
    }
  }

  lemma MarkHasBlocks(t: Tables, id: nat, reg: Registration, idx: nat)
    requires Schema(t) && HasBlocks(t, id, reg) && idx < |reg.specs|
    ensures HasBlocks(MarkRow(t, id, idx), id, reg)
  {
    MarkKeepsSchema(t, id, idx);
    assert MarkRow(t, id, idx).files == t.files;
  }

  lemma FirstChunk(data: Bytes, size: nat)
    requires size > 0 && data != []
    ensures C.Split(data, size) != [] && |C.Split(data, size)[0]| == C.Min(size, |data|)
  {
    C.SplitAt(data, size, 0);
  }

  /** CreateOrResume compares neither block sizes nor block lists. A second upload of the same
      file is a resume of the first exactly when both chunk the file alike. */
  lemma ResumableIffSameChunks(c: Coordinator, t: Tables, data: Bytes, name: Name, a: nat, b: nat)
    requires Schema(t) && Find(t, name).None? && a > 0 && b > 0
    ensures var first := c.Placed(C.ManifestOf(c.sha, name, data, a));
            var second := c.Placed(C.ManifestOf(c.sha, name, data, b));
            && Register(Register(t, first).0, second).1.None?
            && (Resumable(Register(t, first).0, second) <==> a == b || |data| <= C.Min(a, b))
  {
    var first, second := c.Placed(C.ManifestOf(c.sha, name, data, a)), c.Placed(C.ManifestOf(c.sha, name, data, b));
    InitHasBlocks(t, first);
    var u := Register(t, first).0;
    C.SplitDeterminesSize(data, a, b);
    if a == b || |data| <= C.Min(a, b) {
      assert first.specs == second.specs;
    } else {
      FirstChunk(data, a);
      FirstChunk(data, b);
      assert first.specs[0].size != second.specs[0].size;
    }
  }

  /** Once a name holds `data`, an upload of `other` under it is refused, whatever the block sizes,
      exactly if the lengths or the hashes differ. */
  lemma OtherDataRefused(c: Coordinator, t: Tables, name: Name, data: Bytes, a: int, other: Bytes, b: int)
    requires Schema(t) && forall id | id in t.files :: t.files[id].name != name
    ensures var u := Register(t, c.Placed(C.ManifestOf(c.sha, name, data, a))).0;
            Register(u, c.Placed(C.ManifestOf(c.sha, name, other, b))).1 == Some(Conflict) <==>
            |other| != |data| || c.sha(other) != c.sha(data)
  {
    var first, second := c.Placed(C.ManifestOf(c.sha, name, data, a)), c.Placed(C.ManifestOf(c.sha, name, other, b));
    C.ManifestCovers(c.sha, name, data, a);
    C.ManifestCovers(c.sha, name, other, b);
    InitHasBlocks(t, first);
    RegisterKeepsSchema(t, first);
    RegisterConflicts(Register(t, first).0, second);
  }

  /** `m` lists exactly `chunks`, in order, and the client reads them back by index * blockSize. */
  ghost predicate Describes(sha: Bytes -> Hash, m: C.FileManifest, chunks: seq<Bytes>, data: Bytes) {
    && m.blocks == C.Infos(sha, chunks) && m.blockSize >= 0
    && forall i | 0 <= i < |chunks| :: ReadAt(data, i * m.blockSize, |chunks[i]|) == chunks[i]
  }

  lemma ManifestDescribes(sha: Bytes -> Hash, data: Bytes, name: Name, requested: int)
    ensures Describes(sha, C.ManifestOf(sha, name, data, requested), C.Split(data, C.EffectiveSize(requested)), data)
  {
    var size := C.EffectiveSize(requested);
    forall i | 0 <= i < |C.Split(data, size)|
      ensures ReadAt(data, i * size, |C.Split(data, size)[i]|) == C.Split(data, size)[i]
    {
      ReadAtIsBlock(data, size, i);
    }
  }

  // ----- one pass of an upload -----

  /** The tables after the pending blocks below k have been marked. */
  function MarkedBelow(t: Tables, id: nat, pending: set<int>, k: nat): Tables {
    if k == 0 then t
    else
      var u := MarkedBelow(t, id, pending, k - 1);
      if k - 1 in pending then MarkRow(u, id, k - 1) else u
  }

  /** The rows have kept every column that is never updated. */
  ghost predicate SameSpecs(t: Tables, u: Tables, id: nat) {
    Rows(u, id).Keys == Rows(t, id).Keys && forall i | i in Rows(t, id) :: Rows(u, id)[i].spec == Rows(t, id)[i].spec
  }

  /** `u` is `t` after rows of this file have been marked, and the indices in `done` with them. */
  ghost predicate OnlyMarked(t: Tables, u: Tables, id: nat, done: set<int>) {
    && Schema(u) && u.files == t.files && u.nextId == t.nextId && SameSpecs(t, u, id)
    && PendingSet(u, id) == PendingSet(t, id) - done
    && forall other | other != id :: Rows(u, other) == Rows(t, other)
  }

  lemma MarkOne(t: Tables, u: Tables, id: nat, done: set<int>, idx: int)
    requires OnlyMarked(t, u, id, done)
    ensures OnlyMarked(t, if idx in PendingSet(t, id) then MarkRow(u, id, idx) else u, id, done + {idx})
  {
    assert PendingSet(t, id) - done - {idx} == PendingSet(t, id) - (done + {idx});
    if idx in PendingSet(t, id) {
      MarkKeepsSchema(u, id, idx);
    } else {
      assert PendingSet(t, id) - done - {idx} == PendingSet(t, id) - done;
    }
  }

  lemma NoneMarked(t: Tables, id: nat)
    requires Schema(t)
    ensures OnlyMarked(t, t, id, {})
  {
  }

  lemma {:induction false} MarkedBelowKeeps(t: Tables, id: nat, k: nat)
    requires Schema(t)
    ensures OnlyMarked(t, MarkedBelow(t, id, PendingSet(t, id), k), id, Below(k))
  {
    if k == 0 {
      NoneMarked(t, id);
    } else {
      MarkedBelowKeeps(t, id, k - 1);
      MarkOne(t, MarkedBelow(t, id, PendingSet(t, id), k - 1), id, Below(k - 1), k - 1);
    }
  }

  ghost predicate Fits(sha: Bytes -> Hash, b: BlockSpec, chunk: Bytes) {
    |chunk| == b.size && sha(chunk) == b.sha
  }

  /** The chunk is the registered block, and one of the replicas recorded for it accepts it. */
  ghost predicate Takes(sha: Bytes -> Hash, b: BlockSpec, chunk: Bytes, put: nat -> Option<int>) {
    Fits(sha, b, chunk) && T.Accepting(|b.nodes|, put) != []
  }

  /** The pending blocks below k are all taken, as far as there are chunks. */
  ghost predicate TakenBelow(
      sha: Bytes -> Hash, u: Tables, id: nat, chunks: seq<Bytes>, net: nat -> nat -> Option<int>, k: nat)
  {
    forall i: nat | i < k && i < |chunks| && i in PendingSet(u, id) ::
      Takes(sha, Rows(u, id)[i].spec, chunks[i], net(i))
  }

  /** What the coordinator answers for block k: 400 where the chunk is not the registered block,
      502 where no replica takes it. */
  lemma UploadStep(sha: Bytes -> Hash, u: Tables, id: nat, name: Name, chunk: Bytes, put: nat -> Option<int>, k: nat)
    requires Schema(u) && Find(u, name) == Some(id) && k in PendingSet(u, id)
    ensures var t, b := MarkedBelow(u, id, PendingSet(u, id), k), Rows(u, id)[k].spec;
            && Find(t, name) == Some(id)
            && Coordinator.UploadStatus(sha, t, name, k, chunk, put) ==
               (if !Fits(sha, b, chunk) then 400 else if Takes(sha, b, chunk, put) then 200 else 502)
  {
    MarkedBelowKeeps(u, id, k);
    var t := MarkedBelow(u, id, PendingSet(u, id), k);
    assert t.files[id].name == name;
    assert k in PendingSet(t, id);
  }

  /** The upload loop stops at block `stop`, refused with `failed`, or has passed every chunk. */
  ghost predicate LoopEnds(
      sha: Bytes -> Hash, u: Tables, id: nat, chunks: seq<Bytes>, net: nat -> nat -> Option<int>,
      stop: nat, failed: Option<(nat, int)>, t: Tables)
  {
    && stop <= |chunks| && t == MarkedBelow(u, id, PendingSet(u, id), stop) && TakenBelow(sha, u, id, chunks, net, stop)
    && (failed.None? <==> stop == |chunks|)
    && (stop < |chunks| ==>
          && stop in PendingSet(u, id) && !Takes(sha, Rows(u, id)[stop].spec, chunks[stop], net(stop))
          && failed == Some((stop, if Fits(sha, Rows(u, id)[stop].spec, chunks[stop]) then 502 else 400)))
  }

  /** The loop of Upload over the manifest; returns the block that failed, if one did. */
  method UploadMissing(
      c: Coordinator, data: Bytes, m: C.FileManifest, missing: seq<int>, net: nat -> nat -> Option<int>,
      ghost id: nat, ghost chunks: seq<Bytes>)
    returns (failed: Option<(nat, int)>, ghost stop: nat)
    requires c.Valid() && Describes(c.sha, m, chunks, data)
    requires Find(c.store.View(), m.name) == Some(id) && Lists(missing, PendingSet(c.store.View(), id))
    modifies c.store
    ensures c.Valid()
    ensures LoopEnds(c.sha, old(c.store.View()), id, chunks, net, stop, failed, c.store.View())
  {
    var need := set i | i in missing;
    ghost var u := c.store.View();
    var k := 0;
    while k < |m.blocks|
      invariant k <= |m.blocks| && c.Valid()
      invariant c.store.View() == MarkedBelow(u, id, PendingSet(u, id), k) && TakenBelow(c.sha, u, id, chunks, net, k)
    {
      var b := m.blocks[k];
      if b.index in need {
        var buf := ReadAt(data, b.index * m.blockSize, b.size);
        UploadStep(c.sha, u, id, m.name, buf, net(k), k);
        var status := c.UploadBlock(m.name, b.index, buf, net(b.index));
        if status / 100 != 2 {
          return Some((b.index, status)), k;
        }
      }
      k := k + 1;
    }
    failed, stop := None, k;
  }

  /** How one pass can end, from the tables `u` that init has left. */
  ghost predicate PassEnds(
      sha: Bytes -> Hash, u: Tables, id: nat, chunks: seq<Bytes>, net: nat -> nat -> Option<int>,
      stop: nat, r: Outcome, t: Tables)
  {
    match r
    case BlockFailed(index, status) => LoopEnds(sha, u, id, chunks, net, stop, Some((index, status)), t)
    case Uploaded =>
      var v := MarkedBelow(u, id, PendingSet(u, id), stop);
      && PendingSet(u, id) <= Below(|chunks|)
      && LoopEnds(sha, u, id, chunks, net, stop, None, v) && t == SetComplete(v, id)
    case CommitFailed(status) =>
      && status == 400 && !(PendingSet(u, id) <= Below(|chunks|))
      && LoopEnds(sha, u, id, chunks, net, stop, None, t)
    case InitFailed(_) => false
  }

  lemma BeforeCommit(u: Tables, id: nat, name: Name, k: nat)
    requires Schema(u) && Find(u, name) == Some(id)
    ensures var v := MarkedBelow(u, id, PendingSet(u, id), k);
            Find(v, name) == Some(id) && (PendingSet(v, id) == {} <==> PendingSet(u, id) <= Below(k))
  {
    MarkedBelowKeeps(u, id, k);
    assert MarkedBelow(u, id, PendingSet(u, id), k).files[id].name == name;
    assert PendingSet(u, id) - Below(k) == {} <==> PendingSet(u, id) <= Below(k);
  }

  /** One pass of Client.Upload, whatever the name holds. Other content is refused with 409.
      Otherwise the pass marks the missing blocks in order, up to the first whose chunk is not the
      registered block (400) or is taken by no replica (502); past all chunks it completes the
      file, unless blocks are missing that this manifest does not have (400). */
  method Upload(c: Coordinator, data: Bytes, name: Name, requested: int, net: nat -> nat -> Option<int>)
    returns (r: Outcome, ghost id: nat, ghost stop: nat)
    requires c.Valid() && forall b :: |c.sha(b)| == 64
    modifies c.store
    ensures c.Valid()
    ensures var chunks := C.Split(data, C.EffectiveSize(requested));
            var (u, e) := Register(old(c.store.View()), c.Placed(C.ManifestOf(c.sha, name, data, requested)));
            if e.Some? then e == Some(Conflict) && r == InitFailed(409) && c.store.View() == old(c.store.View())
            else Find(u, name) == Some(id) && PassEnds(c.sha, u, id, chunks, net, stop, r, c.store.View())
    ensures r.InitFailed? ==> r.status == 409
    ensures r.InitFailed? <==>
            exists id :: id in old(c.store.files) && old(c.store.files)[id].name == name
                         && (old(c.store.files)[id].sha != c.sha(data) || old(c.store.files)[id].size != |data|)
  {
    var m := C.ManifestOf(c.sha, name, data, requested);
    ghost var chunks := C.Split(data, C.EffectiveSize(requested));
    id, stop := 0, 0;
    ManifestDescribes(c.sha, data, name, requested);
    ManifestWellFormed(c.sha, name, data, requested);
    assert Indexed(c.Placed(m));
    C.ManifestCovers(c.sha, name, data, requested);
    RegisterConflicts(c.store.View(), c.Placed(m));
    var status, missing := c.InitUpload(m);
    if status / 100 != 2 {
      return InitFailed(status), id, stop;
    }
    ghost var u := c.store.View();
    id := Find(u, name).value;
    var failed;
    failed, stop := UploadMissing(c, data, m, missing, net, id, chunks);
    if failed.Some? {
      return BlockFailed(failed.value.0, failed.value.1), id, stop;
    }
    BeforeCommit(u, id, name, stop);
    status := c.Commit(name);
    r := if status / 100 != 2 then CommitFailed(status) else Uploaded;
  }

  /** The file is completed exactly when the manifest covers what is missing and all of it is taken. */
  lemma UploadedIffTaken(
      sha: Bytes -> Hash, u: Tables, id: nat, chunks: seq<Bytes>, net: nat -> nat -> Option<int>,
      stop: nat, r: Outcome, t: Tables)
    requires PassEnds(sha, u, id, chunks, net, stop, r, t)
    ensures r.Uploaded? <==> PendingSet(u, id) <= Below(|chunks|) && TakenBelow(sha, u, id, chunks, net, |chunks|)
  {
  }

  // ----- a fresh upload or a true resume -----

  ghost predicate Accepted(reg: Registration, net: nat -> nat -> Option<int>, i: nat)
    requires i < |reg.specs|
  {
    T.Accepting(|reg.specs[i].nodes|, net(i)) != []
  }

  ghost predicate AcceptedUpTo(pending: set<int>, reg: Registration, net: nat -> nat -> Option<int>, k: nat)
    requires k <= |reg.specs|
  {
    forall i: nat | i < k && i in pending :: Accepted(reg, net, i)
  }

  /** How a pass ends whose chunks are those registered. */
  ghost predicate Ended(
      t: Tables, id: nat, reg: Registration, pending: set<int>, net: nat -> nat -> Option<int>, r: Outcome)
  {
    && HasBlocks(t, id, reg)
    && (r.Uploaded? <==> AcceptedUpTo(pending, reg, net, |reg.specs|))
    && (r.Uploaded? ==> t.files[id].complete && PendingSet(t, id) == {})
    && (!r.Uploaded? ==>
          && r.BlockFailed? && r.status == 502 && r.index in pending
          && r.index < |reg.specs| && !Accepted(reg, net, r.index)
          && AcceptedUpTo(pending, reg, net, r.index)
          && PendingSet(t, id) == pending - Below(r.index))
  }

  /** When the loop has passed every block, the commit completes the file. */
  lemma CommitEnds(t: Tables, id: nat, reg: Registration)
    requires Schema(t) && HasBlocks(t, id, reg) && PendingSet(t, id) == {}
    ensures var u := SetComplete(t, id);
            Schema(u) && HasBlocks(u, id, reg) && u.files[id].complete && PendingSet(u, id) == {}
  {
    CompleteKeepsSchema(t, id);
    assert SetComplete(t, id).files[id].name == reg.name;
  }

  lemma MarkedHasBlocks(u: Tables, id: nat, reg: Registration, k: nat)
    requires Schema(u) && HasBlocks(u, id, reg)
    ensures var t := MarkedBelow(u, id, PendingSet(u, id), k);
            Schema(t) && HasBlocks(t, id, reg) && PendingSet(t, id) == PendingSet(u, id) - Below(k)
  {
    MarkedBelowKeeps(u, id, k);
    assert MarkedBelow(u, id, PendingSet(u, id), k).files[id].name == reg.name;
  }

  /** Every chunk is the block registered at its index. */
  ghost predicate AllFit(
      sha: Bytes -> Hash, u: Tables, id: nat, reg: Registration, chunks: seq<Bytes>, net: nat -> nat -> Option<int>)
    requires HasBlocks(u, id, reg)
  {
    && |reg.specs| == |chunks|
    && forall i | 0 <= i < |chunks| ::
         && Fits(sha, Rows(u, id)[i].spec, chunks[i])
         && (Takes(sha, Rows(u, id)[i].spec, chunks[i], net(i)) <==> Accepted(reg, net, i))
  }

  lemma SameTaken(c: Coordinator, data: Bytes, name: Name, requested: int, net: nat -> nat -> Option<int>,
                  u: Tables, id: nat)
    requires HasBlocks(u, id, c.Placed(C.ManifestOf(c.sha, name, data, requested)))
    ensures var reg := c.Placed(C.ManifestOf(c.sha, name, data, requested));
            AllFit(c.sha, u, id, reg, C.Split(data, C.EffectiveSize(requested)), net)
  {
    var reg := c.Placed(C.ManifestOf(c.sha, name, data, requested));
    assert forall i | 0 <= i < |reg.specs| :: Rows(u, id)[i].spec == reg.specs[i];
  }

  lemma FittingPassEnds(
      sha: Bytes -> Hash, u: Tables, id: nat, reg: Registration, chunks: seq<Bytes>, net: nat -> nat -> Option<int>,
      stop: nat, r: Outcome, after: Tables)
    requires Schema(u) && HasBlocks(u, id, reg) && AllFit(sha, u, id, reg, chunks, net)
    requires PassEnds(sha, u, id, chunks, net, stop, r, after)
    ensures Ended(after, id, reg, PendingSet(u, id), net, r)
  {
    MarkedHasBlocks(u, id, reg, stop);
    var v := MarkedBelow(u, id, PendingSet(u, id), stop);
    if r.Uploaded? {
      assert PendingSet(v, id) == {};
      CommitEnds(v, id, reg);
    }
  }

  /** Where the name was free or held this very registration, the pass succeeds exactly when every
      missing block is accepted by a replica; if not, it stops at the first that no replica takes,
      and those before it stay uploaded. */
  lemma ResumedPassEnds(
      c: Coordinator, data: Bytes, name: Name, requested: int, net: nat -> nat -> Option<int>,
      t: Tables, id: nat, stop: nat, r: Outcome, after: Tables)
    requires var reg := c.Placed(C.ManifestOf(c.sha, name, data, requested));
             && Schema(t) && Resumable(t, reg) && Find(Register(t, reg).0, name) == Some(id)
             && PassEnds(c.sha, Register(t, reg).0, id, C.Split(data, C.EffectiveSize(requested)), net, stop, r, after)
    ensures var reg := c.Placed(C.ManifestOf(c.sha, name, data, requested));
            Ended(after, id, reg, PendingSet(Register(t, reg).0, id), net, r)
  {
    var reg := c.Placed(C.ManifestOf(c.sha, name, data, requested));
    var u, chunks := Register(t, reg).0, C.Split(data, C.EffectiveSize(requested));
    InitHasBlocks(t, reg);
    RegisterKeepsSchema(t, reg);
    SameTaken(c, data, name, requested, net, u, id);
    FittingPassEnds(c.sha, u, id, reg, chunks, net, stop, r, after);
  }

  lemma ManifestWellFormed(sha: Bytes -> Hash, name: Name, data: Bytes, requested: int)
    requires forall b :: |sha(b)| == 64
    ensures var m := C.ManifestOf(sha, name, data, requested);
            && m.blockSize > 0 && m.size >= 0 && |m.sha| == 64
            && forall b | b in m.blocks :: |b.sha| == 64 && b.size > 0
  {
    C.ChunksNonEmpty(data, C.EffectiveSize(requested));
  }
}
