/** The coordinator's download and delete handlers run against the metastore object, and the
    round trip they make with the client's upload. */
module Serving {
  import opened Basics
  import opened Metastore
  import opened Client
  import C = Chunking
  import K = Cluster
  import N = NodeStore
  import P = Protocol
  import T = Transfer

  /** What each node answers to a GET of each block. */
  type Net = Hash -> Node -> T.Reply

  /** The reply that decides what streamBlock does: that of the first candidate to answer 200. */
  ghost function Answer(pick: Hash -> seq<Node>, b: BlockSpec, get: Net): T.Reply {
    T.FirstAnswer(T.Candidates(b.nodes, pick(b.sha)), get(b.sha))
  }

  /** What a reply puts on the wire. */
  function Started(r: T.Reply): Bytes {
    match r
    case Body(content) => content
    case Broken(part) => part
    case _ => []
  }

  ghost function IndexOf(b: BlockRow): int {
    b.spec.idx
  }

  /** `rows` is the file's block list in index order. */
  ghost predicate IsListing(t: Tables, id: nat, rows: seq<BlockRow>) {
    && Lists(seq(|rows|, i requires 0 <= i < |rows| => IndexOf(rows[i])), Rows(t, id).Keys)
    && forall i | 0 <= i < |rows| :: IndexOf(rows[i]) in Rows(t, id) && rows[i] == Rows(t, id)[IndexOf(rows[i])]
  }

  lemma ListingFrom(t: Tables, id: nat, rows: seq<BlockRow>)
    requires Lists(seq(|rows|, i requires 0 <= i < |rows| => rows[i].spec.idx), Rows(t, id).Keys)
    requires forall b | b in rows :: b.spec.idx in Rows(t, id) && b == Rows(t, id)[b.spec.idx]
    ensures IsListing(t, id, rows)
  {
    assert seq(|rows|, i requires 0 <= i < |rows| => IndexOf(rows[i])) ==
           seq(|rows|, i requires 0 <= i < |rows| => rows[i].spec.idx);
    assert forall i | 0 <= i < |rows| :: rows[i] in rows;
  }

  /** Whole blocks in index order, then what the first block that cannot be sent whole puts out;
      nothing follows it. `parts` are the blocks sent whole. */
  ghost predicate Sent(
      pick: Hash -> seq<Node>, rows: seq<BlockRow>, get: Net, parts: seq<Bytes>, sent: Bytes, ok: bool)
  {
    && |parts| <= |rows|
    && (forall i | 0 <= i < |parts| :: Answer(pick, rows[i].spec, get) == T.Body(parts[i]))
    && (ok <==> |parts| == |rows|)
    && (ok ==> sent == Flatten(parts))
    && (!ok ==> !Answer(pick, rows[|parts|].spec, get).Body?
                && sent == Flatten(parts) + Started(Answer(pick, rows[|parts|].spec, get)))
  }

  /** streamBlock of one row. */
  method StreamRow(c: Coordinator, b: BlockSpec, get: Net) returns (part: Bytes, done: bool)
    ensures var r := Answer(c.pick, b, get); part == Started(r) && (done <==> r.Body?)
  {
    var asked;
    part, done, asked := T.StreamBlock(b.nodes, c.pick(b.sha), get(b.sha));
  }

  method StreamRows(c: Coordinator, rows: seq<BlockRow>, get: Net)
    returns (sent: Bytes, ok: bool, ghost parts: seq<Bytes>)
    ensures Sent(c.pick, rows, get, parts, sent, ok)
    ensures ok <==> forall i | 0 <= i < |rows| :: Answer(c.pick, rows[i].spec, get).Body?
  {
    sent, parts := [], [];
    for i := 0 to |rows|
      invariant |parts| == i && sent == Flatten(parts)
      invariant forall k | 0 <= k < i :: Answer(c.pick, rows[k].spec, get) == T.Body(parts[k])
    {
      var part, done := StreamRow(c, rows[i].spec, get);
      if !done {
        return sent + part, false, parts;
      }
      FlattenSnoc(parts, part);
      sent, parts := sent + part, parts + [part];
    }
    ok := true;
  }

  ghost function DownloadStatus(t: Tables, name: Name): int {
    match Find(t, name)
    case None => 404
    case Some(id) => if t.files[id].complete then 200 else 409
  }

  method Download(c: Coordinator, name: Name, get: Net)
    returns (status: int, sent: Bytes, ok: bool, ghost rows: seq<BlockRow>, ghost parts: seq<Bytes>)
    requires c.Valid()
    ensures status == DownloadStatus(c.store.View(), name)
    ensures status == match Find(c.store.View(), name)
                      case None => 404
                      case Some(id) => if c.store.files[id].complete then 200 else 409
    ensures status == 200 ==> IsListing(c.store.View(), Find(c.store.View(), name).value, rows)
    ensures status == 200 ==> Sent(c.pick, rows, get, parts, sent, ok)
    ensures ok <==> status == 200 && forall i | 0 <= i < |rows| :: Answer(c.pick, rows[i].spec, get).Body?
    ensures status != 200 ==> sent == []
  {
    var f := c.store.GetFile(name);
    if f.Err? {
      return 404, [], false, [], [];
    }
    if !f.value.1.complete {
      return 409, [], false, [], [];
    }
    status := 200;
    var blocks := c.store.ListBlocks(f.value.0);
    ListingFrom(c.store.View(), f.value.0, blocks);
    rows := blocks;
    sent, ok, parts := StreamRows(c, blocks, get);
  }

  lemma {:induction false} TargetsSnoc(specs: seq<BlockSpec>, b: BlockSpec)
    ensures P.Targets(specs + [b]) == P.Targets(specs) + P.Targets([b])
  {
    if specs == [] {
      assert specs + [b] == [b];
    } else {
      assert (specs + [b])[1..] == specs[1..] + [b];
      TargetsSnoc(specs[1..], b);
      Assoc(P.Targets([specs[0]]), P.Targets(specs[1..]), P.Targets([b]));
    }
  }

  lemma TargetsOfOne(b: BlockSpec)
    ensures P.Targets([b]) == seq(|b.nodes|, k requires 0 <= k < |b.nodes| => (b.nodes[k], b.sha))
  {
    assert P.Targets([b][1..]) == [];
  }

  function SpecsOf(rows: seq<BlockRow>): seq<BlockSpec> {
    seq(|rows|, i requires 0 <= i < |rows| => rows[i].spec)
  }

  /** The replicas of one block, each with the block's hash. */
  function Addressed(b: BlockSpec): seq<(Node, Hash)> {
    seq(|b.nodes|, k requires 0 <= k < |b.nodes| => (b.nodes[k], b.sha))
  }

  function AllAddressed(specs: seq<BlockSpec>): seq<seq<(Node, Hash)>> {
    seq(|specs|, i requires 0 <= i < |specs| => Addressed(specs[i]))
  }

  lemma {:induction false} TargetsAre(specs: seq<BlockSpec>)
    ensures P.Targets(specs) == Flatten(AllAddressed(specs))
  {
    if specs != [] {
      TargetsAre(specs[1..]);
      assert AllAddressed(specs)[1..] == AllAddressed(specs[1..]);
    }
  }

  /** One DELETE for every recorded replica of every block, in order; answers are ignored. */
  method SendDeletes(blocks: seq<BlockRow>) returns (sent: seq<(Node, Hash)>)
    ensures sent == P.Targets(SpecsOf(blocks))
    ensures sent == Flatten(AllAddressed(SpecsOf(blocks)))
  {
    sent := [];
    for i := 0 to |blocks|
      invariant sent == P.Targets(SpecsOf(blocks[..i]))
    {
      var b := blocks[i].spec;
      ghost var before := sent;
      TargetsOfOne(b);
      for k := 0 to |b.nodes|
        invariant sent == before + P.Targets([b])[..k]
      {
        sent := sent + [(b.nodes[k], b.sha)];
      }
      TargetsSnoc(SpecsOf(blocks[..i]), b);
      assert SpecsOf(blocks[..i + 1]) == SpecsOf(blocks[..i]) + [b];
    }
    assert blocks[..|blocks|] == blocks;
    TargetsAre(SpecsOf(blocks));
  }

  ghost function DeleteStatus(t: Tables, name: Name): int {
    if Find(t, name).None? then 404 else 204
  }

  /** The row goes, with its blocks, whatever the nodes answered. */
  method Delete(c: Coordinator, name: Name) returns (status: int, sent: seq<(Node, Hash)>, ghost rows: seq<BlockRow>)
    requires c.Valid()
    modifies c.store
    ensures c.Valid() && c.store.View() == DeleteFile(old(c.store.View()), name)
    ensures status == DeleteStatus(old(c.store.View()), name)
    ensures match Find(old(c.store.View()), name)
            case None => status == 404 && sent == []
            case Some(id) =>
              status == 204 && IsListing(old(c.store.View()), id, rows) && sent == P.Targets(SpecsOf(rows))
  {
    var f := c.store.GetFile(name);
    if f.Err? {
      return 404, [], [];
    }
    var blocks := c.store.ListBlocks(f.value.0);
    ListingFrom(c.store.View(), f.value.0, blocks);
    rows := blocks;
    sent := SendDeletes(blocks);
    var r := c.store.Delete(f.value.1.name);
    status := if r.Ok? then 204 else 500;
  }

  // ---- The round trip ------------------------------------------------------------------------

  /** A listing of a file that holds exactly the blocks of `reg` is those blocks. */
  lemma ListingOf(t: Tables, id: nat, reg: Registration, rows: seq<BlockRow>)
    requires HasBlocks(t, id, reg) && IsListing(t, id, rows)
    ensures |rows| == |reg.specs| && forall i | 0 <= i < |rows| :: rows[i].spec == reg.specs[i]
  {
    var order := seq(|rows|, i requires 0 <= i < |rows| => IndexOf(rows[i]));
    var count := seq(|reg.specs|, i requires 0 <= i < |reg.specs| => i as int);
    forall x ensures x in count <==> x in Rows(t, id).Keys {
      if 0 <= x < |reg.specs| {
        assert count[x] == x;
      }
    }
    ListsUnique(order, count, Rows(t, id).Keys);
    forall i | 0 <= i < |rows| ensures rows[i].spec == reg.specs[i] {
      assert order[i] == count[i];
    }
  }

  lemma PartsAreChunks(
      c: Coordinator, get: Net, rows: seq<BlockRow>, parts: seq<Bytes>, sent: Bytes, chunks: seq<Bytes>)
    requires |rows| == |chunks| && Sent(c.pick, rows, get, parts, sent, true)
    requires forall i | 0 <= i < |rows| :: Answer(c.pick, rows[i].spec, get) == T.Body(chunks[i])
    ensures sent == Flatten(chunks)
  {
    forall i | 0 <= i < |parts| ensures parts[i] == chunks[i] {
      assert T.Body(parts[i]) == T.Body(chunks[i]);
    }
    assert parts == chunks;
  }

  /** What the client is going to find missing. */
  method Missing(c: Coordinator, name: Name, count: nat, ghost reg: Registration) returns (need: set<int>)
    requires c.Valid() && Indexed(reg) && count == |reg.specs| && name == reg.name
    ensures Resumable(c.store.View(), reg) ==>
              var u := Register(c.store.View(), reg).0;
              Find(u, name).Some? && need == PendingSet(u, Find(u, name).value)
  {
    ghost var t := c.store.View();
    var f := c.store.GetFile(name);
    if f.Ok? {
      var missing := c.store.MissingBlocks(f.value.0);
      need := set i | i in missing;
      if Resumable(t, reg) { InitHasBlocks(t, reg); }
    } else {
      need := Below(count);
      AllMissing(t, reg);
    }
  }

  lemma AllMissing(t: Tables, reg: Registration)
    requires Schema(t) && Find(t, reg.name).None? && Indexed(reg)
    ensures var u := Register(t, reg).0;
            Find(u, reg.name).Some? && PendingSet(u, Find(u, reg.name).value) == Below(|reg.specs|)
  {
    InitHasBlocks(t, reg);
    RegisterKeepsSchema(t, reg);
    var u := Register(t, reg).0;
    DeleteUndoesCreated(t, reg, u);
    forall i | 0 <= i < |reg.specs| ensures i in PendingSet(u, t.nextId) {
      assert reg.specs[i].idx == i;
    }
  }

  /** The world the download meets: the nodes after the upload's PUTs, and then after whatever
      they have done of their own. */
  ghost function Later(c: Coordinator, w: K.World, reg: Registration, chunks: seq<Bytes>, need: set<int>,
                       weather: K.Weather, after: Node -> seq<N.Step>): K.World
    requires |reg.specs| == |chunks|
  {
    K.Drifted(c.sha, K.Before(c.sha, w, reg.specs, chunks, need, weather, |reg.specs|), after)
  }

  lemma LaterKeeps(c: Coordinator, w: K.World, reg: Registration, chunks: seq<Bytes>, pending: set<int>,
                   weather: K.Weather, after: Node -> seq<N.Step>)
    requires |reg.specs| == |chunks| && K.Sound(c.sha, w)
    ensures K.Keeps(c.sha, K.Before(c.sha, w, reg.specs, chunks, pending, weather, |reg.specs|),
                    Later(c, w, reg, chunks, pending, weather, after))
  {
    K.BeforeKeeps(c.sha, w, reg.specs, chunks, pending, weather, 0, |reg.specs|);
    K.DriftedKeeps(c.sha, K.Before(c.sha, w, reg.specs, chunks, pending, weather, |reg.specs|), after);
  }

  lemma UploadedIsHeld(c: Coordinator, w: K.World, reg: Registration, chunks: seq<Bytes>, pending: set<int>,
                       weather: K.Weather, after: Node -> seq<N.Step>, put: nat -> Option<int>, i: nat)
    requires |reg.specs| == |chunks| && K.Sound(c.sha, w) && i < |reg.specs| && i in pending
    requires forall k :: put(k) == K.Told(c.sha, w, reg.specs, chunks, pending, weather, i, k)
    requires T.Accepting(|reg.specs[i].nodes|, put) != []
    ensures Held(Later(c, w, reg, chunks, pending, weather, after), reg.specs[i], chunks[i])
  {
    var nodes := reg.specs[i].nodes;
    var k := T.Accepting(|nodes|, put)[0];
    assert T.Accepts(put(k));
    K.ToldIsHolder(c.sha, w, reg.specs, chunks, pending, weather, i, k);
    LaterKeeps(c, w, reg, chunks, pending, weather, after);
    K.HolderStays(c.sha, K.Before(c.sha, w, reg.specs, chunks, pending, weather, |reg.specs|),
                  Later(c, w, reg, chunks, pending, weather, after), reg.specs[i], chunks[i], nodes[k]);
  }

  /** Some node of the block has accepted exactly these bytes for it. */
  ghost predicate Held(w: K.World, b: BlockSpec, chunk: Bytes) {
    exists n :: K.Holder(w, b, chunk, n)
  }

  lemma AllUploadedHeld(c: Coordinator, w: K.World, reg: Registration, chunks: seq<Bytes>, pending: set<int>,
                        weather: K.Weather, after: Node -> seq<N.Step>, net: nat -> nat -> Option<int>)
    requires |reg.specs| == |chunks| && K.Sound(c.sha, w) && AcceptedUpTo(pending, reg, net, |reg.specs|)
    requires forall i, k :: net(i)(k) == K.Told(c.sha, w, reg.specs, chunks, pending, weather, i, k)
    ensures forall i | 0 <= i < |chunks| && i in pending ::
            Held(Later(c, w, reg, chunks, pending, weather, after), reg.specs[i], chunks[i])
  {
    forall i | 0 <= i < |chunks| && i in pending
      ensures Held(Later(c, w, reg, chunks, pending, weather, after), reg.specs[i], chunks[i])
    {
      assert Accepted(reg, net, i);
      UploadedIsHeld(c, w, reg, chunks, pending, weather, after, net(i), i);
    }
  }

  /** The manifest of `data` as rows, with the chunks they stand for. */
  lemma PlacedChunks(c: Coordinator, data: Bytes, name: Name, requested: int)
    ensures var reg := c.Placed(C.ManifestOf(c.sha, name, data, requested));
            var chunks := C.Split(data, C.EffectiveSize(requested));
            |reg.specs| == |chunks| && Indexed(reg) && reg.name == name
            && forall i | 0 <= i < |chunks| :: reg.specs[i].sha == c.sha(chunks[i])
  {}

  lemma DownloadIsData(
      c: Coordinator, w: K.World, reg: Registration, chunks: seq<Bytes>, rows: seq<BlockRow>, parts: seq<Bytes>,
      sent: Bytes, ok: bool)
    requires K.Sound(c.sha, w) && K.NoCollision(c.sha, w, chunks) && |rows| == |reg.specs| == |chunks|
    requires forall i | 0 <= i < |rows| :: rows[i].spec == reg.specs[i] && reg.specs[i].sha == c.sha(chunks[i])
    requires forall b | b in reg.specs :: K.Survives(w, b)
    requires Sent(c.pick, rows, h => K.Got(w, h), parts, sent, ok)
    requires ok <==> forall i | 0 <= i < |rows| :: Answer(c.pick, rows[i].spec, h => K.Got(w, h)).Body?
    ensures ok && sent == Flatten(chunks)
  {
    forall i | 0 <= i < |rows| ensures Answer(c.pick, rows[i].spec, h => K.Got(w, h)) == T.Body(chunks[i]) {
      assert reg.specs[i] in reg.specs;
      K.SurvivorAnswers(c.sha, w, reg.specs[i], c.pick(reg.specs[i].sha), chunks, i);
    }
    PartsAreChunks(c, h => K.Got(w, h), rows, parts, sent, chunks);
  }

  /** Some replica of block i answers its PUT with 2xx. */
  ghost predicate SomeTold(c: Coordinator, w: K.World, reg: Registration, chunks: seq<Bytes>, pending: set<int>,
                           weather: K.Weather, i: nat)
    requires |reg.specs| == |chunks|
  {
    exists k: nat :: T.Accepts(K.Told(c.sha, w, reg.specs, chunks, pending, weather, i, k))
  }

  lemma AcceptedIffTold(c: Coordinator, w: K.World, reg: Registration, chunks: seq<Bytes>, pending: set<int>,
                        weather: K.Weather, net: nat -> nat -> Option<int>, i: nat)
    requires |reg.specs| == |chunks| && i < |reg.specs|
    requires forall k :: net(i)(k) == K.Told(c.sha, w, reg.specs, chunks, pending, weather, i, k)
    ensures Accepted(reg, net, i) <==> SomeTold(c, w, reg, chunks, pending, weather, i)
  {
    var count := |reg.specs[i].nodes|;
    if Accepted(reg, net, i) {
      var k := T.Accepting(count, net(i))[0];
      assert T.Accepts(K.Told(c.sha, w, reg.specs, chunks, pending, weather, i, k));
    }
    if SomeTold(c, w, reg, chunks, pending, weather, i) {
      var k: nat :| T.Accepts(K.Told(c.sha, w, reg.specs, chunks, pending, weather, i, k));
      assert T.Accepts(net(i)(k));
      T.AcceptingIsComplete(count, net(i), k);
    }
  }

  lemma AllAcceptedIffTold(c: Coordinator, w: K.World, reg: Registration, chunks: seq<Bytes>, pending: set<int>,
                           weather: K.Weather, net: nat -> nat -> Option<int>)
    requires |reg.specs| == |chunks|
    requires forall i, k :: net(i)(k) == K.Told(c.sha, w, reg.specs, chunks, pending, weather, i, k)
    ensures AcceptedUpTo(pending, reg, net, |reg.specs|) <==>
            forall i: nat | i < |chunks| && i in pending :: SomeTold(c, w, reg, chunks, pending, weather, i)
  {
    forall i: nat | i < |chunks|
      ensures Accepted(reg, net, i) <==> SomeTold(c, w, reg, chunks, pending, weather, i)
    {
      AcceptedIffTold(c, w, reg, chunks, pending, weather, net, i);
    }
  }

  /** Upload to the nodes, let them do whatever they do, download from them: the upload succeeds
      exactly when each missing block is accepted by a replica; then every block uploaded is held by
      a node that accepted it; and if each block of the file has such a node up, with no DELETE of
      the block since its PUT, the client gets its file back byte for byte. */
  method UploadThenDownload(c: Coordinator, data: Bytes, name: Name, requested: int,
                            w: K.World, weather: K.Weather, after: Node -> seq<N.Step>)
    returns (r: Outcome, status: int, sent: Bytes, ghost pending: set<int>)
    requires c.Valid() && (forall b :: |c.sha(b)| == 64) && K.Sound(c.sha, w)
    requires Resumable(c.store.View(), c.Placed(C.ManifestOf(c.sha, name, data, requested)))
    modifies c.store
    ensures c.Valid()
    ensures var reg := c.Placed(C.ManifestOf(c.sha, name, data, requested));
            var chunks := C.Split(data, C.EffectiveSize(requested));
            var u := Register(old(c.store.View()), reg).0;
            |reg.specs| == |chunks| && Find(u, name).Some? && pending == PendingSet(u, Find(u, name).value)
            && (r.Uploaded? <==>
                  forall i: nat | i < |chunks| && i in pending :: SomeTold(c, w, reg, chunks, pending, weather, i))
            && var later := Later(c, w, reg, chunks, pending, weather, after);
            r.Uploaded? ==>
              && (forall i | 0 <= i < |chunks| && i in pending :: Held(later, reg.specs[i], chunks[i]))
              && (K.NoCollision(c.sha, later, chunks) && (forall b | b in reg.specs :: K.Survives(later, b)) ==>
                    status == 200 && sent == data)
  {
    var m := C.ManifestOf(c.sha, name, data, requested);
    var chunks := C.Split(data, C.EffectiveSize(requested));
    var reg := P.Placed(c.pick, c.replicas, m);
    PlacedChunks(c, data, name, requested);
    var need := Missing(c, name, |reg.specs|, reg);
    var net := (i: nat) => (k: nat) => K.Told(c.sha, w, reg.specs, chunks, need, weather, i, k);
    ghost var t := c.store.View();
    ghost var id, stop;
    pending := need;
    r, id, stop := Upload(c, data, name, requested, net);
    InitHasBlocks(t, reg);
    ResumedPassEnds(c, data, name, requested, net, t, id, stop, r, c.store.View());
    AllAcceptedIffTold(c, w, reg, chunks, need, weather, net);
    if !r.Uploaded? {
      return r, 0, [], pending;
    }
    var later := K.Drifted(c.sha, K.Before(c.sha, w, reg.specs, chunks, need, weather, |reg.specs|), after);
    AllUploadedHeld(c, w, reg, chunks, need, weather, after, net);
    LaterKeeps(c, w, reg, chunks, need, weather, after);
    var ok;
    ghost var rows, parts;
    status, sent, ok, rows, parts := Download(c, name, h => K.Got(later, h));
    ListingOf(c.store.View(), id, reg, rows);
    if K.NoCollision(c.sha, later, chunks) && forall b | b in reg.specs :: K.Survives(later, b) {
      DownloadIsData(c, later, reg, chunks, rows, parts, sent, ok);
      C.SplitFlattens(data, C.EffectiveSize(requested));
    }
  }
}
