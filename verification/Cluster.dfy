/** The storage nodes as an upload and a later download meet them: each PUT the coordinator sends
    is served by a node's own state, and between requests every node may take any steps of its
    own (other requests, DELETEs, crashes, restarts). */
module Cluster {
  import opened Basics
  import M = Metastore
  import N = NodeStore
  import T = Transfer

  type Hash = string
  type Node = string
  type World = map<Node, N.NodeState>

  /** One PUT: the request may not arrive, the node may fail at it, the reply may be lost. */
  datatype Link = Unreachable | ReplyLost(fault: N.Fault) | Replies(fault: N.Fault)

  /** By block: the PUT at each position, and what each node does of its own before the fan-out. */
  datatype Weather = Weather(links: nat -> nat -> Link, noise: nat -> Node -> seq<N.Step>)

  ghost predicate Sound(sha: Bytes -> Hash, w: World) {
    forall n | n in w :: N.Inv(sha, w[n])
  }

  function Served(sha: Bytes -> Hash, w: World, n: Node, id: Hash, body: Bytes, link: Link): World {
    if n !in w || !w[n].up || link.Unreachable? then w
    else w[n := N.Served(w[n], id, body, N.PutStatus(sha, w[n], id, body, link.fault))]
  }

  function Reply(sha: Bytes -> Hash, w: World, n: Node, id: Hash, body: Bytes, link: Link): Option<int> {
    if n !in w || !w[n].up || !link.Replies? then None
    else Some(N.PutStatus(sha, w[n], id, body, link.fault))
  }

  /** The world after the PUTs to the first k positions. */
  function Fanned(
      sha: Bytes -> Hash, w: World, nodes: seq<Node>, id: Hash, body: Bytes, links: nat -> Link, k: nat): World
    requires k <= |nodes|
  {
    if k == 0 then w
    else Served(sha, Fanned(sha, w, nodes, id, body, links, k - 1), nodes[k - 1], id, body, links(k - 1))
  }

  function Drifted(sha: Bytes -> Hash, w: World, noise: Node -> seq<N.Step>): World {
    map n | n in w :: if N.Legal(sha, w[n], noise(n)) then N.Run(sha, w[n], noise(n)) else w[n]
  }

  function OneBlock(
      sha: Bytes -> Hash, w: World, b: M.BlockSpec, chunk: Bytes, links: nat -> Link, noise: Node -> seq<N.Step>): World
  {
    Fanned(sha, Drifted(sha, w, noise), b.nodes, b.sha, chunk, links, |b.nodes|)
  }

  /** The world when the client is about to deal with block i; `need` are the blocks it uploads. */
  function Before(sha: Bytes -> Hash, w: World, specs: seq<M.BlockSpec>, chunks: seq<Bytes>, need: set<int>,
                  weather: Weather, i: nat): World
    requires i <= |specs| == |chunks|
  {
    if i == 0 then w
    else
      var u := Before(sha, w, specs, chunks, need, weather, i - 1);
      if i - 1 !in need then u
      else OneBlock(sha, u, specs[i - 1], chunks[i - 1], weather.links(i - 1), weather.noise(i - 1))
  }

  /** What the replica at position k of block i answers to its PUT. */
  function Told(sha: Bytes -> Hash, w: World, specs: seq<M.BlockSpec>, chunks: seq<Bytes>, need: set<int>,
                weather: Weather, i: nat, k: nat): Option<int>
    requires |specs| == |chunks|
  {
    if i >= |specs| || k >= |specs[i].nodes| then None
    else
      var u := Drifted(sha, Before(sha, w, specs, chunks, need, weather, i), weather.noise(i));
      Reply(sha, Fanned(sha, u, specs[i].nodes, specs[i].sha, chunks[i], weather.links(i), k),
            specs[i].nodes[k], specs[i].sha, chunks[i], weather.links(i)(k))
  }

  // ----- what the world keeps -----

  /** Nothing a node has accepted is forgotten, and every node still satisfies its invariant. */
  ghost predicate Keeps(sha: Bytes -> Hash, w: World, u: World) {
    Sound(sha, u) && w.Keys == u.Keys && forall n | n in w :: w[n].accepted <= u[n].accepted
  }

  lemma ServedKeeps(sha: Bytes -> Hash, w: World, n: Node, id: Hash, body: Bytes, link: Link)
    requires Sound(sha, w)
    ensures Keeps(sha, w, Served(sha, w, n, id, body, link))
    ensures T.Accepts(Reply(sha, w, n, id, body, link)) ==>
              n in w && exists mark :: N.Accept(id, body, mark) in Served(sha, w, n, id, body, link)[n].accepted
  {
    if n in w && w[n].up && !link.Unreachable? {
      var steps := N.PutTrace(sha, w[n], id, body, link.fault, 0);
      if T.Accepts(Reply(sha, w, n, id, body, link)) {
        assert N.Accept(id, body, N.Deleted(w[n], id)) in Served(sha, w, n, id, body, link)[n].accepted;
      }
    }
  }

  lemma {:induction false} FannedKeeps(
      sha: Bytes -> Hash, w: World, nodes: seq<Node>, id: Hash, body: Bytes, links: nat -> Link, j: nat, k: nat)
    requires Sound(sha, w) && j <= k <= |nodes|
    ensures Keeps(sha, w, Fanned(sha, w, nodes, id, body, links, j))
    ensures Keeps(sha, Fanned(sha, w, nodes, id, body, links, j), Fanned(sha, w, nodes, id, body, links, k))
    decreases k
  {
    if k > 0 {
      FannedKeeps(sha, w, nodes, id, body, links, if j < k then j else k - 1, k - 1);
      ServedKeeps(sha, Fanned(sha, w, nodes, id, body, links, k - 1), nodes[k - 1], id, body, links(k - 1));
    }
  }

  lemma DriftedKeeps(sha: Bytes -> Hash, w: World, noise: Node -> seq<N.Step>)
    requires Sound(sha, w)
    ensures Keeps(sha, w, Drifted(sha, w, noise))
  {
    forall n | n in w
      ensures N.Inv(sha, Drifted(sha, w, noise)[n]) && w[n].accepted <= Drifted(sha, w, noise)[n].accepted
    {
      if N.Legal(sha, w[n], noise(n)) {
        N.RunKeepsInv(sha, w[n], noise(n));
        N.RunKeepsAccepted(sha, w[n], noise(n));
      }
    }
  }

  lemma NextKeeps(
      sha: Bytes -> Hash, w: World, specs: seq<M.BlockSpec>, chunks: seq<Bytes>, need: set<int>, weather: Weather,
      i: nat)
    requires i < |specs| == |chunks| && Sound(sha, Before(sha, w, specs, chunks, need, weather, i))
    ensures Keeps(sha, Before(sha, w, specs, chunks, need, weather, i),
                  Before(sha, w, specs, chunks, need, weather, i + 1))
  {
    if i in need {
      OneBlockKeeps(sha, Before(sha, w, specs, chunks, need, weather, i), specs[i], chunks[i],
                    weather.links(i), weather.noise(i));
    }
  }

  lemma {:induction false} BeforeKeeps(
      sha: Bytes -> Hash, w: World, specs: seq<M.BlockSpec>, chunks: seq<Bytes>, need: set<int>,
      weather: Weather, i: nat, j: nat)
    requires i <= j <= |specs| == |chunks| && Sound(sha, Before(sha, w, specs, chunks, need, weather, i))
    ensures Keeps(sha, Before(sha, w, specs, chunks, need, weather, i), Before(sha, w, specs, chunks, need, weather, j))
    decreases j
  {
    if i < j {
      BeforeKeeps(sha, w, specs, chunks, need, weather, i, j - 1);
      NextKeeps(sha, w, specs, chunks, need, weather, j - 1);
      KeepsOn(sha, Before(sha, w, specs, chunks, need, weather, i), Before(sha, w, specs, chunks, need, weather, j - 1),
              Before(sha, w, specs, chunks, need, weather, j));
    }
  }

  lemma KeepsOn(sha: Bytes -> Hash, w: World, u: World, v: World)
    requires Keeps(sha, w, u) && Keeps(sha, u, v)
    ensures Keeps(sha, w, v)
  {}

  lemma OneBlockKeeps(
      sha: Bytes -> Hash, w: World, b: M.BlockSpec, chunk: Bytes, links: nat -> Link, noise: Node -> seq<N.Step>)
    requires Sound(sha, w)
    ensures Keeps(sha, w, OneBlock(sha, w, b, chunk, links, noise))
  {
    DriftedKeeps(sha, w, noise);
    FannedKeeps(sha, Drifted(sha, w, noise), b.nodes, b.sha, chunk, links, 0, |b.nodes|);
  }

  /** Node n has accepted these bytes as block b. */
  ghost predicate Holder(w: World, b: M.BlockSpec, body: Bytes, n: Node) {
    n in b.nodes && n in w && exists mark :: N.Accept(b.sha, body, mark) in w[n].accepted
  }

  lemma HolderStays(sha: Bytes -> Hash, w: World, u: World, b: M.BlockSpec, body: Bytes, n: Node)
    requires Keeps(sha, w, u) && Holder(w, b, body, n)
    ensures Holder(u, b, body, n)
  {
    var mark :| N.Accept(b.sha, body, mark) in w[n].accepted;
    assert N.Accept(b.sha, body, mark) in u[n].accepted;
  }

  lemma FanTold(
      sha: Bytes -> Hash, w: World, b: M.BlockSpec, chunk: Bytes, links: nat -> Link, noise: Node -> seq<N.Step>,
      k: nat)
    requires Sound(sha, w) && k < |b.nodes|
    requires T.Accepts(Reply(sha, Fanned(sha, Drifted(sha, w, noise), b.nodes, b.sha, chunk, links, k),
                             b.nodes[k], b.sha, chunk, links(k)))
    ensures Holder(OneBlock(sha, w, b, chunk, links, noise), b, chunk, b.nodes[k])
  {
    var u := Drifted(sha, w, noise);
    DriftedKeeps(sha, w, noise);
    FannedKeeps(sha, u, b.nodes, b.sha, chunk, links, k, k);
    ServedKeeps(sha, Fanned(sha, u, b.nodes, b.sha, chunk, links, k), b.nodes[k], b.sha, chunk, links(k));
    FannedKeeps(sha, u, b.nodes, b.sha, chunk, links, k + 1, |b.nodes|);
    HolderStays(sha, Fanned(sha, u, b.nodes, b.sha, chunk, links, k + 1),
                Fanned(sha, u, b.nodes, b.sha, chunk, links, |b.nodes|), b, chunk, b.nodes[k]);
  }

  lemma ToldIsHolderNext(sha: Bytes -> Hash, w: World, specs: seq<M.BlockSpec>, chunks: seq<Bytes>, need: set<int>,
                         weather: Weather, i: nat, k: nat, u: World)
    requires i < |specs| == |chunks| && k < |specs[i].nodes| && i in need
    requires u == Before(sha, w, specs, chunks, need, weather, i) && Sound(sha, u)
    requires T.Accepts(Told(sha, w, specs, chunks, need, weather, i, k))
    ensures Holder(Before(sha, w, specs, chunks, need, weather, i + 1), specs[i], chunks[i], specs[i].nodes[k])
  {
    FanTold(sha, u, specs[i], chunks[i], weather.links(i), weather.noise(i), k);
  }

  /** A 2xx answer in the fan-out of a block that is uploaded is a node that has accepted it by
      the end of the upload. */
  lemma ToldIsHolder(sha: Bytes -> Hash, w: World, specs: seq<M.BlockSpec>, chunks: seq<Bytes>, need: set<int>,
                     weather: Weather, i: nat, k: nat)
    requires Sound(sha, w) && i < |specs| == |chunks| && k < |specs[i].nodes| && i in need
    requires T.Accepts(Told(sha, w, specs, chunks, need, weather, i, k))
    ensures Holder(Before(sha, w, specs, chunks, need, weather, |specs|), specs[i], chunks[i], specs[i].nodes[k])
  {
    var n, u := specs[i].nodes[k], Before(sha, w, specs, chunks, need, weather, i);
    BeforeKeeps(sha, w, specs, chunks, need, weather, 0, i);
    ToldIsHolderNext(sha, w, specs, chunks, need, weather, i, k, u);
    HolderAtEnd(sha, w, specs, chunks, need, weather, i, n);
  }

  lemma HolderAtEnd(sha: Bytes -> Hash, w: World, specs: seq<M.BlockSpec>, chunks: seq<Bytes>, need: set<int>,
                    weather: Weather, i: nat, n: Node)
    requires i < |specs| == |chunks| && Sound(sha, Before(sha, w, specs, chunks, need, weather, i))
    requires Holder(Before(sha, w, specs, chunks, need, weather, i + 1), specs[i], chunks[i], n)
    ensures Holder(Before(sha, w, specs, chunks, need, weather, |specs|), specs[i], chunks[i], n)
  {
    NextKeeps(sha, w, specs, chunks, need, weather, i);
    BeforeKeeps(sha, w, specs, chunks, need, weather, i + 1, |specs|);
    HolderStays(sha, Before(sha, w, specs, chunks, need, weather, i + 1),
                Before(sha, w, specs, chunks, need, weather, |specs|), specs[i], chunks[i], n);
  }

  // ----- reading from the world -----

  function Got(w: World, h: Hash): Node -> T.Reply {
    n => if n !in w || !w[n].up then T.NoReply
         else if h in w[n].disk then T.Body(w[n].disk[h])
         else T.Status(404)
  }

  /** Some node of the block is up, has accepted it, and has served no DELETE of it since that
      PUT began. */
  ghost predicate Survives(w: World, b: M.BlockSpec) {
    exists n, a :: Survivor(w, b, n, a)
  }

  ghost predicate Survivor(w: World, b: M.BlockSpec, n: Node, a: N.Accept) {
    n in b.nodes && n in w && w[n].up && a in w[n].accepted && a.id == b.sha && N.Deleted(w[n], b.sha) == a.mark
  }

  /** No two byte strings, one stored in the world and one a block of the file, share their hash. */
  ghost predicate NoCollision(sha: Bytes -> Hash, w: World, chunks: seq<Bytes>) {
    forall n, h, i | n in w && h in w[n].disk && 0 <= i < |chunks| && sha(w[n].disk[h]) == sha(chunks[i]) ::
      w[n].disk[h] == chunks[i]
  }

  lemma {:induction false} NoneBreaks(candidates: seq<Node>, w: World, h: Hash)
    ensures !T.FirstAnswer(candidates, Got(w, h)).Broken?
  {
    if candidates != [] { NoneBreaks(candidates[1..], w, h); }
  }

  /** A surviving block is answered with its very bytes. */
  lemma SurvivorAnswers(sha: Bytes -> Hash, w: World, b: M.BlockSpec, ranked: seq<Node>, chunks: seq<Bytes>, i: nat)
    requires Sound(sha, w) && Survives(w, b) && NoCollision(sha, w, chunks) && i < |chunks| && sha(chunks[i]) == b.sha
    ensures T.FirstAnswer(T.Candidates(b.nodes, ranked), Got(w, b.sha)) == T.Body(chunks[i])
  {
    var candidates, get := T.Candidates(b.nodes, ranked), Got(w, b.sha);
    var n, a :| Survivor(w, b, n, a);
    assert N.Kept(sha, w[n], a);
    T.CandidatesCover(b.nodes, ranked);
    assert n in candidates && get(n).Body?;
    T.ServedIfAnyServes(candidates, get);
    NoneBreaks(candidates, w, b.sha);
    T.StreamFailsIffBroken(candidates, get);
    var m :| m in candidates && get(m) == T.Body(T.FirstServed(candidates, get).value);
    assert N.ContentAddressed(sha, w[m]);
  }
}
