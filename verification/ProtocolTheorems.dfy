/** What holds in every reachable state of the protocol, and across whole runs. */
module ProtocolTheorems {
  import opened Basics
  import opened Protocol
  import opened ProtocolInvariant
  import opened ProtocolSteps
  import M = Metastore
  import N = NodeStore
  import C = Chunking
  import P = Placement
  import T = Transfer

  // ----- history only grows -----

  lemma GrowsTransitive(cfg: Config, s: State, t: State, u: State)
    requires Grows(s, t) && Grows(t, u)
    ensures Grows(s, u)
  {
    forall id | id in u.tables.files && id < s.tables.nextId
      ensures id in s.tables.files && id in s.tables.blocks && RowsGrow(s.tables.blocks[id], u.tables.blocks[id])
    {
      assert RowsGrow(t.tables.blocks[id], u.tables.blocks[id]);
      assert RowsGrow(s.tables.blocks[id], t.tables.blocks[id]);
    }
    forall n | n in s.nodes ensures NodeGrows(s.nodes[n], u.nodes[n]) {
      NodeGrowsTransitive(s.nodes[n], t.nodes[n], u.nodes[n]);
    }
  }

  lemma NodeGrowsTransitive(a: N.NodeState, b: N.NodeState, c: N.NodeState)
    requires NodeGrows(a, b) && NodeGrows(b, c)
    ensures NodeGrows(a, c)
  {
    forall h ensures N.Deleted(a, h) <= N.Deleted(c, h) {
      assert N.Deleted(a, h) <= N.Deleted(b, h) <= N.Deleted(c, h);
    }
  }

  lemma {:induction false} RunGrows(cfg: Config, run: seq<State>, i: nat, j: nat)
    requires WellFormed(cfg) && IsRun(cfg, run) && i <= j < |run|
    ensures Grows(run[i], run[j])
    decreases j - i
  {
    if i == j {
      RunInv(cfg, run, i);
      SameTables(run[i].tables);
      SameNodes(run[i].nodes);
    } else {
      RunGrows(cfg, run, i, j - 1);
      RunInv(cfg, run, j - 1);
      var step := StepTaken(cfg, run, j - 1);
      StepKeepsInv(cfg, run[j - 1], run[j], step);
      GrowsTransitive(cfg, run[i], run[j - 1], run[j]);
    }
  }

  // ----- metadata -----

  /** Names and ids stay unique, every block row belongs to a live file, and the rows of a live
      file are exactly the blocks it was registered with. */
  lemma TablesSafe(cfg: Config, run: seq<State>, i: nat)
    requires WellFormed(cfg) && IsRun(cfg, run) && i < |run|
    ensures var t := run[i].tables;
            && (forall a, b | a in t.files && b in t.files && t.files[a].name == t.files[b].name :: a == b)
            && t.blocks.Keys == t.files.Keys
            && (forall id | id in t.files ::
                  id in run[i].origin && SameFile(t.files[id], run[i].origin[id])
                  && Holds(t.blocks[id], run[i].origin[id].specs))
  {
    RunInv(cfg, run, i);
  }

  /** Although MarkComplete counts and updates in two statements, a complete file has every one
      of its registered blocks uploaded, in every reachable state. */
  lemma CommitSound(cfg: Config, run: seq<State>, i: nat, id: nat)
    requires WellFormed(cfg) && IsRun(cfg, run) && i < |run|
    requires id in run[i].tables.files && run[i].tables.files[id].complete
    ensures id in run[i].origin
    ensures forall b | b in run[i].origin[id].specs ::
              b.idx in M.Rows(run[i].tables, id) && M.Rows(run[i].tables, id)[b.idx] == M.BlockRow(b, true)
  {
    RunInv(cfg, run, i);
    assert Holds(run[i].tables.blocks[id], run[i].origin[id].specs);
    assert M.AllUploaded(run[i].tables.blocks[id]);
  }

  /** A set flag means that bytes with that row's own hash and size were accepted by one of that
      row's own nodes, whatever stale handlers did. */
  lemma NoStaleMarking(cfg: Config, run: seq<State>, i: nat, id: nat, idx: int)
    requires WellFormed(cfg) && IsRun(cfg, run) && i < |run|
    requires idx in M.Rows(run[i].tables, id) && M.Rows(run[i].tables, id)[idx].uploaded
    ensures var spec := M.Rows(run[i].tables, id)[idx].spec;
            exists body, n, mark ::
              && n in spec.nodes && n in run[i].nodes && N.Accept(spec.sha, body, mark) in run[i].nodes[n].accepted
              && cfg.sha(body) == spec.sha && |body| == spec.size
  {
    RunInv(cfg, run, i);
    var s := run[i];
    var spec := s.tables.blocks[id][idx].spec;
    assert VouchedAt(cfg, s.nodes, s.ledger, id, idx, spec);
    var e := s.ledger[id][idx];
    var a := e.acks[0];
    assert a in e.acks;
    assert Acked(s.nodes, spec, e.body, a);
    assert a.node in spec.nodes[..|spec.nodes|];
  }

  lemma OnlyAdvanceWritesTables(cfg: Config, s: State, t: State, step: Step)
    requires WellFormed(cfg) && Does(cfg, s, t, step) && t.tables != s.tables
    ensures step.Advance?
  {}

  /** Block id/idx is pending before and uploaded after. */
  ghost predicate FlagFlips(t: M.Tables, u: M.Tables, id: nat, idx: int) {
    && idx in M.Rows(t, id) && !M.Rows(t, id)[idx].uploaded
    && idx in M.Rows(u, id) && M.Rows(u, id)[idx].uploaded
  }

  lemma RegisterFlipsNothing(t: M.Tables, reg: M.Registration, id: nat, idx: int)
    requires M.Schema(t)
    ensures !FlagFlips(t, M.Register(t, reg).0, id, idx)
  {
    M.RegisterKeepsSchema(t, reg);
  }

  lemma DeleteFlipsNothing(t: M.Tables, name: string, id: nat, idx: int)
    ensures !FlagFlips(t, M.DeleteFile(t, name), id, idx)
  {}

  lemma MarkFlipsOne(t: M.Tables, marked: nat, at: int, id: nat, idx: int)
    ensures FlagFlips(t, M.MarkRow(t, marked, at), id, idx) ==> marked == id && at == idx
  {}

  lemma MarkAdvance(cfg: Config, s: State, t: State, h: nat, hd: Handler)
    requires WellFormed(cfg) && Advances(cfg, s, t, h, hd) && hd.Mark?
    ensures t.tables == M.MarkRow(s.tables, hd.id, hd.spec.idx)
  {}

  lemma QuietAdvanceKeepsTables(cfg: Config, s: State, t: State, h: nat, hd: Handler)
    requires WellFormed(cfg) && Advances(cfg, s, t, h, hd) && !ChangesTables(hd)
    ensures t.tables == s.tables
  {}

  lemma FlagSetByMark(cfg: Config, s: State, t: State, h: nat, hd: Handler, id: nat, idx: int)
    requires WellFormed(cfg) && M.Schema(s.tables) && Advances(cfg, s, t, h, hd)
    ensures FlagFlips(s.tables, t.tables, id, idx) ==> hd.Mark? && hd.id == id && hd.spec.idx == idx
  {
    if !ChangesTables(hd) {
      QuietAdvanceKeepsTables(cfg, s, t, h, hd);
    } else if hd.Init? {
      RegisterFlipsNothing(s.tables, hd.reg, id, idx);
    } else if hd.Mark? {
      MarkAdvance(cfg, s, t, h, hd);
      MarkFlipsOne(s.tables, hd.id, hd.spec.idx, id, idx);
    } else if hd.DelFan? {
      DeleteFlipsNothing(s.tables, hd.name, id, idx);
    }
  }

  /** Between two looks at a file that was not deleted in between, its missing list only
      shrinks, and both lists are strictly ascending. */
  lemma MissingShrinks(cfg: Config, run: seq<State>, i: nat, j: nat, id: nat, before: seq<int>, after: seq<int>)
    requires WellFormed(cfg) && IsRun(cfg, run) && i <= j < |run|
    requires id in run[i].tables.files && id in run[j].tables.files
    requires M.Lists(before, M.PendingSet(run[i].tables, id)) && M.Lists(after, M.PendingSet(run[j].tables, id))
    ensures M.Ascending(before) && M.Ascending(after)
    ensures forall x | x in after :: x in before
    ensures |after| <= |before|
  {
    RunGrows(cfg, run, i, j);
    RunInv(cfg, run, i);
    var a, b := run[i].tables.blocks[id], run[j].tables.blocks[id];
    assert RowsGrow(a, b);
    forall x | x in after ensures x in before {
      assert x in M.PendingSet(run[j].tables, id);
      assert x in M.PendingSet(run[i].tables, id);
    }
    SubsetLength(after, before);
  }

  lemma SubsetLength(p: seq<int>, q: seq<int>)
    requires M.Ascending(p) && (forall x | x in p :: x in q)
    ensures |p| <= |q|
  {
    var ps, qs := set x | x in p, set x | x in q;
    DistinctSize(p);
    SizeBound(q);
    assert ps <= qs;
    Subset(ps, qs);
  }

  lemma {:induction false} DistinctSize<X>(p: seq<X>)
    requires Distinct(p)
    ensures |set x | x in p| == |p|
  {
    if p != [] {
      DistinctSize(p[1..]);
      assert (set x | x in p) == (set x | x in p[1..]) + {p[0]};
      assert p[0] !in p[1..];
    }
  }

  lemma {:induction false} SizeBound<X>(q: seq<X>)
    ensures |set x | x in q| <= |q|
  {
    if q != [] {
      SizeBound(q[1..]);
      assert (set x | x in q) == (set x | x in q[1..]) + {q[0]};
    }
  }

  lemma Subset<X>(a: set<X>, b: set<X>)
    requires a <= b
    ensures |a| <= |b|
  {
    assert b == a + (b - a);
  }

  // ----- durability -----

  /** A block a node has accepted is still on its disk at any later time, unless a DELETE of it
      reached that node after its PUT began; what is on disk always hashes to its id. */
  lemma Durability(cfg: Config, run: seq<State>, i: nat, j: nat, n: Node, a: N.Accept)
    requires WellFormed(cfg) && IsRun(cfg, run) && i <= j < |run|
    requires n in run[i].nodes && a in run[i].nodes[n].accepted
    ensures n in run[j].nodes && a.mark <= N.Deleted(run[j].nodes[n], a.id)
    ensures N.Deleted(run[j].nodes[n], a.id) == a.mark ==> a.id in run[j].nodes[n].disk
    ensures forall h | h in run[j].nodes[n].disk :: cfg.sha(run[j].nodes[n].disk[h]) == h
  {
    RunGrows(cfg, run, i, j);
    RunInv(cfg, run, j);
    assert NodeGrows(run[i].nodes[n], run[j].nodes[n]);
    assert N.Kept(cfg.sha, run[j].nodes[n], a);
  }

  ghost function NodeReply(s: State, h: Hash): Node -> T.Reply {
    n => if n !in s.nodes || !s.nodes[n].up then T.NoReply
         else if h in s.nodes[n].disk then T.Body(s.nodes[n].disk[h])
         else T.Status(404)
  }

  /** None of the DELETEs a node has served came after the PUT it acknowledged. */
  ghost predicate Undeleted(s: State, spec: M.BlockSpec, e: Entry) {
    forall a | a in e.acks :: a.node in s.nodes && N.Deleted(s.nodes[a.node], spec.sha) == a.mark
  }

  lemma SomeAckOutside(acks: seq<Ack>, outages: set<Node>) returns (a: Ack)
    requires Distinct(AckNodes(acks)) && |outages| < |acks|
    ensures a in acks && a.node !in outages
  {
    DistinctSize(AckNodes(acks));
    var nodes := set x | x in AckNodes(acks);
    if nodes <= outages { Subset(nodes, outages); }
    var n :| n in nodes && n !in outages;
    var i :| 0 <= i < |AckNodes(acks)| && AckNodes(acks)[i] == n;
    a := acks[i];
  }

  lemma ReplicasDistinct(cfg: Config, h: Hash)
    requires WellFormed(cfg) && Distinct(cfg.nodes)
    ensures Distinct(Replicas(cfg, h))
  {
    assert P.IsRanking(cfg.score(h), cfg.nodes, cfg.pick(h));
    P.SamePermutation(cfg.nodes, cfg.pick(h));
  }

  ghost predicate Readable(cfg: Config, s: State, b: M.BlockSpec) {
    var c := T.FirstServed(Tried(cfg, b), NodeReply(s, b.sha));
    c.Some? && cfg.sha(c.value) == b.sha && c.value in s.bodies
  }

  /** A node that accepted the block, is up, and has served no DELETE of it since, serves it. */
  lemma AckServes(cfg: Config, s: State, spec: M.BlockSpec, body: Bytes, a: Ack)
    requires NodesInv(cfg, s.nodes, s.bodies) && Acked(s.nodes, spec, body, a)
    requires s.nodes[a.node].up && N.Deleted(s.nodes[a.node], spec.sha) == a.mark
    ensures NodeReply(s, spec.sha)(a.node).Body?
  {
    assert N.Kept(cfg.sha, s.nodes[a.node], N.Accept(spec.sha, body, a.mark));
  }

  lemma ServedIsStored(cfg: Config, s: State, h: Hash, tried: seq<Node>)
    requires NodesInv(cfg, s.nodes, s.bodies) && T.FirstServed(tried, NodeReply(s, h)).Some?
    ensures var c := T.FirstServed(tried, NodeReply(s, h)).value; cfg.sha(c) == h && c in s.bodies
  {
    T.ServedIfAnyServes(tried, NodeReply(s, h));
    var n :| n in tried && NodeReply(s, h)(n) == T.Body(T.FirstServed(tried, NodeReply(s, h)).value);
    assert N.Inv(cfg.sha, s.nodes[n]) && Known(s.nodes[n], s.bodies);
  }

  lemma BlockSurvives(cfg: Config, s: State, spec: M.BlockSpec, e: Entry, outages: set<Node>)
    requires WellFormed(cfg) && NodesInv(cfg, s.nodes, s.bodies)
    requires Distinct(spec.nodes) && Vouched(cfg, s.nodes, spec, e) && Undeleted(s, spec, e)
    requires |outages| < |e.acks| && forall n | n in s.nodes && !s.nodes[n].up :: n in outages
    ensures Readable(cfg, s, spec)
  {
    var a := SomeAckOutside(e.acks, outages);
    assert Acked(s.nodes, spec, e.body, a);
    AckServes(cfg, s, spec, e.body, a);
    T.CandidatesCover(spec.nodes, cfg.pick(spec.sha));
    assert a.node in spec.nodes[..|spec.nodes|];
    T.ServedIfAnyServes(Tried(cfg, spec), NodeReply(s, spec.sha));
    ServedIsStored(cfg, s, spec.sha, Tried(cfg, spec));
  }

  /** Every block of the file was accepted by at least k replicas, none of which served a DELETE of
      it after that PUT began. */
  ghost predicate Survives(s: State, id: nat, k: nat)
    requires id in s.origin
  {
    forall b | b in s.origin[id].specs ::
      && id in s.ledger && b.idx in s.ledger[id]
      && |s.ledger[id][b.idx].acks| >= k && Undeleted(s, b, s.ledger[id][b.idx])
  }

  lemma BlockReadable(cfg: Config, s: State, id: nat, b: M.BlockSpec, k: nat, outages: set<Node>)
    requires WellFormed(cfg) && Inv(cfg, s) && Distinct(cfg.nodes)
    requires id in s.tables.files && s.tables.files[id].complete
    requires id in s.origin && b in s.origin[id].specs && Survives(s, id, k)
    requires |outages| < k && forall n | n in s.nodes && !s.nodes[n].up :: n in outages
    ensures Readable(cfg, s, b)
  {
    assert Holds(s.tables.blocks[id], s.origin[id].specs) && M.AllUploaded(s.tables.blocks[id]);
    assert VouchedAt(cfg, s.nodes, s.ledger, id, b.idx, s.tables.blocks[id][b.idx].spec);
    assert b.nodes == Replicas(cfg, b.sha);
    ReplicasDistinct(cfg, b.sha);
    BlockSurvives(cfg, s, b, s.ledger[id][b.idx], outages);
  }

  // ----- integrity -----

  ghost predicate Honest(cfg: Config, reg: M.Registration, data: Bytes)
    requires WellFormed(cfg)
  {
    reg.blockSize > 0 && reg == Placed(cfg.pick, cfg.replicas, C.ManifestOf(cfg.sha, reg.name, data, reg.blockSize))
  }

  /** SHA-256 has no collision between something ever sent to a node and a block of `data`. */
  ghost predicate NoCollision(cfg: Config, bodies: set<Bytes>, data: Bytes, blockSize: nat)
    requires blockSize > 0
  {
    forall b, c | b in bodies && c in C.Split(data, blockSize) && cfg.sha(b) == cfg.sha(c) :: b == c
  }

  lemma HonestSpecs(cfg: Config, reg: M.Registration, data: Bytes)
    requires WellFormed(cfg) && Honest(cfg, reg, data)
    ensures |reg.specs| == |C.Split(data, reg.blockSize)| && reg.size == |data|
    ensures forall i | 0 <= i < |reg.specs| ::
              reg.specs[i].idx == i && reg.specs[i].sha == cfg.sha(C.Split(data, reg.blockSize)[i])
              && reg.specs[i].size == |C.Split(data, reg.blockSize)[i]|
  {}

  /** A non-empty block list of an honest file is the registered list itself. */
  lemma HonestOrder(all: seq<M.BlockSpec>, specs: seq<M.BlockSpec>)
    requires forall i | 0 <= i < |all| :: all[i].idx == i
    requires Listed(all, specs) && specs != []
    ensures specs == all
  {
    var p := seq(|specs|, i requires 0 <= i < |specs| => specs[i].idx);
    var q := seq(|all|, i requires 0 <= i < |all| => all[i].idx);
    var indices := set x | x in q;
    forall x ensures x in p <==> x in q {
      if x in p {
        var i :| 0 <= i < |p| && p[i] == x;
        assert specs[i] in all;
        var j :| 0 <= j < |all| && all[j] == specs[i];
        assert q[j] == x;
      }
      if x in q {
        var j :| 0 <= j < |q| && q[j] == x;
        assert all[j] in specs;
        var i :| 0 <= i < |specs| && specs[i] == all[j];
        assert p[i] == x;
      }
    }
    M.ListsUnique(p, q, indices);
    forall i | 0 <= i < |specs| ensures specs[i] == all[i] {
      assert p[i] == q[i];
      assert specs[i] in all;
    }
  }

  lemma PartsAreChunks(cfg: Config, bodies: set<Bytes>, data: Bytes, blockSize: nat, parts: seq<Bytes>)
    requires blockSize > 0 && NoCollision(cfg, bodies, data, blockSize) && |parts| <= |C.Split(data, blockSize)|
    requires forall i | 0 <= i < |parts| ::
               parts[i] in bodies && cfg.sha(parts[i]) == cfg.sha(C.Split(data, blockSize)[i])
    ensures parts == C.Split(data, blockSize)[..|parts|]
  {
    forall i | 0 <= i < |parts| ensures parts[i] == C.Split(data, blockSize)[i] {
      assert C.Split(data, blockSize)[i] in C.Split(data, blockSize);
    }
  }

  lemma PrefixOfChunks(data: Bytes, blockSize: nat, k: nat, tail: Bytes)
    requires blockSize > 0 && k <= |C.Split(data, blockSize)|
    requires tail == [] || (k < |C.Split(data, blockSize)| && tail <= C.Split(data, blockSize)[k])
    ensures Flatten(C.Split(data, blockSize)[..k]) + tail <= data
    ensures k == |C.Split(data, blockSize)| ==> Flatten(C.Split(data, blockSize)[..k]) == data
  {
    var chunks := C.Split(data, blockSize);
    C.SplitFlattens(data, blockSize);
    assert chunks == chunks[..k] + chunks[k..];
    FlattenConcat(chunks[..k], chunks[k..]);
    if k == |chunks| {
      assert chunks[..k] == chunks;
    } else {
      assert Flatten(chunks[k..]) == chunks[k] + Flatten(chunks[k..][1..]);
    }
  }

  ghost predicate Streamed(cfg: Config, s: State, dl: Download, tail: Bytes) {
    DownloadInv(cfg, s, dl) && (tail == [] || exists c :: PartOf(cfg, s, dl, tail, c))
  }

  lemma StreamedHandler(cfg: Config, s: State, hd: Handler)
    requires WellFormed(cfg) && (hd.Send? || hd.GetReply?) && HandlerInv(cfg, s, hd)
    ensures Streamed(cfg, s, hd.dl, if hd.Send? then hd.partial else hd.tail)
  {
    if hd.Send? && hd.open.Some? { assert PartOf(cfg, s, hd.dl, hd.partial, hd.open.value); }
  }

  lemma StreamedIsPrefix(cfg: Config, s: State, dl: Download, tail: Bytes, data: Bytes)
    requires WellFormed(cfg) && Streamed(cfg, s, dl, tail)
    requires Honest(cfg, s.origin[dl.id], data) && NoCollision(cfg, s.bodies, data, s.origin[dl.id].blockSize)
    ensures Flatten(dl.parts) + tail <= data && dl.file.size == |data|
    ensures |dl.parts| == |s.origin[dl.id].specs| ==> tail == [] && Flatten(dl.parts) == data
  {
    var reg := s.origin[dl.id];
    var chunks := C.Split(data, reg.blockSize);
    HonestSpecs(cfg, reg, data);
    if dl.specs == [] {
      assert dl.parts == [];
    } else {
      HonestOrder(reg.specs, dl.specs);
    }
    if tail != [] {
      var c :| PartOf(cfg, s, dl, tail, c);
      assert chunks[|dl.parts|] in chunks;
      assert cfg.sha(c) == cfg.sha(chunks[|dl.parts|]);
    }
    PartsAreChunks(cfg, s.bodies, data, reg.blockSize, dl.parts);
    PrefixOfChunks(data, reg.blockSize, |dl.parts|, tail);
  }

  /** Over every interleaving and every failure: what a download of an honestly registered file
      has emitted is a prefix of the data, it is the data once it reaches the announced
      Content-Length, and a download that sent all registered blocks sent the data. */
  lemma DownloadIntegrity(cfg: Config, run: seq<State>, i: nat, h: nat, data: Bytes)
    requires WellFormed(cfg) && IsRun(cfg, run) && i < |run| && h in run[i].handlers
    requires run[i].handlers[h].Send? || run[i].handlers[h].GetReply?
    requires var dl := run[i].handlers[h].dl;
             dl.id in run[i].origin && Honest(cfg, run[i].origin[dl.id], data)
             && NoCollision(cfg, run[i].bodies, data, run[i].origin[dl.id].blockSize)
    ensures Emitted(run[i].handlers[h]) <= data
    ensures |Emitted(run[i].handlers[h])| == run[i].handlers[h].dl.file.size ==> Emitted(run[i].handlers[h]) == data
    ensures var dl := run[i].handlers[h].dl;
            |dl.parts| == |run[i].origin[dl.id].specs| ==> Emitted(run[i].handlers[h]) == data
  {
    RunInv(cfg, run, i);
    var hd := run[i].handlers[h];
    StreamedHandler(cfg, run[i], hd);
    var tail := if hd.Send? then hd.partial else hd.tail;
    StreamedIsPrefix(cfg, run[i], hd.dl, tail, data);
    assert Flatten(hd.dl.parts) + [] == Flatten(hd.dl.parts);
  }

  lemma ReadIsData(cfg: Config, reg: M.Registration, bodies: set<Bytes>, data: Bytes, parts: seq<Bytes>)
    requires WellFormed(cfg) && Honest(cfg, reg, data) && NoCollision(cfg, bodies, data, reg.blockSize)
    requires |parts| == |reg.specs|
    requires forall i | 0 <= i < |parts| :: cfg.sha(parts[i]) == reg.specs[i].sha && parts[i] in bodies
    ensures Flatten(parts) == data
  {
    HonestSpecs(cfg, reg, data);
    PartsAreChunks(cfg, bodies, data, reg.blockSize, parts);
    PrefixOfChunks(data, reg.blockSize, |parts|, []);
  }
}
