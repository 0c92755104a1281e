/** Runs that exist: an honest file that is uploaded, committed and downloaded, and a delete handler
    that removes a file it never looked up. */
module Witnesses {
  import opened Basics
  import opened Downloads
  import opened Protocol
  import opened ProtocolInvariant
  import opened ProtocolSteps
  import opened ProtocolTheorems
  import opened Staleness
  import opened Traces
  import C = Chunking
  import Client
  import K = Cluster
  import M = Metastore
  import N = NodeStore
  import P = Placement
  import Serving
  import T = Transfer

  // ----- a whole upload -----

  const PERFECT: nat -> K.Link := _ => K.Replies(N.NoFault)

  /** Every configured node is there and up, and nothing has been deleted anywhere. */
  ghost predicate AllUp(cfg: Config, s: State) {
    && K.Sound(cfg.sha, s.nodes)
    && (forall n | n in cfg.nodes :: n in s.nodes)
    && forall n | n in s.nodes :: s.nodes[n].up && s.nodes[n].deleted == map[]
  }

  lemma FirstReplica(cfg: Config, h: Hash)
    requires WellFormed(cfg)
    ensures Replicas(cfg, h) != [] && Replicas(cfg, h)[0] in cfg.nodes
  {
    assert P.IsRanking(cfg.score(h), cfg.nodes, cfg.pick(h));
    P.SameLength(cfg.nodes, cfg.pick(h));
    assert Replicas(cfg, h)[0] == cfg.pick(h)[0];
  }

  lemma PerfectAnswer(cfg: Config, s: State, b: M.BlockSpec, body: Bytes)
    requires WellFormed(cfg) && AllUp(cfg, s) && b.nodes == Replicas(cfg, b.sha) && cfg.sha(body) == b.sha
    ensures T.Accepting(|b.nodes|, Answers(cfg, s, b, body, PERFECT)) != []
  {
    FirstReplica(cfg, b.sha);
    var put := Answers(cfg, s, b, body, PERFECT);
    assert put(0) == K.Reply(cfg.sha, s.nodes, b.nodes[0], b.sha, body, PERFECT(0));
    assert T.Accepts(put(0));
    T.SomeAccepts(|b.nodes|, put);
  }

  /** The file is registered as `reg` under `id`, and its blocks before k are uploaded. */
  ghost predicate UploadedTo(s: State, id: nat, reg: M.Registration, k: nat) {
    && M.Schema(s.tables) && Client.HasBlocks(s.tables, id, reg) && id in s.origin && s.origin[id] == reg
    && M.PendingSet(s.tables, id) == Below(|reg.specs|) - Below(k)
    && forall h | h in s.handlers :: h <= k
  }

  lemma UploadedNext(t: M.Tables, id: nat, reg: M.Registration, k: nat)
    requires M.Schema(t) && Client.HasBlocks(t, id, reg) && k < |reg.specs|
             && M.PendingSet(t, id) == Below(|reg.specs|) - Below(k)
    ensures var u := M.MarkRow(t, id, k);
            M.Schema(u) && Client.HasBlocks(u, id, reg) && M.PendingSet(u, id) == Below(|reg.specs|) - Below(k + 1)
  {
    M.MarkKeepsSchema(t, id, k);
    Client.MarkHasBlocks(t, id, reg, k);
    assert Below(|reg.specs|) - Below(k + 1) == Below(|reg.specs|) - Below(k) - {k};
  }

  lemma PerfectStatus(cfg: Config, s: State, id: nat, reg: M.Registration, k: nat, chunk: Bytes)
    requires WellFormed(cfg) && AllUp(cfg, s) && UploadedTo(s, id, reg, k) && k < |reg.specs|
    requires Matches(cfg, reg.specs[k], chunk) && reg.specs[k].nodes == Replicas(cfg, reg.specs[k].sha)
    ensures var heard := Heard(cfg, s, reg.name, k, chunk, PERFECT);
            Client.Coordinator.UploadStatus(cfg.sha, s.tables, reg.name, k, chunk, heard) == 200
  {
    assert k in M.PendingSet(s.tables, id);
    PerfectAnswer(cfg, s, reg.specs[k], chunk);
  }

  lemma LeftUp(cfg: Config, s: State, t: State, h: nat, status: int, tables: M.Tables)
    requires WellFormed(cfg) && AllUp(cfg, s) && Left(cfg, s, t, h, status, tables)
    ensures AllUp(cfg, t)
  {}

  lemma BlockTrace(cfg: Config, s: State, id: nat, reg: M.Registration, k: nat, chunk: Bytes) returns (t: State)
    requires WellFormed(cfg) && AllUp(cfg, s) && UploadedTo(s, id, reg, k) && k < |reg.specs|
    requires Matches(cfg, reg.specs[k], chunk) && reg.specs[k].nodes == Replicas(cfg, reg.specs[k].sha)
    ensures Reaches(cfg, s, t) && AllUp(cfg, t) && UploadedTo(t, id, reg, k + 1)
  {
    PerfectStatus(cfg, s, id, reg, k, chunk);
    t := UploadTrace(cfg, s, k + 1, reg.name, k, chunk, PERFECT);
    LeftUp(cfg, s, t, k + 1, 200, M.MarkRow(s.tables, id, k));
    UploadedNext(s.tables, id, reg, k);
  }

  lemma {:induction false} BlocksTrace(cfg: Config, s: State, id: nat, reg: M.Registration, k: nat, chunks: seq<Bytes>)
      returns (t: State)
    requires WellFormed(cfg) && AllUp(cfg, s) && UploadedTo(s, id, reg, k) && k <= |reg.specs| == |chunks|
    requires forall i | 0 <= i < |chunks| ::
               Matches(cfg, reg.specs[i], chunks[i]) && reg.specs[i].nodes == Replicas(cfg, reg.specs[i].sha)
    ensures Reaches(cfg, s, t) && AllUp(cfg, t) && UploadedTo(t, id, reg, |reg.specs|)
    decreases |reg.specs| - k
  {
    if k == |reg.specs| {
      ReachesSelf(cfg, s);
      t := s;
    } else {
      var u := BlockTrace(cfg, s, id, reg, k, chunks[k]);
      t := BlocksTrace(cfg, u, id, reg, k + 1, chunks);
      Join(cfg, s, u, t);
    }
  }

  lemma BelowLists(n: nat) returns (order: seq<int>)
    ensures M.Lists(order, Below(n))
  {
    order := seq(n, i requires 0 <= i < n => i);
    forall x ensures x in order <==> x in Below(n) {
      if 0 <= x < n { assert order[x] == x; }
    }
  }

  lemma StartTables(t: M.Tables, reg: M.Registration)
    requires t == M.Tables(1, map[], map[]) && Client.Indexed(reg)
    ensures M.Register(t, reg).1.None? && M.Find(M.Register(t, reg).0, reg.name) == Some(1)
            && M.Register(t, reg).0.nextId == 2
    ensures var u := M.Register(t, reg).0;
            M.Schema(u) && Client.HasBlocks(u, 1, reg) && M.PendingSet(u, 1) == Below(|reg.specs|)
  {
    Client.InitHasBlocks(t, reg);
    Serving.AllMissing(t, reg);
    M.RegisterKeepsSchema(t, reg);
    M.DeleteUndoesCreated(t, reg, M.Register(t, reg).0);
  }

  lemma StartTrace(cfg: Config, s: State, reg: M.Registration) returns (t: State, id: nat)
    requires WellFormed(cfg) && Initial(cfg, s) && Admitted(cfg, reg) && Client.Indexed(reg)
    requires forall n | n in cfg.nodes :: n in s.nodes
    ensures Reaches(cfg, s, t) && AllUp(cfg, t) && UploadedTo(t, id, reg, 0)
  {
    StartTables(s.tables, reg);
    id := 1;
    var missing := BelowLists(|reg.specs|);
    InitTrace(cfg, s, 0, reg, missing);
    t := With(Inited(s, reg), 0, InitReply(id, missing));
    assert Below(|reg.specs|) - Below(0) == Below(|reg.specs|);
  }

  ghost function HonestReg(cfg: Config, data: Bytes, name: string, blockSize: nat): M.Registration {
    Placed(cfg.pick, cfg.replicas, C.ManifestOf(cfg.sha, name, data, blockSize))
  }

  lemma HonestIsAdmitted(cfg: Config, data: Bytes, name: string, blockSize: nat)
    requires WellFormed(cfg) && blockSize > 0 && forall b :: |cfg.sha(b)| == 64
    ensures var reg, chunks := HonestReg(cfg, data, name, blockSize), C.Split(data, blockSize);
            && Admitted(cfg, reg) && Client.Indexed(reg) && Honest(cfg, reg, data) && |reg.specs| == |chunks|
            && forall i | 0 <= i < |chunks| ::
                 Matches(cfg, reg.specs[i], chunks[i]) && reg.specs[i].nodes == Replicas(cfg, reg.specs[i].sha)
  {
    C.ChunksNonEmpty(data, blockSize);
  }

  lemma CommitAll(cfg: Config, s: State, id: nat, reg: M.Registration) returns (t: State)
    requires WellFormed(cfg) && AllUp(cfg, s) && UploadedTo(s, id, reg, |reg.specs|)
    ensures Reaches(cfg, s, t) && AllUp(cfg, t) && t.origin == s.origin
    ensures id in t.tables.files && t.tables.files[id].complete
  {
    var h := |reg.specs| + 1;
    assert M.PendingSet(s.tables, id) == {};
    CommitTrace(cfg, s, h, reg.name);
    t := With(Committed(s, reg.name), h, Replied(Client.Coordinator.CommitStatus(s.tables, reg.name)));
  }

  lemma RunTo(cfg: Config, s: State, t: State) returns (run: seq<State>)
    requires WellFormed(cfg) && Initial(cfg, s) && Reaches(cfg, s, t)
    ensures IsRun(cfg, run) && run[0] == s && run[|run| - 1] == t
  {
    run :| Connects(cfg, run, s, t);
  }

  /** Where nothing has ever been deleted, every block of a complete file survives. */
  lemma NothingDeleted(cfg: Config, s: State, id: nat)
    requires WellFormed(cfg) && Inv(cfg, s) && AllUp(cfg, s) && id in s.tables.files && s.tables.files[id].complete
    ensures id in s.origin && Survives(s, id, 1)
  {
    assert Holds(s.tables.blocks[id], s.origin[id].specs) && M.AllUploaded(s.tables.blocks[id]);
    forall b | b in s.origin[id].specs
      ensures id in s.ledger && b.idx in s.ledger[id] && |s.ledger[id][b.idx].acks| >= 1
              && Undeleted(s, b, s.ledger[id][b.idx])
    {
      assert VouchedAt(cfg, s.nodes, s.ledger, id, b.idx, s.tables.blocks[id][b.idx].spec);
      NoMarks(cfg, s, b, s.ledger[id][b.idx]);
    }
  }

  lemma NoMarks(cfg: Config, s: State, b: M.BlockSpec, e: Entry)
    requires AllUp(cfg, s) && Vouched(cfg, s.nodes, b, e)
    ensures Undeleted(s, b, e)
  {
    forall a | a in e.acks ensures a.node in s.nodes && N.Deleted(s.nodes[a.node], b.sha) == a.mark {
      assert Acked(s.nodes, b, e.body, a);
      assert N.Kept(cfg.sha, s.nodes[a.node], N.Accept(b.sha, e.body, a.mark));
    }
  }

  lemma HonestTrace(cfg: Config, s: State, data: Bytes, name: string, blockSize: nat) returns (t: State, id: nat)
    requires WellFormed(cfg) && Initial(cfg, s) && forall n | n in cfg.nodes :: n in s.nodes
    requires blockSize > 0 && forall b :: |cfg.sha(b)| == 64
    ensures Reaches(cfg, s, t) && AllUp(cfg, t) && id in t.tables.files && t.tables.files[id].complete
    ensures id in t.origin && t.origin[id] == HonestReg(cfg, data, name, blockSize)
  {
    var reg := HonestReg(cfg, data, name, blockSize);
    HonestIsAdmitted(cfg, data, name, blockSize);
    var a, b;
    a, id := StartTrace(cfg, s, reg);
    b := BlocksTrace(cfg, a, id, reg, 0, C.Split(data, blockSize));
    t := CommitAll(cfg, b, id, reg);
    Join(cfg, s, a, b);
    Join(cfg, s, b, t);
  }

  /** From any initial state with the configured nodes up, any file can be uploaded in blocks of any
      size, committed, and downloaded whole, all in one run. */
  lemma HonestFileReachable(cfg: Config, s: State, data: Bytes, name: string, blockSize: nat)
      returns (run: seq<State>, id: nat, h: nat)
    requires WellFormed(cfg) && Initial(cfg, s) && Distinct(cfg.nodes) && forall n | n in cfg.nodes :: n in s.nodes
    requires blockSize > 0 && forall b :: |cfg.sha(b)| == 64
    ensures IsRun(cfg, run) && run[0] == s
    ensures var t := run[|run| - 1];
            && id in t.tables.files && t.tables.files[id].complete
            && id in t.origin && t.origin[id] == HonestReg(cfg, data, name, blockSize)
            && (NoCollision(cfg, t.bodies, data, blockSize) ==>
                  && h in t.handlers && t.handlers[h].GetReply? && t.handlers[h].dl.id == id
                  && Emitted(t.handlers[h]) == data)
  {
    var u, t;
    HonestIsAdmitted(cfg, data, name, blockSize);
    u, id := HonestTrace(cfg, s, data, name, blockSize);
    run := RunTo(cfg, s, u);
    h := FreshHandler(u.handlers.Keys);
    RunInv(cfg, run, |run| - 1);
    NothingDeleted(cfg, u, id);
    if NoCollision(cfg, u.bodies, data, blockSize) {
      t := FaultTolerance(cfg, run, |run| - 1, id, 1, {}, data, h);
      Join(cfg, s, u, t);
      run := RunTo(cfg, s, t);
    }
  }

  lemma {:induction false} FreshHandler(used: set<nat>) returns (h: nat)
    ensures forall k | k in used :: k < h
  {
    h := 0;
    if used != {} {
      var x :| x in used;
      var above := FreshHandler(used - {x});
      h := above + x + 1;
      forall k | k in used ensures k < h {
        assert k == x || k in used - {x};
      }
    }
  }

  // ----- a stale delete -----

  lemma BlocklessTables(t: M.Tables, reg: M.Registration)
    requires M.Schema(t) && M.Find(t, reg.name).None? && reg.specs == []
    ensures var u := M.Register(t, reg).0;
            && M.Register(t, reg).1.None? && M.Schema(u) && u.nextId == t.nextId + 1
            && M.Find(u, reg.name) == Some(t.nextId)
            && M.Rows(u, t.nextId) == map[] && u.files.Keys == t.files.Keys + {t.nextId}
            && M.DeleteFile(u, reg.name) == t.(nextId := t.nextId + 1)
  {
    M.RegisterKeepsSchema(t, reg);
    CreatedBlockless(t, reg, M.Register(t, reg).0);
  }

  lemma CreatedBlockless(t: M.Tables, reg: M.Registration, u: M.Tables)
    requires M.Schema(u) && M.Created(t, reg, u) && reg.specs == []
    ensures u.nextId == t.nextId + 1 && M.Find(u, reg.name) == Some(t.nextId) && M.Rows(u, t.nextId) == map[]
    ensures u.files.Keys == t.files.Keys + {t.nextId} && M.DeleteFile(u, reg.name) == t.(nextId := t.nextId + 1)
  {
    M.DeleteUndoesCreated(t, reg, u);
  }

  lemma Snoc(cfg: Config, path: seq<State>, step: Step, t: State) returns (more: seq<State>)
    requires WellFormed(cfg) && IsPath(cfg, path) && Does(cfg, path[|path| - 1], t, step)
    ensures IsPath(cfg, more) && more == path + [t]
  {
    more := path + [t];
    PathSnoc(cfg, path, path[0], path[|path| - 1], step, t);
  }

  /** A request to register a file without blocks, up to its commit. */
  lemma Registers(cfg: Config, path: seq<State>, h: nat, reg: M.Registration) returns (more: seq<State>)
    requires WellFormed(cfg) && IsPath(cfg, path) && Admitted(cfg, reg) && reg.specs == []
    requires var s := path[|path| - 1]; h !in s.handlers && M.Schema(s.tables) && M.Find(s.tables, reg.name).None?
    ensures IsPath(cfg, more)
    ensures var s := path[|path| - 1];
            more == path + [With(s, h, Init(reg)), With(Inited(s, reg), h, InitFound(reg.name))]
  {
    var s := path[|path| - 1];
    BlocklessTables(s.tables, reg);
    more := Snoc(cfg, path, Spawn(h, Init(reg)), With(s, h, Init(reg)));
    assert s.handlers[h := Init(reg)][h := InitFound(reg.name)] == s.handlers[h := InitFound(reg.name)];
    more := Snoc(cfg, more, Advance(h), With(Inited(s, reg), h, InitFound(reg.name)));
  }

  /** A DELETE request, up to its last statement; the file has no blocks. */
  lemma Looks(cfg: Config, path: seq<State>, h: nat, name: string, id: nat) returns (more: seq<State>)
    requires WellFormed(cfg) && IsPath(cfg, path)
    requires var s := path[|path| - 1];
             h !in s.handlers && M.Find(s.tables, name) == Some(id) && M.Rows(s.tables, id) == map[]
    ensures IsPath(cfg, more)
    ensures var s := path[|path| - 1];
            more == path + [With(s, h, Del(name)), With(s, h, DelFound(name, id)), With(s, h, DelFan(name, id, []))]
  {
    var s := path[|path| - 1];
    more := Snoc(cfg, path, Spawn(h, Del(name)), With(s, h, Del(name)));
    WithTwice(s, h, Del(name), DelFound(name, id));
    more := Snoc(cfg, more, Advance(h), With(s, h, DelFound(name, id)));
    WithTwice(s, h, DelFound(name, id), DelFan(name, id, []));
    assert Specs(M.Rows(s.tables, id), []) == [];
    more := Snoc(cfg, more, Ordered(h, []), With(s, h, DelFan(name, id, [])));
  }

  lemma Finishes(cfg: Config, path: seq<State>, h: nat, name: string, id: nat) returns (more: seq<State>)
    requires WellFormed(cfg) && IsPath(cfg, path)
    requires var s := path[|path| - 1];
             h in s.handlers && s.handlers[h] == DelFan(name, id, []) && M.Find(s.tables, name).Some?
    ensures IsPath(cfg, more)
    ensures var s := path[|path| - 1];
            more == path + [With(s.(tables := M.DeleteFile(s.tables, name)), h, Replied(204))]
  {
    var s := path[|path| - 1];
    more := Snoc(cfg, path, Advance(h), With(s.(tables := M.DeleteFile(s.tables, name)), h, Replied(204)));
  }

  /** The only file has no blocks and goes by `name`. */
  ghost predicate OnlyFile(t: M.Tables, name: string, id: nat) {
    && M.Schema(t) && M.Find(t, name) == Some(id) && M.Rows(t, id) == map[] && t.files.Keys == {id}
    && M.DeleteFile(t, name) == M.Tables(id + 1, map[], map[])
  }

  lemma RegistersOnly(cfg: Config, path: seq<State>, h: nat, reg: M.Registration, id: nat) returns (more: seq<State>)
    requires WellFormed(cfg) && IsPath(cfg, path) && Admitted(cfg, reg) && reg.specs == []
    requires path[|path| - 1].tables == M.Tables(id, map[], map[]) && h !in path[|path| - 1].handlers
    ensures IsPath(cfg, more) && |more| == |path| + 2 && more[..|path|] == path
    ensures var t := more[|more| - 1];
            && t.handlers == path[|path| - 1].handlers[h := InitFound(reg.name)]
            && OnlyFile(t.tables, reg.name, id) && id in t.origin && t.origin[id] == reg
  {
    var s := path[|path| - 1];
    more := Registers(cfg, path, h, reg);
    BlocklessTables(s.tables, reg);
  }

  lemma LooksOnly(cfg: Config, path: seq<State>, h: nat, name: string, id: nat) returns (more: seq<State>)
    requires WellFormed(cfg) && IsPath(cfg, path) && OnlyFile(path[|path| - 1].tables, name, id)
             && h !in path[|path| - 1].handlers
    ensures IsPath(cfg, more) && |more| == |path| + 3 && more[..|path|] == path
    ensures var s, n := path[|path| - 1], |path|;
            && more[n] == With(s, h, Del(name)) && more[n + 1] == With(s, h, DelFound(name, id))
            && more[n + 2] == With(s, h, DelFan(name, id, []))
  {
    more := Looks(cfg, path, h, name, id);
  }

  /** Handler 1 has looked the file up and is about to delete by its name. */
  lemma OneLookup(cfg: Config, s: State, reg: M.Registration) returns (path: seq<State>)
    requires WellFormed(cfg) && Initial(cfg, s) && Admitted(cfg, reg) && reg.specs == []
    ensures IsPath(cfg, path) && |path| == 6 && path[0] == s
    ensures 1 in path[3].handlers && path[3].handlers[1] == Del(reg.name) && M.Find(path[3].tables, reg.name) == Some(1)
    ensures 1 in path[4].handlers && path[4].handlers[1] == DelFound(reg.name, 1)
    ensures OnlyFile(path[5].tables, reg.name, 1) && path[5].handlers.Keys == {0, 1}
            && path[5].handlers[1] == DelFan(reg.name, 1, [])
  {
    var p3 := RegistersOnly(cfg, [s], 0, reg, 1);
    path := LooksOnly(cfg, p3, 1, reg.name, 1);
    assert path[0] == p3[0] && path[2] == p3[2];
  }

  /** Handler 2 has done the same since, and finished. */
  lemma TwoDeletes(cfg: Config, s: State, reg: M.Registration) returns (path: seq<State>)
    requires WellFormed(cfg) && Initial(cfg, s) && Admitted(cfg, reg) && reg.specs == []
    ensures IsPath(cfg, path) && |path| == 10 && path[0] == s
    ensures 1 in path[3].handlers && path[3].handlers[1] == Del(reg.name) && M.Find(path[3].tables, reg.name) == Some(1)
    ensures 1 in path[4].handlers && path[4].handlers[1] == DelFound(reg.name, 1)
    ensures path[9].tables == M.Tables(2, map[], map[]) && path[9].handlers.Keys == {0, 1, 2}
    ensures path[9].handlers[1] == DelFan(reg.name, 1, [])
  {
    var p6 := OneLookup(cfg, s, reg);
    var p9 := LooksOnly(cfg, p6, 2, reg.name, 1);
    path := Finishes(cfg, p9, 2, reg.name, 1);
    assert path[..6] == p6 && path[8] == p9[8];
    assert path[0] == path[..6][0] && path[3] == path[..6][3] && path[4] == path[..6][4];
  }

  /** A second file is registered under the name, then handler 1 finishes: what it removes is the
      second file, which it never looked up. */
  lemma StaleDeleteRun(cfg: Config, s: State, first: M.Registration, second: M.Registration) returns (run: seq<State>)
    requires WellFormed(cfg) && Initial(cfg, s) && Admitted(cfg, first) && Admitted(cfg, second)
    requires first.specs == [] == second.specs && first.name == second.name
    ensures IsRun(cfg, run) && |run| == 13
    ensures 1 in run[3].handlers && run[3].handlers[1] == Del(first.name)
            && M.Find(run[3].tables, first.name) == Some(1)
    ensures 1 in run[4].handlers && run[4].handlers[1] == DelFound(first.name, 1)
    ensures 1 in run[11].handlers && run[11].handlers[1] == DelFan(first.name, 1, [])
    ensures 2 in run[11].origin && run[11].origin[2] == second
    ensures Advances(cfg, run[11], run[12], 1, run[11].handlers[1]) && Removed(run[11], run[12]) == {2}
  {
    var p10 := TwoDeletes(cfg, s, first);
    var p12 := RegistersOnly(cfg, p10, 3, second, 2);
    run := Finishes(cfg, p12, 1, first.name, 1);
    assert run[0] == p10[0] && run[3] == p10[3] && run[4] == p10[4] && run[11] == p12[11];
    RemovedByName(cfg, run[11], run[12], 1, first.name);
  }
}
