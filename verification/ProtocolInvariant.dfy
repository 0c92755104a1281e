/** The inductive invariant of the protocol. Handlers hold stale data; what makes that sound is
    `Grows`: every step only ever extends the history each handler's knowledge rests on. */
module ProtocolInvariant {
  import opened Basics
  import opened Protocol
  import M = Metastore
  import N = NodeStore

  // ----- tables -----

  /** The rows of a file are exactly the registered blocks, whatever their uploaded flags. */
  ghost predicate Holds(rows: map<int, M.BlockRow>, specs: seq<M.BlockSpec>) {
    && (forall i | i in rows :: rows[i].spec.idx == i && rows[i].spec in specs)
    && (forall b | b in specs :: b.idx in rows && rows[b.idx].spec == b)
  }

  ghost predicate SameFile(file: M.FileRow, reg: M.Registration) {
    file.name == reg.name && file.size == reg.size && file.sha == reg.sha && file.blockSize == reg.blockSize
  }

  ghost predicate TablesInv(cfg: Config, tables: M.Tables, origin: map<nat, M.Registration>)
    requires WellFormed(cfg)
  {
    && M.Schema(tables)
    && (forall id | id in origin :: id < tables.nextId && Admitted(cfg, origin[id]))
    && (forall id | id in tables.files ::
          id in origin && SameFile(tables.files[id], origin[id]) && Holds(tables.blocks[id], origin[id].specs))
  }

  // ----- nodes -----

  ghost predicate Known(n: N.NodeState, bodies: set<Bytes>) {
    && (forall h | h in n.disk :: n.disk[h] in bodies)
    && (forall p | p in n.puts :: n.puts[p].body in bodies)
    && (forall a | a in n.accepted :: a.body in bodies)
  }

  ghost predicate NodesInv(cfg: Config, nodes: map<Node, N.NodeState>, bodies: set<Bytes>) {
    forall n | n in nodes :: N.Inv(cfg.sha, nodes[n]) && Known(nodes[n], bodies)
  }

  // ----- acknowledgements -----

  function AckNodes(acks: seq<Ack>): seq<Node> {
    seq(|acks|, i requires 0 <= i < |acks| => acks[i].node)
  }

  ghost predicate Acked(nodes: map<Node, N.NodeState>, spec: M.BlockSpec, body: Bytes, a: Ack) {
    a.node in nodes && N.Accept(spec.sha, body, a.mark) in nodes[a.node].accepted
  }

  /** Each ack is a 2xx answer of one of the first `upTo` recorded replicas, none counted twice. */
  ghost predicate AcksInv(nodes: map<Node, N.NodeState>, spec: M.BlockSpec, body: Bytes, upTo: nat, acks: seq<Ack>) {
    && upTo <= |spec.nodes|
    && (forall a | a in acks :: a.node in spec.nodes[..upTo] && Acked(nodes, spec, body, a))
    && (Distinct(spec.nodes) ==> Distinct(AckNodes(acks)))
  }

  ghost predicate Matches(cfg: Config, spec: M.BlockSpec, body: Bytes) {
    cfg.sha(body) == spec.sha && |body| == spec.size
  }

  ghost predicate Vouched(cfg: Config, nodes: map<Node, N.NodeState>, spec: M.BlockSpec, e: Entry) {
    Matches(cfg, spec, e.body) && e.acks != [] && AcksInv(nodes, spec, e.body, |spec.nodes|, e.acks)
  }

  ghost predicate VouchedAt(
      cfg: Config, nodes: map<Node, N.NodeState>, ledger: map<nat, map<int, Entry>>, id: nat, i: int, spec: M.BlockSpec)
  {
    id in ledger && i in ledger[id] && Vouched(cfg, nodes, spec, ledger[id][i])
  }

  /** No stale marking: a set flag is backed by bytes of that very row, accepted by that row's nodes. */
  ghost predicate LedgerInv(
      cfg: Config, nodes: map<Node, N.NodeState>, tables: M.Tables, ledger: map<nat, map<int, Entry>>)
  {
    forall id, i | id in tables.blocks && i in tables.blocks[id] && tables.blocks[id][i].uploaded ::
      VouchedAt(cfg, nodes, ledger, id, i, tables.blocks[id][i].spec)
  }

  // ----- handlers -----

  ghost predicate Registered(s: State, id: nat, spec: M.BlockSpec) {
    id in s.origin && spec in s.origin[id].specs
  }

  /** `specs` is empty (the file vanished first) or the registered blocks in index order. */
  ghost predicate Listed(all: seq<M.BlockSpec>, specs: seq<M.BlockSpec>) {
    specs != [] ==>
      && (forall b :: b in specs <==> b in all)
      && (forall i, j | 0 <= i < j < |specs| :: specs[i].idx < specs[j].idx)
  }

  ghost predicate DownloadInv(cfg: Config, s: State, dl: Download) {
    && dl.id in s.origin && SameFile(dl.file, s.origin[dl.id])
    && Listed(s.origin[dl.id].specs, dl.specs)
    && |dl.parts| <= |dl.specs|
    && (forall i | 0 <= i < |dl.parts| :: cfg.sha(dl.parts[i]) == dl.specs[i].sha && dl.parts[i] in s.bodies)
  }

  /** `part` is the beginning of some stored content of the block being sent. */
  ghost predicate PartOf(cfg: Config, s: State, dl: Download, part: Bytes, content: Bytes) {
    && |dl.parts| < |dl.specs| && content in s.bodies
    && cfg.sha(content) == dl.specs[|dl.parts|].sha && part <= content
  }

  ghost predicate WaitInv(nodes: map<Node, N.NodeState>, spec: M.BlockSpec, body: Bytes, next: nat, p: nat) {
    && next < |spec.nodes| && spec.nodes[next] in nodes
    && p < nodes[spec.nodes[next]].nextPut
    && (p in nodes[spec.nodes[next]].puts ==>
          nodes[spec.nodes[next]].puts[p].id == spec.sha && nodes[spec.nodes[next]].puts[p].body == body)
  }

  ghost predicate HandlerInv(cfg: Config, s: State, hd: Handler)
    requires WellFormed(cfg)
  {
    match hd
    case Init(reg) => Admitted(cfg, reg)
    case InitMissing(id) => id in s.origin
    case InitReply(id, _) => id in s.origin
    case PutFound(id, _, _) => id in s.origin
    case Fan(id, spec, body, next, acks, wait) =>
      && Registered(s, id, spec) && Matches(cfg, spec, body) && AcksInv(s.nodes, spec, body, next, acks)
      && (wait.Some? ==> WaitInv(s.nodes, spec, body, next, wait.value))
    case Mark(id, spec, body, acks) => Registered(s, id, spec) && Vouched(cfg, s.nodes, spec, Entry(body, acks))
    case CommitFound(id) => id in s.origin
    case CommitCounted(id) => id in s.origin && M.AllUploaded(M.Rows(s.tables, id))
    case GetFound(id, file) => id in s.origin && SameFile(file, s.origin[id])
    case DelFound(name, id) => id in s.origin && s.origin[id].name == name
    case DelFan(name, id, _) => id in s.origin && s.origin[id].name == name
    case Send(dl, _, open, partial) =>
      DownloadInv(cfg, s, dl) && if open.Some? then PartOf(cfg, s, dl, partial, open.value) else partial == []
    case GetReply(dl, tail) =>
      DownloadInv(cfg, s, dl) && (tail == [] || exists c :: PartOf(cfg, s, dl, tail, c))
    case _ => true
  }

  ghost predicate Inv(cfg: Config, s: State)
    requires WellFormed(cfg)
  {
    && TablesInv(cfg, s.tables, s.origin) && NodesInv(cfg, s.nodes, s.bodies)
    && LedgerInv(cfg, s.nodes, s.tables, s.ledger)
    && forall h | h in s.handlers :: HandlerInv(cfg, s, s.handlers[h])
  }

  // ----- what never shrinks -----

  ghost predicate NodeGrows(n: N.NodeState, m: N.NodeState) {
    && n.accepted <= m.accepted && n.nextPut <= m.nextPut
    && (forall p | p in m.puts && p < n.nextPut ::
          p in n.puts && n.puts[p].id == m.puts[p].id && n.puts[p].body == m.puts[p].body)
    && (forall h :: N.Deleted(n, h) <= N.Deleted(m, h))
  }

  ghost predicate RowsGrow(a: map<int, M.BlockRow>, b: map<int, M.BlockRow>) {
    a.Keys == b.Keys && forall i | i in a :: a[i].spec == b[i].spec && (a[i].uploaded ==> b[i].uploaded)
  }

  ghost predicate NodesGrow(a: map<Node, N.NodeState>, b: map<Node, N.NodeState>) {
    forall n | n in a :: n in b && NodeGrows(a[n], b[n])
  }

  /** Ids are never reused, and the rows of an id only lose blocks by losing all of them. */
  ghost predicate TablesGrow(t: M.Tables, u: M.Tables) {
    && t.nextId <= u.nextId
    && (forall id | id in u.files && id < t.nextId ::
          id in t.files && id in t.blocks && id in u.blocks && RowsGrow(t.blocks[id], u.blocks[id]))
  }

  ghost predicate OriginGrows(a: map<nat, M.Registration>, b: map<nat, M.Registration>) {
    forall id | id in a :: id in b && b[id] == a[id]
  }

  ghost predicate Grows(s: State, t: State) {
    && TablesGrow(s.tables, t.tables) && OriginGrows(s.origin, t.origin)
    && NodesGrow(s.nodes, t.nodes) && s.bodies <= t.bodies
  }

  // ----- what a handler knows stays true while others step -----

  lemma AckStable(
      a: map<Node, N.NodeState>, b: map<Node, N.NodeState>, spec: M.BlockSpec, body: Bytes, upTo: nat, acks: seq<Ack>)
    requires AcksInv(a, spec, body, upTo, acks) && NodesGrow(a, b)
    ensures AcksInv(b, spec, body, upTo, acks)
  {
    forall ack | ack in acks ensures Acked(b, spec, body, ack) {
      assert Acked(a, spec, body, ack);
      assert NodeGrows(a[ack.node], b[ack.node]);
    }
  }

  lemma FanStable(cfg: Config, s: State, t: State, hd: Handler)
    requires WellFormed(cfg) && Grows(s, t) && HandlerInv(cfg, s, hd) && (hd.Fan? || hd.Mark?)
    ensures HandlerInv(cfg, t, hd)
  {
    if hd.Fan? {
      AckStable(s.nodes, t.nodes, hd.spec, hd.body, hd.next, hd.acks);
      if hd.wait.Some? { assert NodeGrows(s.nodes[hd.spec.nodes[hd.next]], t.nodes[hd.spec.nodes[hd.next]]); }
    } else {
      AckStable(s.nodes, t.nodes, hd.spec, hd.body, |hd.spec.nodes|, hd.acks);
    }
  }

  lemma SendStable(cfg: Config, s: State, t: State, hd: Handler)
    requires WellFormed(cfg) && Grows(s, t) && HandlerInv(cfg, s, hd) && (hd.Send? || hd.GetReply?)
    ensures HandlerInv(cfg, t, hd)
  {
    assert DownloadInv(cfg, t, hd.dl);
    if hd.GetReply? && hd.tail != [] {
      var c :| PartOf(cfg, s, hd.dl, hd.tail, c);
      assert PartOf(cfg, t, hd.dl, hd.tail, c);
    }
  }

  lemma HandlerStable(cfg: Config, s: State, t: State, hd: Handler)
    requires WellFormed(cfg) && Grows(s, t) && HandlerInv(cfg, s, hd)
    requires TablesInv(cfg, s.tables, s.origin) && M.Schema(t.tables)
    ensures HandlerInv(cfg, t, hd)
  {
    if hd.Fan? || hd.Mark? {
      FanStable(cfg, s, t, hd);
    } else if hd.Send? || hd.GetReply? {
      SendStable(cfg, s, t, hd);
    } else if hd.CommitCounted? {
      CountStable(s.tables, t.tables, hd.id);
    }
  }

  lemma CountStable(t: M.Tables, u: M.Tables, id: nat)
    requires M.Schema(t) && M.Schema(u) && TablesGrow(t, u) && id < t.nextId && M.AllUploaded(M.Rows(t, id))
    ensures M.AllUploaded(M.Rows(u, id))
  {}

  // ----- tables steps -----

  lemma LedgerStable(
      cfg: Config, nodes: map<Node, N.NodeState>, nodes': map<Node, N.NodeState>, t: M.Tables, u: M.Tables,
      ledger: map<nat, map<int, Entry>>)
    requires LedgerInv(cfg, nodes, t, ledger) && NodesGrow(nodes, nodes') && TablesGrow(t, u)
    requires M.Schema(u)
    requires forall id, i | id in u.blocks && i in u.blocks[id] && u.blocks[id][i].uploaded ::
               id < t.nextId && t.blocks[id][i].uploaded
    ensures LedgerInv(cfg, nodes', u, ledger)
  {
    forall id, i | id in u.blocks && i in u.blocks[id] && u.blocks[id][i].uploaded
      ensures VouchedAt(cfg, nodes', ledger, id, i, u.blocks[id][i].spec)
    {
      assert RowsGrow(t.blocks[id], u.blocks[id]);
      var spec := t.blocks[id][i].spec;
      assert VouchedAt(cfg, nodes, ledger, id, i, spec);
      AckStable(nodes, nodes', spec, ledger[id][i].body, |spec.nodes|, ledger[id][i].acks);
    }
  }

  lemma SameNodes(nodes: map<Node, N.NodeState>)
    ensures NodesGrow(nodes, nodes)
  {}

  lemma RowsOfHolds(rows: map<int, M.BlockRow>, specs: seq<M.BlockSpec>)
    requires M.RowsOf(rows, specs)
    ensures Holds(rows, specs) && forall i | i in rows :: !rows[i].uploaded
  {
    forall k | k in rows ensures rows[k].spec.idx == k && rows[k].spec in specs && !rows[k].uploaded {
      var i :| 0 <= i < |specs| && specs[i].idx == k;
      assert specs[i] in specs;
    }
  }

  lemma CreatedFile(t: M.Tables, u: M.Tables, origin: map<nat, M.Registration>, reg: M.Registration, id: nat)
    requires M.Created(t, reg, u) && t.blocks.Keys == t.files.Keys && id in u.files
    requires id in t.files ==>
               id in origin && SameFile(t.files[id], origin[id]) && Holds(t.blocks[id], origin[id].specs)
    ensures var grown := origin[t.nextId := reg];
            id in grown && SameFile(u.files[id], grown[id]) && Holds(u.blocks[id], grown[id].specs)
  {
    RowsOfHolds(u.blocks[t.nextId], reg.specs);
    if id != t.nextId {
      assert u.files[id] == t.files[id] && u.blocks[id] == t.blocks[id];
    }
  }

  lemma CreateTables(cfg: Config, t: M.Tables, u: M.Tables, origin: map<nat, M.Registration>, reg: M.Registration)
    requires WellFormed(cfg) && TablesInv(cfg, t, origin) && Admitted(cfg, reg) && M.Created(t, reg, u) && M.Schema(u)
    ensures TablesInv(cfg, u, origin[t.nextId := reg]) && OriginGrows(origin, origin[t.nextId := reg])
  {
    assert t.nextId !in origin;
    forall id | id in u.files
      ensures var grown := origin[t.nextId := reg];
              id in grown && SameFile(u.files[id], grown[id]) && Holds(u.blocks[id], grown[id].specs)
    {
      CreatedFile(t, u, origin, reg, id);
    }
  }

  lemma CreateLedger(
      cfg: Config, nodes: map<Node, N.NodeState>, t: M.Tables, u: M.Tables, ledger: map<nat, map<int, Entry>>,
      reg: M.Registration)
    requires LedgerInv(cfg, nodes, t, ledger) && M.Schema(t) && M.Created(t, reg, u)
    ensures LedgerInv(cfg, nodes, u, ledger) && TablesGrow(t, u)
  {
    RowsOfHolds(u.blocks[t.nextId], reg.specs);
    forall id | id in u.blocks && id != t.nextId ensures id in t.blocks && u.blocks[id] == t.blocks[id] {}
  }

  lemma MarkTables(cfg: Config, t: M.Tables, origin: map<nat, M.Registration>, id: nat, spec: M.BlockSpec)
    requires WellFormed(cfg) && TablesInv(cfg, t, origin)
    requires id in origin && spec in origin[id].specs && spec.idx in M.Rows(t, id)
    ensures TablesInv(cfg, M.MarkRow(t, id, spec.idx), origin) && TablesGrow(t, M.MarkRow(t, id, spec.idx))
    ensures t.blocks[id][spec.idx].spec == spec
  {
    M.MarkKeepsSchema(t, id, spec.idx);
    assert Holds(t.blocks[id], origin[id].specs);
    MarkedHolds(t.blocks[id], origin[id].specs, spec.idx);
  }

  lemma MarkedHolds(rows: map<int, M.BlockRow>, specs: seq<M.BlockSpec>, idx: int)
    requires Holds(rows, specs) && idx in rows
    ensures Holds(M.Marked(rows, idx), specs) && RowsGrow(rows, M.Marked(rows, idx))
  {}

  lemma MarkLedger(
      cfg: Config, nodes: map<Node, N.NodeState>, t: M.Tables, ledger: map<nat, map<int, Entry>>, id: nat,
      spec: M.BlockSpec, e: Entry)
    requires LedgerInv(cfg, nodes, t, ledger) && Vouched(cfg, nodes, spec, e)
    requires spec.idx in M.Rows(t, id) && t.blocks[id][spec.idx].spec == spec
    ensures LedgerInv(cfg, nodes, M.MarkRow(t, id, spec.idx), Recorded(ledger, id, spec.idx, e))
  {
    var u := M.MarkRow(t, id, spec.idx);
    forall k, i | k in u.blocks && i in u.blocks[k] && u.blocks[k][i].uploaded
      ensures VouchedAt(cfg, nodes, Recorded(ledger, id, spec.idx, e), k, i, u.blocks[k][i].spec)
    {
      if !(k == id && i == spec.idx) {
        assert VouchedAt(cfg, nodes, ledger, k, i, t.blocks[k][i].spec);
      }
    }
  }

  lemma CompleteCase(
      cfg: Config, nodes: map<Node, N.NodeState>, t: M.Tables, origin: map<nat, M.Registration>,
      ledger: map<nat, map<int, Entry>>, id: nat)
    requires WellFormed(cfg) && TablesInv(cfg, t, origin) && LedgerInv(cfg, nodes, t, ledger)
    requires M.AllUploaded(M.Rows(t, id))
    ensures TablesInv(cfg, M.SetComplete(t, id), origin) && TablesGrow(t, M.SetComplete(t, id))
    ensures LedgerInv(cfg, nodes, M.SetComplete(t, id), ledger)
  {
    assert forall i :: i !in M.PendingSet(t, id);
    M.CompleteKeepsSchema(t, id);
    assert M.SetComplete(t, id).blocks == t.blocks;
  }

  lemma DeleteCase(
      cfg: Config, nodes: map<Node, N.NodeState>, t: M.Tables, origin: map<nat, M.Registration>,
      ledger: map<nat, map<int, Entry>>, name: string)
    requires WellFormed(cfg) && TablesInv(cfg, t, origin) && LedgerInv(cfg, nodes, t, ledger)
    ensures TablesInv(cfg, M.DeleteFile(t, name), origin) && TablesGrow(t, M.DeleteFile(t, name))
    ensures LedgerInv(cfg, nodes, M.DeleteFile(t, name), ledger)
  {
    M.DeleteKeepsSchema(t, name);
    var u := M.DeleteFile(t, name);
    forall id | id in u.files ensures id in t.files && u.files[id] == t.files[id] && u.blocks[id] == t.blocks[id] {}
  }

  // ----- node steps -----

  lemma NodeStepPuts(sha: Bytes -> Hash, n: N.NodeState, step: N.Step, p: nat)
    requires N.Enabled(n, step) && p in N.Apply(sha, n, step).puts && p < n.nextPut
    ensures var m := N.Apply(sha, n, step);
            p in n.puts && n.puts[p].id == m.puts[p].id && n.puts[p].body == m.puts[p].body
  {}

  lemma NodeStepGrows(sha: Bytes -> Hash, n: N.NodeState, step: N.Step)
    requires N.Enabled(n, step)
    ensures NodeGrows(n, N.Apply(sha, n, step))
  {
    var m := N.Apply(sha, n, step);
    forall p | p in m.puts && p < n.nextPut
      ensures p in n.puts && n.puts[p].id == m.puts[p].id && n.puts[p].body == m.puts[p].body
    {
      NodeStepPuts(sha, n, step, p);
    }
  }

  lemma NodeStepKnown(sha: Bytes -> Hash, n: N.NodeState, step: N.Step, bodies: set<Bytes>)
    requires N.Inv(sha, n) && N.Enabled(n, step) && Known(n, bodies)
    ensures Known(N.Apply(sha, n, step), if step.Begin? then bodies + {step.body} else bodies)
  {
    if step.Publish? { assert N.PutInv(sha, n, step.p); }
  }

  lemma OneNodeSteps(cfg: Config, nodes: map<Node, N.NodeState>, bodies: set<Bytes>, n: Node, step: N.Step)
    requires NodesInv(cfg, nodes, bodies) && n in nodes && N.Enabled(nodes[n], step)
    ensures NodesGrow(nodes, nodes[n := N.Apply(cfg.sha, nodes[n], step)])
    ensures NodesInv(cfg, nodes[n := N.Apply(cfg.sha, nodes[n], step)],
                     if step.Begin? then bodies + {step.body} else bodies)
  {
    var more := if step.Begin? then bodies + {step.body} else bodies;
    N.StepKeepsInv(cfg.sha, nodes[n], step);
    NodeStepGrows(cfg.sha, nodes[n], step);
    NodeStepKnown(cfg.sha, nodes[n], step, bodies);
    forall k | k in nodes && k != n ensures N.Inv(cfg.sha, nodes[k]) && Known(nodes[k], more) {}
  }

  lemma SameTables(t: M.Tables)
    requires M.Schema(t)
    ensures TablesGrow(t, t)
  {}

  lemma NodeCase(cfg: Config, s: State, t: State, n: Node, step: N.Step, handlers: map<nat, Handler>)
    requires WellFormed(cfg) && NodeSteps(cfg, s, t, n, step, handlers)
    requires M.Schema(s.tables) && NodesInv(cfg, s.nodes, s.bodies) && LedgerInv(cfg, s.nodes, s.tables, s.ledger)
    ensures Grows(s, t) && NodesInv(cfg, t.nodes, t.bodies) && LedgerInv(cfg, t.nodes, t.tables, t.ledger)
  {
    OneNodeSteps(cfg, s.nodes, s.bodies, n, step);
    SameTables(s.tables);
    LedgerStable(cfg, s.nodes, t.nodes, s.tables, t.tables, s.ledger);
  }
}
