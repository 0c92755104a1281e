/** Every step of the protocol keeps the invariant, hence every reachable state has it. */
module ProtocolSteps {
  import opened Basics
  import opened Protocol
  import opened ProtocolInvariant
  import M = Metastore
  import N = NodeStore

  ghost predicate OnlyHandler(s: State, t: State, h: nat) {
    forall k | k in t.handlers && k != h :: k in s.handlers && t.handlers[k] == s.handlers[k]
  }

  /** A step that acts for handler `h` only has to justify that handler's new state. */
  lemma Compose(cfg: Config, s: State, t: State, h: nat)
    requires WellFormed(cfg) && Inv(cfg, s) && Grows(s, t)
    requires TablesInv(cfg, t.tables, t.origin) && NodesInv(cfg, t.nodes, t.bodies)
             && LedgerInv(cfg, t.nodes, t.tables, t.ledger)
    requires OnlyHandler(s, t, h)
    requires h in t.handlers ==> HandlerInv(cfg, t, t.handlers[h])
    ensures Inv(cfg, t) && Grows(s, t)
  {
    forall k | k in t.handlers ensures HandlerInv(cfg, t, t.handlers[k]) {
      if k != h { HandlerStable(cfg, s, t, s.handlers[k]); }
    }
  }

  lemma Quiet(cfg: Config, s: State, t: State, h: nat, hd: Handler)
    requires WellFormed(cfg) && Inv(cfg, s) && Goes(s, t, h, hd) && HandlerInv(cfg, s, hd)
    ensures Inv(cfg, t) && Grows(s, t)
  {
    SameTables(s.tables);
    SameNodes(s.nodes);
    HandlerStable(cfg, s, t, hd);
    Compose(cfg, s, t, h);
  }

  // ----- Advance -----

  lemma FindRegistered(cfg: Config, s: State, name: string)
    requires WellFormed(cfg) && TablesInv(cfg, s.tables, s.origin)
    ensures M.Find(s.tables, name).Some? ==>
              M.Find(s.tables, name).value in s.origin
              && SameFile(s.tables.files[M.Find(s.tables, name).value], s.origin[M.Find(s.tables, name).value])
  {}

  lemma AdmitInv(cfg: Config, s: State, id: nat, idx: int, body: Bytes)
    requires WellFormed(cfg) && TablesInv(cfg, s.tables, s.origin) && id in s.origin
    ensures HandlerInv(cfg, s, Admit(cfg, M.Rows(s.tables, id), id, idx, body))
  {
    var rows := M.Rows(s.tables, id);
    if idx in rows {
      assert Holds(rows, s.origin[id].specs);
      assert AckNodes([]) == [];
    }
  }

  lemma FanEnd(cfg: Config, s: State, hd: Handler)
    requires WellFormed(cfg) && HandlerInv(cfg, s, hd) && FanDone(hd) && hd.acks != []
    ensures HandlerInv(cfg, s, Mark(hd.id, hd.spec, hd.body, hd.acks))
  {}

  lemma SendNext(cfg: Config, s: State, hd: Handler)
    requires WellFormed(cfg) && HandlerInv(cfg, s, hd) && hd.Send?
    ensures HandlerInv(cfg, s, GetReply(hd.dl, []))
    ensures hd.open == Some(hd.partial) ==>
            HandlerInv(cfg, s, Send(hd.dl.(parts := hd.dl.parts + [hd.partial]), 0, None, []))
  {
    if hd.open == Some(hd.partial) {
      assert PartOf(cfg, s, hd.dl, hd.partial, hd.partial);
    }
  }

  lemma CountEmpty(t: M.Tables, id: nat)
    requires M.PendingSet(t, id) == {}
    ensures M.AllUploaded(M.Rows(t, id))
  {
    forall i | i in M.Rows(t, id) ensures M.Rows(t, id)[i].uploaded {
      assert i !in M.PendingSet(t, id);
    }
  }

  predicate ChangesTables(hd: Handler) {
    hd.Init? || hd.Mark? || hd.CommitCounted? || hd.DelFan?
  }

  predicate LooksUp(hd: Handler) {
    hd.InitFound? || hd.Put? || hd.Commit? || hd.Get? || hd.Del?
  }

  lemma LookupHandler(cfg: Config, s: State, t: State, h: nat, hd: Handler)
    requires WellFormed(cfg) && TablesInv(cfg, s.tables, s.origin) && LooksUp(hd) && Advances(cfg, s, t, h, hd)
    ensures h in t.handlers && Goes(s, t, h, t.handlers[h]) && HandlerInv(cfg, s, t.handlers[h])
  {
    FindRegistered(cfg, s, hd.name);
  }

  lemma QuietHandler(cfg: Config, s: State, t: State, h: nat, hd: Handler)
    requires WellFormed(cfg) && TablesInv(cfg, s.tables, s.origin) && HandlerInv(cfg, s, hd)
             && Advances(cfg, s, t, h, hd)
    requires !ChangesTables(hd) && !LooksUp(hd)
    ensures h in t.handlers && Goes(s, t, h, t.handlers[h]) && HandlerInv(cfg, s, t.handlers[h])
  {
    match hd
    case PutFound(id, idx, body) => AdmitInv(cfg, s, id, idx, body);
    case Fan(_, _, _, _, acks, _) => if acks != [] { FanEnd(cfg, s, hd); }
    case CommitFound(id) => if M.PendingSet(s.tables, id) == {} { CountEmpty(s.tables, id); }
    case Send(_, _, _, _) => SendNext(cfg, s, hd);
  }

  lemma InitAdvance(cfg: Config, s: State, t: State, h: nat, reg: M.Registration)
    requires WellFormed(cfg) && Inv(cfg, s) && Admitted(cfg, reg) && Advances(cfg, s, t, h, Init(reg))
    ensures Inv(cfg, t) && Grows(s, t)
  {
    M.RegisterKeepsSchema(s.tables, reg);
    SameNodes(s.nodes);
    if t.tables.nextId == s.tables.nextId {
      SameTables(s.tables);
    } else {
      CreateTables(cfg, s.tables, t.tables, s.origin, reg);
      CreateLedger(cfg, s.nodes, s.tables, t.tables, s.ledger, reg);
    }
    Compose(cfg, s, t, h);
  }

  lemma TablesAdvance(cfg: Config, s: State, t: State, h: nat, hd: Handler)
    requires WellFormed(cfg) && HandlerInv(cfg, s, hd) && Advances(cfg, s, t, h, hd)
             && (hd.Mark? || hd.CommitCounted? || hd.DelFan?)
    requires TablesInv(cfg, s.tables, s.origin) && LedgerInv(cfg, s.nodes, s.tables, s.ledger)
    ensures TablesInv(cfg, t.tables, t.origin) && LedgerInv(cfg, t.nodes, t.tables, t.ledger) && Grows(s, t)
  {
    SameNodes(s.nodes);
    SameTables(s.tables);
    if hd.Mark? {
      if hd.spec.idx in M.Rows(s.tables, hd.id) {
        MarkTables(cfg, s.tables, s.origin, hd.id, hd.spec);
        MarkLedger(cfg, s.nodes, s.tables, s.ledger, hd.id, hd.spec, Entry(hd.body, hd.acks));
      }
    } else if hd.CommitCounted? {
      CompleteCase(cfg, s.nodes, s.tables, s.origin, s.ledger, hd.id);
    } else {
      DeleteCase(cfg, s.nodes, s.tables, s.origin, s.ledger, hd.name);
    }
  }

  /** The statements that write the tables, as what they make of tables, history and handler. */
  lemma TablesStep(cfg: Config, s: State, t: State, h: nat)
    requires WellFormed(cfg) && Inv(cfg, s) && Grows(s, t)
    requires TablesInv(cfg, t.tables, t.origin) && LedgerInv(cfg, t.nodes, t.tables, t.ledger)
    requires t.nodes == s.nodes && t.bodies == s.bodies
    requires h in t.handlers && t.handlers[h].Replied? && t.handlers == s.handlers[h := t.handlers[h]]
    ensures Inv(cfg, t) && Grows(s, t)
  {
    Compose(cfg, s, t, h);
  }

  lemma WritesTables(cfg: Config, s: State, t: State, h: nat, hd: Handler)
    requires WellFormed(cfg) && Advances(cfg, s, t, h, hd) && (hd.Mark? || hd.CommitCounted? || hd.DelFan?)
    ensures t.nodes == s.nodes && t.bodies == s.bodies
    ensures h in t.handlers && t.handlers[h].Replied? && t.handlers == s.handlers[h := t.handlers[h]]
  {}

  lemma QuietStep(cfg: Config, s: State, t: State, h: nat, hd: Handler)
    requires WellFormed(cfg) && Inv(cfg, s) && HandlerInv(cfg, s, hd) && !ChangesTables(hd)
    requires Advances(cfg, s, t, h, hd)
    ensures Inv(cfg, t) && Grows(s, t)
  {
    if LooksUp(hd) { LookupHandler(cfg, s, t, h, hd); } else { QuietHandler(cfg, s, t, h, hd); }
    Quiet(cfg, s, t, h, t.handlers[h]);
  }

  lemma AdvanceStep(cfg: Config, s: State, t: State, h: nat)
    requires WellFormed(cfg) && Inv(cfg, s) && h in s.handlers && Advances(cfg, s, t, h, s.handlers[h])
    ensures Inv(cfg, t) && Grows(s, t)
  {
    var hd := s.handlers[h];
    assert HandlerInv(cfg, s, hd);
    if hd.Init? {
      InitAdvance(cfg, s, t, h, hd.reg);
    } else if ChangesTables(hd) {
      TablesAdvance(cfg, s, t, h, hd);
      WritesTables(cfg, s, t, h, hd);
      TablesStep(cfg, s, t, h);
    } else {
      QuietStep(cfg, s, t, h, hd);
    }
  }

  // ----- ordered SELECTs -----

  lemma SpecsListed(rows: map<int, M.BlockRow>, all: seq<M.BlockSpec>, order: seq<int>)
    requires Holds(rows, all) && M.Lists(order, rows.Keys)
    ensures Listed(all, Specs(rows, order))
  {
    OrderInRows(rows, order);
    var specs := Specs(rows, order);
    forall b ensures b in specs <==> b in all {
      if b in specs {
        var k :| 0 <= k < |specs| && specs[k] == b;
        assert rows[order[k]].spec == b;
      }
      if b in all {
        assert b.idx in order;
        var k :| 0 <= k < |order| && order[k] == b.idx;
        assert specs[k] == b;
      }
    }
  }

  lemma ListsNothing(order: seq<int>)
    requires M.Lists(order, {})
    ensures order == []
  {
    M.ListsUnique(order, [], {});
  }

  lemma OrderedStep(cfg: Config, s: State, t: State, h: nat, order: seq<int>)
    requires WellFormed(cfg) && Inv(cfg, s) && Selects(s, t, h, order)
    ensures Inv(cfg, t) && Grows(s, t)
  {
    assert HandlerInv(cfg, s, s.handlers[h]);
    match s.handlers[h]
    case InitMissing(id) =>
      Quiet(cfg, s, t, h, InitReply(id, order));
    case GetFound(id, file) =>
      var rows := M.Rows(s.tables, id);
      if id in s.tables.files {
        SpecsListed(rows, s.origin[id].specs, order);
      } else {
        ListsNothing(order);
      }
      Quiet(cfg, s, t, h, t.handlers[h]);
    case DelFound(_, _) =>
      Quiet(cfg, s, t, h, t.handlers[h]);
  }

  // ----- fan-out -----

  lemma WaitHandler(cfg: Config, s: State, t: State, hd: Handler)
    requires WellFormed(cfg) && hd.Fan? && HandlerInv(cfg, s, hd) && Grows(s, t)
    requires hd.next < |hd.spec.nodes| && hd.spec.nodes[hd.next] in s.nodes && hd.spec.nodes[hd.next] in t.nodes
    requires var n, m := s.nodes[hd.spec.nodes[hd.next]], t.nodes[hd.spec.nodes[hd.next]];
             m.nextPut == n.nextPut + 1 && n.nextPut in m.puts
             && m.puts[n.nextPut].id == hd.spec.sha && m.puts[n.nextPut].body == hd.body
    ensures HandlerInv(cfg, t, hd.(wait := Some(s.nodes[hd.spec.nodes[hd.next]].nextPut)))
  {
    AckStable(s.nodes, t.nodes, hd.spec, hd.body, hd.next, hd.acks);
  }

  lemma PutSent(cfg: Config, s: State, t: State, hd: Handler)
    requires WellFormed(cfg) && hd.Fan? && HandlerInv(cfg, s, hd) && hd.next < |hd.spec.nodes|
    requires NodeSteps(cfg, s, t, hd.spec.nodes[hd.next], N.Begin(hd.spec.sha, hd.body), t.handlers)
    requires Grows(s, t)
    ensures HandlerInv(cfg, t, hd.(wait := Some(s.nodes[hd.spec.nodes[hd.next]].nextPut)))
  {
    WaitHandler(cfg, s, t, hd);
  }

  lemma SendPutAs(cfg: Config, s: State, t: State, h: nat, hd: Handler)
    requires WellFormed(cfg) && Inv(cfg, s) && hd.Fan? && HandlerInv(cfg, s, hd) && hd.next < |hd.spec.nodes|
    requires NodeSteps(cfg, s, t, hd.spec.nodes[hd.next], N.Begin(hd.spec.sha, hd.body), t.handlers)
    requires t.handlers == s.handlers[h := hd.(wait := Some(s.nodes[hd.spec.nodes[hd.next]].nextPut))]
    ensures Inv(cfg, t) && Grows(s, t)
  {
    NodeCase(cfg, s, t, hd.spec.nodes[hd.next], N.Begin(hd.spec.sha, hd.body), t.handlers);
    PutSent(cfg, s, t, hd);
    Compose(cfg, s, t, h);
  }

  lemma SendPut(cfg: Config, s: State, t: State, h: nat)
    requires WellFormed(cfg) && Inv(cfg, s) && SendsPut(cfg, s, t, h)
    ensures Inv(cfg, t) && Grows(s, t)
  {
    var hd := s.handlers[h];
    assert HandlerInv(cfg, s, hd);
    SendPutAs(cfg, s, t, h, hd);
  }

  lemma MoreAcks(nodes: map<Node, N.NodeState>, spec: M.BlockSpec, body: Bytes, next: nat, acks: seq<Ack>, a: Ack)
    requires AcksInv(nodes, spec, body, next, acks) && next < |spec.nodes|
    ensures AcksInv(nodes, spec, body, next + 1, acks)
    ensures a.node == spec.nodes[next] && Acked(nodes, spec, body, a) ==>
            AcksInv(nodes, spec, body, next + 1, acks + [a])
  {
    assert spec.nodes[..next + 1] == spec.nodes[..next] + [spec.nodes[next]];
    if a.node == spec.nodes[next] && Acked(nodes, spec, body, a) {
      var more := acks + [a];
      forall b | b in more ensures b.node in spec.nodes[..next + 1] && Acked(nodes, spec, body, b) {
        assert b in acks || b == a;
      }
      if Distinct(spec.nodes) {
        forall i, j | 0 <= i < j < |more| ensures AckNodes(more)[i] != AckNodes(more)[j] {
          if j < |acks| {
            assert AckNodes(acks)[i] != AckNodes(acks)[j];
          } else {
            assert acks[i] in acks;
          }
        }
      }
    }
  }

  lemma FanStep(cfg: Config, s: State, t: State, h: nat, replied: bool)
    requires WellFormed(cfg) && Inv(cfg, s) && (if replied then HearsReply(s, t, h) else GivesUp(s, t, h))
    ensures Inv(cfg, t) && Grows(s, t)
  {
    var hd := s.handlers[h];
    assert HandlerInv(cfg, s, hd);
    var n := hd.spec.nodes[hd.next];
    if replied {
      var node := s.nodes[n];
      var put := node.puts[hd.wait.value];
      assert N.PutInv(cfg.sha, node, hd.wait.value);
      MoreAcks(s.nodes, hd.spec, hd.body, hd.next, hd.acks, Ack(n, put.mark));
    } else {
      MoreAcks(s.nodes, hd.spec, hd.body, hd.next, hd.acks, Ack(n, 0));
    }
    Quiet(cfg, s, t, h, t.handlers[h]);
  }

  // ----- downloads -----

  lemma OpenStep(cfg: Config, s: State, t: State, h: nat)
    requires WellFormed(cfg) && Inv(cfg, s) && Opens(cfg, s, t, h)
    ensures Inv(cfg, t) && Grows(s, t)
  {
    var hd := s.handlers[h];
    assert HandlerInv(cfg, s, hd);
    var spec := hd.dl.specs[|hd.dl.parts|];
    var node := s.nodes[Tried(cfg, spec)[hd.cand]];
    assert N.Inv(cfg.sha, node) && Known(node, s.bodies);
    assert PartOf(cfg, s, hd.dl, [], node.disk[spec.sha]);
    Quiet(cfg, s, t, h, t.handlers[h]);
  }

  lemma StreamStep(cfg: Config, s: State, t: State, h: nat, upTo: nat)
    requires WellFormed(cfg) && Inv(cfg, s) && (Skips(cfg, s, t, h) || Copies(s, t, h, upTo) || Breaks(s, t, h))
    ensures Inv(cfg, t) && Grows(s, t)
  {
    var hd := s.handlers[h];
    assert HandlerInv(cfg, s, hd);
    if Copies(s, t, h, upTo) {
      assert PartOf(cfg, s, hd.dl, hd.open.value[..upTo], hd.open.value);
    }
    Quiet(cfg, s, t, h, t.handlers[h]);
  }

  // ----- all steps -----

  predicate SameButTodo(a: Handler, b: Handler) {
    a == b || (a.DelFan? && b.DelFan? && a.name == b.name && a.id == b.id)
  }

  lemma NodeStep(cfg: Config, s: State, t: State, h: nat, n: Node, step: N.Step)
    requires WellFormed(cfg) && Inv(cfg, s) && NodeSteps(cfg, s, t, n, step, t.handlers)
    requires OnlyHandler(s, t, h)
    requires h in t.handlers ==> h in s.handlers && SameButTodo(s.handlers[h], t.handlers[h])
    ensures Inv(cfg, t) && Grows(s, t)
  {
    NodeCase(cfg, s, t, n, step, t.handlers);
    if h in t.handlers {
      assert HandlerInv(cfg, s, s.handlers[h]);
      HandlerStable(cfg, s, t, s.handlers[h]);
    }
    Compose(cfg, s, t, h);
  }

  lemma DelSendStep(cfg: Config, s: State, t: State, h: nat, reached: bool)
    requires WellFormed(cfg) && Inv(cfg, s) && SendsDelete(cfg, s, t, h, reached)
    ensures Inv(cfg, t) && Grows(s, t)
  {
    var (n, hash) := s.handlers[h].todo[0];
    assert HandlerInv(cfg, s, s.handlers[h]);
    if reached { NodeStep(cfg, s, t, h, n, N.Delete(hash)); } else { Quiet(cfg, s, t, h, t.handlers[h]); }
  }

  lemma StepKeepsInv(cfg: Config, s: State, t: State, step: Step)
    requires WellFormed(cfg) && Inv(cfg, s) && Does(cfg, s, t, step)
    ensures Inv(cfg, t) && Grows(s, t)
  {
    match step
    case Spawn(h, start) => Quiet(cfg, s, t, h, start);
    case Drop(h) =>
      SameTables(s.tables);
      SameNodes(s.nodes);
      Compose(cfg, s, t, h);
    case Advance(h) => AdvanceStep(cfg, s, t, h);
    case Ordered(h, order) => OrderedStep(cfg, s, t, h, order);
    case FanSend(h) => SendPut(cfg, s, t, h);
    case FanReply(h) => FanStep(cfg, s, t, h, true);
    case FanError(h) => FanStep(cfg, s, t, h, false);
    case Open(h) => OpenStep(cfg, s, t, h);
    case Skip(h) => StreamStep(cfg, s, t, h, 0);
    case CopyTo(h, upTo) => StreamStep(cfg, s, t, h, upTo);
    case Break(h) => StreamStep(cfg, s, t, h, 0);
    case DelSend(h, reached) => DelSendStep(cfg, s, t, h, reached);
    case AtNode(n, nodeStep) => NodeStep(cfg, s, t, 0, n, nodeStep);
  }

  lemma InitialInv(cfg: Config, s: State)
    requires WellFormed(cfg) && Initial(cfg, s)
    ensures Inv(cfg, s)
  {}

  lemma {:induction false} RunInv(cfg: Config, run: seq<State>, i: nat)
    requires WellFormed(cfg) && IsRun(cfg, run) && i < |run|
    ensures Inv(cfg, run[i])
  {
    if i == 0 {
      InitialInv(cfg, run[0]);
    } else {
      RunInv(cfg, run, i - 1);
      var step := StepTaken(cfg, run, i - 1);
      StepKeepsInv(cfg, run[i - 1], run[i], step);
    }
  }
}
