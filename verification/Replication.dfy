/** Where a block is stored: the replicas recorded for it are the nodes ranked first for its hash,
    and a node more or less in the configuration changes them as little as possible. */
module Replication {
  import opened Basics
  import opened Protocol
  import opened ProtocolInvariant
  import opened ProtocolSteps
  import C = Chunking
  import M = Metastore
  import P = Placement

  type Node = string

  /** What may be registered is what initUpload makes of a manifest that it does not answer with 400. */
  lemma AdmittedManifest(cfg: Config, m: C.FileManifest)
    requires WellFormed(cfg)
    ensures Admitted(cfg, Placed(cfg.pick, cfg.replicas, m)) <==>
            && m.blockSize > 0 && m.size >= 0 && |m.sha| == 64
            && forall b | b in m.blocks :: |b.sha| == 64 && b.size > 0
  {
    var reg := Placed(cfg.pick, cfg.replicas, m);
    forall i | 0 <= i < |m.blocks| ensures reg.specs[i] == SpecOf(cfg.pick, cfg.replicas, m.blocks[i]) {}
    if Admitted(cfg, reg) {
      forall b | b in m.blocks ensures |b.sha| == 64 && b.size > 0 {
        assert SpecOf(cfg.pick, cfg.replicas, b) in reg.specs;
      }
    }
  }

  /** The best `replicas` of the configured nodes, in rank order: no node left out has a smaller
      score than one of them. */
  lemma RecordedReplicas(cfg: Config, reg: M.Registration, b: M.BlockSpec)
    requires WellFormed(cfg) && Admitted(cfg, reg) && b in reg.specs
    ensures |cfg.pick(b.sha)| == |cfg.nodes| && b.nodes == cfg.pick(b.sha)[..cfg.replicas]
    ensures |b.nodes| == cfg.replicas && forall n | n in b.nodes :: n in cfg.nodes
    ensures forall n, m | n in b.nodes && m in cfg.nodes && m !in b.nodes ::
              cfg.score(b.sha)(n) <= cfg.score(b.sha)(m)
  {
    var ranked, key := cfg.pick(b.sha), cfg.score(b.sha);
    assert P.IsRanking(key, cfg.nodes, ranked);
    P.SameLength(cfg.nodes, ranked);
    forall n | n in b.nodes ensures n in cfg.nodes {
      assert n in ranked;
    }
    forall n, m | n in b.nodes && m in cfg.nodes && m !in b.nodes ensures key(n) <= key(m) {
      var i :| 0 <= i < cfg.replicas && ranked[i] == n;
      var j :| 0 <= j < |ranked| && ranked[j] == m;
      assert j < cfg.replicas ==> b.nodes[j] == m;
    }
  }

  /** So it is for every row of every reachable state. */
  lemma RowReplicas(cfg: Config, run: seq<State>, i: nat, id: nat, idx: int)
    requires WellFormed(cfg) && IsRun(cfg, run) && i < |run| && idx in M.Rows(run[i].tables, id)
    ensures var b := M.Rows(run[i].tables, id)[idx].spec;
            && |cfg.pick(b.sha)| == |cfg.nodes| && b.nodes == cfg.pick(b.sha)[..cfg.replicas]
            && |b.nodes| == cfg.replicas
            && forall n, m | n in b.nodes && m in cfg.nodes && m !in b.nodes ::
                 cfg.score(b.sha)(n) <= cfg.score(b.sha)(m)
  {
    RunInv(cfg, run, i);
    var t := run[i].tables;
    assert Holds(t.blocks[id], run[i].origin[id].specs);
    RecordedReplicas(cfg, run[i].origin[id], t.blocks[id][idx].spec);
  }

  /** `with` are the replicas where x is configured, `without` where it is not: the same ones if x
      is none of them; otherwise x goes, and the best node `y` left out joins at the end. */
  ghost predicate OneChange(
      key: Node -> nat, nodes: seq<Node>, x: Node, with: seq<Node>, without: seq<Node>, at: nat, y: Node)
  {
    && (x !in with ==> without == with)
    && (x in with ==>
          && at < |with| && with[at] == x && y in nodes && y !in with
          && without == with[..at] + with[at + 1..] + [y]
          && forall m | m in nodes && m !in with :: key(y) <= key(m))
  }

  lemma ReplicaChange(
      key: Node -> nat, nodes: seq<Node>, x: Node, replicas: nat, a: seq<Node>, b: seq<Node>) returns (at: nat, y: Node)
    requires Distinct(nodes) && P.IsRanking(key, nodes, a) && P.Disruption(a, b, x, replicas)
    ensures OneChange(key, nodes, x, a[..replicas], b[..replicas], at, y)
  {
    P.SamePermutation(nodes, a);
    at, y := 0, a[replicas];
    var with := a[..replicas];
    if x in with {
      at :| at < |with| && with[at] == x;
      P.DropFromRanking(with, x, at);
      assert forall k | 0 <= k < replicas :: a[k] == with[k];
      forall m | m in nodes && m !in with ensures key(y) <= key(m) {
        var j :| 0 <= j < |a| && a[j] == m;
      }
      assert y !in with;
    }
  }

  /** Two configurations that differ by the node x only, and the same block registered under each. */
  ghost predicate OneNodeLess(
      cfg: Config, front: seq<Node>, x: Node, back: seq<Node>, less: Config, b: M.BlockSpec, c: M.BlockSpec)
  {
    && cfg.nodes == front + [x] + back && less.nodes == front + back && Distinct(cfg.nodes)
    && less.replicas == cfg.replicas < |cfg.nodes| && c.sha == b.sha && less.score(b.sha) == cfg.score(b.sha)
  }

  lemma LessIsWithout(front: seq<Node>, x: Node, back: seq<Node>)
    requires Distinct(front + [x] + back)
    ensures P.Without(front + [x] + back, x) == front + back
  {
    var all := front + [x] + back;
    assert all[|front|] == x && all[..|front|] == front && all[|front| + 1..] == back;
    P.DropFromRanking(all, x, |front|);
  }

  /** What the Go coordinator records under the two configurations, if no two nodes tie. */
  lemma ReplicasChangeLittle(
      cfg: Config, reg: M.Registration, b: M.BlockSpec, front: seq<Node>, x: Node, back: seq<Node>,
      less: Config, other: M.Registration, c: M.BlockSpec) returns (at: nat, y: Node)
    requires WellFormed(cfg) && Admitted(cfg, reg) && b in reg.specs
    requires WellFormed(less) && Admitted(less, other) && c in other.specs
    requires OneNodeLess(cfg, front, x, back, less, b, c)
    requires forall n, m | n in cfg.nodes && m in cfg.nodes && n != m :: cfg.score(b.sha)(n) != cfg.score(b.sha)(m)
    ensures OneChange(cfg.score(b.sha), cfg.nodes, x, b.nodes, c.nodes, at, y)
  {
    var key := cfg.score(b.sha);
    RecordedReplicas(cfg, reg, b);
    RecordedReplicas(less, other, c);
    LessIsWithout(front, x, back);
    assert cfg.nodes[|front|] == x;
    assert P.IsRanking(key, cfg.nodes, cfg.pick(b.sha)) && P.IsRanking(key, less.nodes, less.pick(b.sha));
    P.MinimalDisruptionGo(key, cfg.nodes, x, cfg.replicas, cfg.pick(b.sha), less.pick(b.sha));
    at, y := ReplicaChange(key, cfg.nodes, x, cfg.replicas, cfg.pick(b.sha), less.pick(b.sha));
  }

  /** What the TypeScript coordinator records; its sort is stable, so ties do not matter. */
  lemma StableReplicasChangeLittle(
      cfg: Config, reg: M.Registration, b: M.BlockSpec, front: seq<Node>, x: Node, back: seq<Node>,
      less: Config, other: M.Registration, c: M.BlockSpec) returns (at: nat, y: Node)
    requires WellFormed(cfg) && Admitted(cfg, reg) && b in reg.specs
    requires WellFormed(less) && Admitted(less, other) && c in other.specs
    requires OneNodeLess(cfg, front, x, back, less, b, c)
    requires cfg.pick(b.sha) == P.PickNodesStable(cfg.score(b.sha), cfg.nodes)
    requires less.pick(b.sha) == P.PickNodesStable(cfg.score(b.sha), less.nodes)
    ensures OneChange(cfg.score(b.sha), cfg.nodes, x, b.nodes, c.nodes, at, y)
  {
    var key := cfg.score(b.sha);
    RecordedReplicas(cfg, reg, b);
    RecordedReplicas(less, other, c);
    LessIsWithout(front, x, back);
    assert cfg.nodes[|front|] == x;
    assert P.IsRanking(key, cfg.nodes, cfg.pick(b.sha));
    P.PickNodesStableIsMinimal(key, cfg.nodes, x, cfg.replicas);
    at, y := ReplicaChange(key, cfg.nodes, x, cfg.replicas, cfg.pick(b.sha), less.pick(b.sha));
  }
}
