/** The coordinator's handlers, run without interruption, are runs of the step relation: what the
    methods of `Client` and `Serving` return and do to the tables is one of the interleavings of
    `Protocol`, against nodes that serve their PUTs as `Cluster` says. */
module Traces {
  import opened Basics
  import opened Protocol
  import Client
  import K = Cluster
  import M = Metastore
  import N = NodeStore
  import S = Serving
  import T = Transfer

  // ----- paths -----

  ghost predicate Reaches(cfg: Config, s: State, t: State)
    requires WellFormed(cfg)
  {
    exists path :: Connects(cfg, path, s, t)
  }

  ghost predicate Connects(cfg: Config, path: seq<State>, s: State, t: State)
    requires WellFormed(cfg)
  {
    IsPath(cfg, path) && path[0] == s && path[|path| - 1] == t
  }

  lemma ReachesSelf(cfg: Config, s: State)
    requires WellFormed(cfg)
    ensures Reaches(cfg, s, s)
  {
    assert Connects(cfg, [s], s, s);
  }

  lemma PathSnoc(cfg: Config, path: seq<State>, s: State, t: State, step: Step, u: State)
    requires WellFormed(cfg) && Connects(cfg, path, s, t) && Does(cfg, t, u, step)
    ensures Connects(cfg, path + [u], s, u)
  {
    var more := path + [u];
    forall i: nat | i + 1 < |more| ensures StepsAt(cfg, more, i) {
      if i + 1 < |path| { assert StepsAt(cfg, path, i); }
    }
  }

  lemma Then(cfg: Config, s: State, t: State, step: Step, u: State)
    requires WellFormed(cfg) && Reaches(cfg, s, t) && Does(cfg, t, u, step)
    ensures Reaches(cfg, s, u)
  {
    var path :| Connects(cfg, path, s, t);
    PathSnoc(cfg, path, s, t, step, u);
  }

  lemma PathJoin(cfg: Config, a: seq<State>, b: seq<State>, s: State, t: State, u: State)
    requires WellFormed(cfg) && Connects(cfg, a, s, t) && Connects(cfg, b, t, u)
    ensures Connects(cfg, a + b[1..], s, u)
  {
    var more := a + b[1..];
    forall i: nat | i + 1 < |more| ensures StepsAt(cfg, more, i) {
      if i + 1 < |a| {
        assert StepsAt(cfg, a, i);
      } else {
        assert StepsAt(cfg, b, i + 1 - |a|);
      }
    }
  }

  lemma Join(cfg: Config, s: State, t: State, u: State)
    requires WellFormed(cfg) && Reaches(cfg, s, t) && Reaches(cfg, t, u)
    ensures Reaches(cfg, s, u)
  {
    var a :| Connects(cfg, a, s, t);
    var b :| Connects(cfg, b, t, u);
    PathJoin(cfg, a, b, s, t, u);
  }

  // ----- handlers without requests -----

  function With(s: State, h: nat, hd: Handler): State {
    s.(handlers := s.handlers[h := hd])
  }

  lemma Spawns(cfg: Config, s: State, h: nat, start: Handler)
    requires WellFormed(cfg) && h !in s.handlers && IsStart(cfg, start)
    ensures Reaches(cfg, s, With(s, h, start))
  {
    ReachesSelf(cfg, s);
    Then(cfg, s, s, Spawn(h, start), With(s, h, start));
  }

  /** The next statement of a handler that has just become `hd`. */
  lemma AdvancesTo(cfg: Config, s: State, t: State, h: nat, hd: Handler, u: State)
    requires WellFormed(cfg) && Reaches(cfg, s, With(t, h, hd)) && Advances(cfg, With(t, h, hd), u, h, hd)
    ensures Reaches(cfg, s, u)
  {
    Then(cfg, s, With(t, h, hd), Advance(h), u);
  }

  lemma WithTwice(s: State, h: nat, a: Handler, b: Handler)
    ensures With(With(s, h, a), h, b) == With(s, h, b)
  {
    assert s.handlers[h := a][h := b] == s.handlers[h := b];
  }

  lemma Turns(cfg: Config, s: State, t: State, h: nat, a: Handler, b: Handler)
    requires WellFormed(cfg) && Reaches(cfg, s, With(t, h, a)) && Advances(cfg, With(t, h, a), With(t, h, b), h, a)
    ensures Reaches(cfg, s, With(t, h, b))
  {
    Then(cfg, s, With(t, h, a), Advance(h), With(t, h, b));
  }

  /** What initUpload makes of the state, and of its handler. */
  ghost function Inited(s: State, reg: M.Registration): State {
    var u := M.Register(s.tables, reg).0;
    s.(tables := u, origin := if u.nextId == s.tables.nextId then s.origin else s.origin[s.tables.nextId := reg])
  }

  ghost function InitAnswer(t: M.Tables, reg: M.Registration, missing: seq<int>): Handler {
    match M.Register(t, reg).1
    case Some(e) => Replied(if e.Conflict? then 409 else 500)
    case None =>
      match M.Find(M.Register(t, reg).0, reg.name)
      case None => Replied(500)
      case Some(id) => InitReply(id, missing)
  }

  lemma InitAnswered(t: M.Tables, reg: M.Registration, missing: seq<int>)
    ensures var hd, status := InitAnswer(t, reg, missing), Client.Coordinator.InitStatus(t, reg);
            if status == 200 then hd.InitReply? && hd.missing == missing else hd == Replied(status)
  {
    if M.Register(t, reg).1.None? && M.Find(t, reg.name).None? {
      assert M.Register(t, reg).0.files[t.nextId].name == reg.name;
    }
  }

  /** initUpload as one run: 409, 500, or the file's id with its missing list. */
  lemma InitTrace(cfg: Config, s: State, h: nat, reg: M.Registration, missing: seq<int>)
    requires WellFormed(cfg) && h !in s.handlers && Admitted(cfg, reg)
    requires var u := M.Register(s.tables, reg).0;
             M.Find(u, reg.name).Some? ==> M.Lists(missing, M.PendingSet(u, M.Find(u, reg.name).value))
    ensures Reaches(cfg, s, With(Inited(s, reg), h, InitAnswer(s.tables, reg, missing)))
    ensures var hd, status := InitAnswer(s.tables, reg, missing), Client.Coordinator.InitStatus(s.tables, reg);
            if status == 200 then hd.InitReply? && hd.missing == missing else hd == Replied(status)
  {
    InitAnswered(s.tables, reg, missing);
    var t, e := Inited(s, reg), M.Register(s.tables, reg).1;
    Spawns(cfg, s, h, Init(reg));
    var next := if e.None? then InitFound(reg.name) else Replied(if e.value.Conflict? then 409 else 500);
    assert s.handlers[h := Init(reg)][h := next] == s.handlers[h := next];
    AdvancesTo(cfg, s, s, h, Init(reg), With(t, h, next));
    if e.None? {
      var found := M.Find(t.tables, reg.name);
      var last := match found case None => Replied(500) case Some(id) => InitMissing(id);
      WithTwice(t, h, next, last);
      Turns(cfg, s, t, h, next, last);
      if found.Some? {
        WithTwice(t, h, last, InitReply(found.value, missing));
        Then(cfg, s, With(t, h, last), Ordered(h, missing), With(t, h, InitReply(found.value, missing)));
      }
    }
  }

  ghost function Committed(s: State, name: string): State {
    if Client.Coordinator.CommitStatus(s.tables, name) != 200 then s
    else s.(tables := M.SetComplete(s.tables, M.Find(s.tables, name).value))
  }

  /** commit as one run. */
  lemma CommitTrace(cfg: Config, s: State, h: nat, name: string)
    requires WellFormed(cfg) && h !in s.handlers
    ensures Reaches(cfg, s, With(Committed(s, name), h, Replied(Client.Coordinator.CommitStatus(s.tables, name))))
  {
    Spawns(cfg, s, h, Commit(name));
    var found := M.Find(s.tables, name);
    var next := match found case None => Replied(404) case Some(id) => CommitFound(id);
    WithTwice(s, h, Commit(name), next);
    Turns(cfg, s, s, h, Commit(name), next);
    if found.Some? {
      var id := found.value;
      var last := if M.PendingSet(s.tables, id) == {} then CommitCounted(id) else Replied(400);
      WithTwice(s, h, next, last);
      Turns(cfg, s, s, h, next, last);
      if last.CommitCounted? {
        assert s.handlers[h := last][h := Replied(200)] == s.handlers[h := Replied(200)];
        AdvancesTo(cfg, s, s, h, last, With(Committed(s, name), h, Replied(200)));
      }
    }
  }

  /** The nodes after a DELETE that may or may not have reached its node. */
  function Undone(sha: Bytes -> Hash, nodes: K.World, target: (Node, Hash), arrives: bool): K.World {
    var (n, id) := target;
    if arrives && n in nodes && nodes[n].up then nodes[n := N.Apply(sha, nodes[n], N.Delete(id))] else nodes
  }

  function AllUndone(sha: Bytes -> Hash, nodes: K.World, todo: seq<(Node, Hash)>, arrives: seq<bool>): K.World
    requires |arrives| == |todo|
  {
    if todo == [] then nodes else AllUndone(sha, Undone(sha, nodes, todo[0], arrives[0]), todo[1..], arrives[1..])
  }

  lemma DelSendTrace(
      cfg: Config, s: State, t: State, h: nat, name: string, id: nat, todo: seq<(Node, Hash)>, arrives: bool)
    requires WellFormed(cfg) && todo != [] && Reaches(cfg, s, With(t, h, DelFan(name, id, todo)))
    ensures var u := t.(nodes := Undone(cfg.sha, t.nodes, todo[0], arrives));
            Reaches(cfg, s, With(u, h, DelFan(name, id, todo[1..])))
  {
    var (n, hash) := todo[0];
    var u := t.(nodes := Undone(cfg.sha, t.nodes, todo[0], arrives));
    WithTwice(t, h, DelFan(name, id, todo), DelFan(name, id, todo[1..]));
    var reached := arrives && n in t.nodes && t.nodes[n].up;
    assert SendsDelete(cfg, With(t, h, DelFan(name, id, todo)), With(u, h, DelFan(name, id, todo[1..])), h, reached);
    Then(cfg, s, With(t, h, DelFan(name, id, todo)), DelSend(h, reached), With(u, h, DelFan(name, id, todo[1..])));
  }

  lemma {:induction false} DelFanTrace(
      cfg: Config, s: State, t: State, h: nat, name: string, id: nat, todo: seq<(Node, Hash)>, arrives: seq<bool>)
    requires WellFormed(cfg) && |arrives| == |todo| && Reaches(cfg, s, With(t, h, DelFan(name, id, todo)))
    ensures var u := t.(nodes := AllUndone(cfg.sha, t.nodes, todo, arrives));
            Reaches(cfg, s, With(u, h, DelFan(name, id, [])))
    decreases |todo|
  {
    if todo != [] {
      var u := t.(nodes := Undone(cfg.sha, t.nodes, todo[0], arrives[0]));
      DelSendTrace(cfg, s, t, h, name, id, todo, arrives[0]);
      DelFanTrace(cfg, s, u, h, name, id, todo[1..], arrives[1..]);
    } else {
      assert t.(nodes := t.nodes) == t;
    }
  }

  /** The DELETEs the handler sends, for a block list in this order. */
  ghost function ToDelete(t: M.Tables, name: string, order: seq<int>): seq<(Node, Hash)>
    requires M.Find(t, name).Some? ==> M.Lists(order, M.Rows(t, M.Find(t, name).value).Keys)
  {
    match M.Find(t, name)
    case None => []
    case Some(id) => Targets(Specs(M.Rows(t, id), order))
  }

  lemma LookUpTrace(cfg: Config, s: State, h: nat, name: string)
    requires WellFormed(cfg) && h !in s.handlers
    ensures Reaches(cfg, s, With(s, h, match M.Find(s.tables, name)
                                       case None => Replied(404)
                                       case Some(id) => DelFound(name, id)))
  {
    Spawns(cfg, s, h, Del(name));
    var next := match M.Find(s.tables, name) case None => Replied(404) case Some(id) => DelFound(name, id);
    WithTwice(s, h, Del(name), next);
    Turns(cfg, s, s, h, Del(name), next);
  }

  lemma RemoveTrace(cfg: Config, s: State, t: State, h: nat, name: string, id: nat)
    requires WellFormed(cfg) && Reaches(cfg, s, With(t, h, DelFan(name, id, []))) && M.Find(t.tables, name).Some?
    ensures Reaches(cfg, s, With(t.(tables := M.DeleteFile(t.tables, name)), h, Replied(204)))
  {
    var done := DelFan(name, id, []);
    assert t.handlers[h := done][h := Replied(204)] == t.handlers[h := Replied(204)];
    AdvancesTo(cfg, s, t, h, done, With(t.(tables := M.DeleteFile(t.tables, name)), h, Replied(204)));
  }

  /** delete as one run, for any choice of the DELETEs that reach their node: the blocks go from
      those nodes that are up, the row goes in any case. */
  lemma DeleteTrace(cfg: Config, s: State, h: nat, name: string, order: seq<int>, arrives: seq<bool>)
    requires WellFormed(cfg) && h !in s.handlers
    requires M.Find(s.tables, name).Some? ==> M.Lists(order, M.Rows(s.tables, M.Find(s.tables, name).value).Keys)
    requires |arrives| == |ToDelete(s.tables, name, order)|
    ensures var todo := ToDelete(s.tables, name, order);
            var t := s.(tables := M.DeleteFile(s.tables, name), nodes := AllUndone(cfg.sha, s.nodes, todo, arrives));
            Reaches(cfg, s, With(t, h, Replied(S.DeleteStatus(s.tables, name))))
  {
    LookUpTrace(cfg, s, h, name);
    if M.Find(s.tables, name).None? {
      assert s.(nodes := s.nodes) == s;
    } else {
      var id := M.Find(s.tables, name).value;
      var todo := ToDelete(s.tables, name, order);
      WithTwice(s, h, DelFound(name, id), DelFan(name, id, todo));
      Then(cfg, s, With(s, h, DelFound(name, id)), Ordered(h, order), With(s, h, DelFan(name, id, todo)));
      DelFanTrace(cfg, s, s, h, name, id, todo, arrives);
      RemoveTrace(cfg, s, s.(nodes := AllUndone(cfg.sha, s.nodes, todo, arrives)), h, name, id);
    }
  }

  // ----- an upload -----

  lemma {:induction false} NodeTrace(cfg: Config, s: State, t: State, n: Node, steps: seq<N.Step>)
    requires WellFormed(cfg) && Reaches(cfg, s, t) && n in t.nodes && N.Legal(cfg.sha, t.nodes[n], steps)
    requires forall i | 0 <= i < |steps| :: !steps[i].Begin?
    ensures Reaches(cfg, s, t.(nodes := t.nodes[n := N.Run(cfg.sha, t.nodes[n], steps)]))
    decreases |steps|
  {
    if steps == [] {
      assert t.nodes[n := t.nodes[n]] == t.nodes;
    } else {
      var u := t.(nodes := t.nodes[n := N.Apply(cfg.sha, t.nodes[n], steps[0])]);
      Then(cfg, s, t, AtNode(n, steps[0]), u);
      NodeTrace(cfg, s, u, n, steps[1..]);
      assert u.nodes[n := N.Run(cfg.sha, u.nodes[n], steps[1..])] == t.nodes[n := N.Run(cfg.sha, t.nodes[n], steps)];
    }
  }

  /** The state after a PUT to node n that may or may not have arrived. */
  function Asked(cfg: Config, s: State, n: Node, id: Hash, body: Bytes, link: K.Link): State {
    s.(nodes := K.Served(cfg.sha, s.nodes, n, id, body, link),
       bodies := if Arrives(s, n, link) then s.bodies + {body} else s.bodies)
  }

  predicate Arrives(s: State, n: Node, link: K.Link) {
    n in s.nodes && s.nodes[n].up && !link.Unreachable?
  }

  function Acks(cfg: Config, s: State, n: Node, id: Hash, body: Bytes, link: K.Link): seq<Ack> {
    if T.Accepts(K.Reply(cfg.sha, s.nodes, n, id, body, link)) then [Ack(n, N.Deleted(s.nodes[n], id))] else []
  }

  /** The request of a PUT arrives at its node. */
  lemma BeginTrace(cfg: Config, s: State, t: State, h: nat, hd: Handler, n: Node) returns (sent: State)
    requires WellFormed(cfg) && n in t.nodes && t.nodes[n].up
    requires hd.Fan? && hd.wait == None && hd.next < |hd.spec.nodes| && n == hd.spec.nodes[hd.next]
    requires Reaches(cfg, s, With(t, h, hd))
    ensures sent == t.(nodes := t.nodes[n := N.Apply(cfg.sha, t.nodes[n], N.Begin(hd.spec.sha, hd.body))],
                       bodies := t.bodies + {hd.body})
    ensures Reaches(cfg, s, With(sent, h, hd.(wait := Some(t.nodes[n].nextPut))))
  {
    var begin, wait := N.Begin(hd.spec.sha, hd.body), hd.(wait := Some(t.nodes[n].nextPut));
    sent := t.(nodes := t.nodes[n := N.Apply(cfg.sha, t.nodes[n], begin)], bodies := t.bodies + {hd.body});
    WithTwice(sent, h, hd, wait);
    assert NodeSteps(cfg, With(t, h, hd), With(sent, h, wait), n, begin, With(sent, h, wait).handlers);
    Then(cfg, s, With(t, h, hd), FanSend(h), With(sent, h, wait));
  }

  /** The node's own part of a PUT, after the request has arrived. */
  lemma ServeTrace(cfg: Config, s: State, t: State, h: nat, hd: Handler, n: Node, link: K.Link)
    requires WellFormed(cfg) && K.Sound(cfg.sha, t.nodes) && Arrives(t, n, link)
    requires hd.Fan? && hd.wait == None && hd.next < |hd.spec.nodes| && n == hd.spec.nodes[hd.next]
    requires Reaches(cfg, s, With(t, h, hd))
    ensures var u := Asked(cfg, t, n, hd.spec.sha, hd.body, link);
            Reaches(cfg, s, With(u, h, hd.(wait := Some(t.nodes[n].nextPut))))
  {
    var id, node, wait := hd.spec.sha, t.nodes[n], hd.(wait := Some(t.nodes[n].nextPut));
    var sent := BeginTrace(cfg, s, t, h, hd, n);
    var steps := N.PutTrace(cfg.sha, node, id, hd.body, link.fault, 0);
    NodeTrace(cfg, s, With(sent, h, wait), n, steps[1..]);
    var served := N.Served(node, id, hd.body, N.PutStatus(cfg.sha, node, id, hd.body, link.fault));
    assert N.Run(cfg.sha, sent.nodes[n], steps[1..]) == served;
    assert sent.nodes[n := served] == t.nodes[n := served];
  }

  /** The handler once the request at its position is over. */
  function Moved(hd: Handler, acks: seq<Ack>): Handler
    requires hd.Fan?
  {
    hd.(next := hd.next + 1, wait := None, acks := hd.acks + acks)
  }

  lemma GivesUpTrace(cfg: Config, s: State, t: State, h: nat, hd: Handler)
    requires WellFormed(cfg) && hd.Fan? && hd.next < |hd.spec.nodes| && Reaches(cfg, s, With(t, h, hd))
    ensures Reaches(cfg, s, With(t, h, Moved(hd, [])))
  {
    WithTwice(t, h, hd, Moved(hd, []));
    assert hd.acks + [] == hd.acks;
    Then(cfg, s, With(t, h, hd), FanError(h), With(t, h, Moved(hd, [])));
  }

  /** One turn of fanoutPut's loop. */
  lemma AskTrace(cfg: Config, s: State, t: State, h: nat, hd: Handler, link: K.Link)
    requires WellFormed(cfg) && K.Sound(cfg.sha, t.nodes)
    requires hd.Fan? && hd.wait == None && hd.next < |hd.spec.nodes| && Reaches(cfg, s, With(t, h, hd))
    ensures var n := hd.spec.nodes[hd.next];
            var u := Asked(cfg, t, n, hd.spec.sha, hd.body, link);
            Reaches(cfg, s, With(u, h, Moved(hd, Acks(cfg, t, n, hd.spec.sha, hd.body, link))))
  {
    var n := hd.spec.nodes[hd.next];
    var u, acks := Asked(cfg, t, n, hd.spec.sha, hd.body, link), Acks(cfg, t, n, hd.spec.sha, hd.body, link);
    if !Arrives(t, n, link) {
      assert acks == [] && u == t;
      GivesUpTrace(cfg, s, t, h, hd);
    } else {
      var wait := hd.(wait := Some(t.nodes[n].nextPut));
      ServeTrace(cfg, s, t, h, hd, n, link);
      if link.Replies? {
        HearsTrace(cfg, s, t, u, h, hd, n, link);
      } else {
        assert acks == [] && Moved(wait, []) == Moved(hd, []);
        GivesUpTrace(cfg, s, u, h, wait);
      }
    }
  }

  lemma HearsTrace(cfg: Config, s: State, t: State, u: State, h: nat, hd: Handler, n: Node, link: K.Link)
    requires WellFormed(cfg) && hd.Fan? && hd.wait == None && hd.next < |hd.spec.nodes| && n == hd.spec.nodes[hd.next]
    requires Arrives(t, n, link) && link.Replies? && u == Asked(cfg, t, n, hd.spec.sha, hd.body, link)
    requires Reaches(cfg, s, With(u, h, hd.(wait := Some(t.nodes[n].nextPut))))
    ensures Reaches(cfg, s, With(u, h, Moved(hd, Acks(cfg, t, n, hd.spec.sha, hd.body, link))))
  {
    var wait, done := hd.(wait := Some(t.nodes[n].nextPut)), Moved(hd, Acks(cfg, t, n, hd.spec.sha, hd.body, link));
    WithTwice(u, h, wait, done);
    Hears(t, u, h, hd, wait, done, cfg, n, link);
    Then(cfg, s, With(u, h, wait), FanReply(h), With(u, h, done));
  }

  lemma Hears(t: State, u: State, h: nat, hd: Handler, wait: Handler, done: Handler, cfg: Config, n: Node, link: K.Link)
    requires hd.Fan? && hd.wait == None && hd.next < |hd.spec.nodes| && n == hd.spec.nodes[hd.next]
    requires Arrives(t, n, link) && link.Replies? && u == Asked(cfg, t, n, hd.spec.sha, hd.body, link)
    requires wait == hd.(wait := Some(t.nodes[n].nextPut))
    requires done == Moved(hd, Acks(cfg, t, n, hd.spec.sha, hd.body, link))
    requires With(With(u, h, wait), h, done) == With(u, h, done)
    ensures HearsReply(With(u, h, wait), With(u, h, done), h)
  {
    var put := u.nodes[n].puts[t.nodes[n].nextPut];
    assert put.mark == N.Deleted(t.nodes[n], hd.spec.sha);
    assert put.pc == N.Done(N.PutStatus(cfg.sha, t.nodes[n], hd.spec.sha, hd.body, link.fault));
    assert hd.acks + [] == hd.acks;
  }

  function AskedAll(cfg: Config, s: State, b: M.BlockSpec, body: Bytes, links: nat -> K.Link, k: nat): State
    requires k <= |b.nodes|
  {
    if k == 0 then s else Asked(cfg, AskedAll(cfg, s, b, body, links, k - 1), b.nodes[k - 1], b.sha, body, links(k - 1))
  }

  function AllAcks(cfg: Config, s: State, b: M.BlockSpec, body: Bytes, links: nat -> K.Link, k: nat): seq<Ack>
    requires k <= |b.nodes|
  {
    if k == 0 then []
    else AllAcks(cfg, s, b, body, links, k - 1)
         + Acks(cfg, AskedAll(cfg, s, b, body, links, k - 1), b.nodes[k - 1], b.sha, body, links(k - 1))
  }

  /** What the replica at each position answers. */
  function Answers(cfg: Config, s: State, b: M.BlockSpec, body: Bytes, links: nat -> K.Link): nat -> Option<int> {
    (k: nat) =>
      if k >= |b.nodes| then None
      else K.Reply(cfg.sha, K.Fanned(cfg.sha, s.nodes, b.nodes, b.sha, body, links, k),
                   b.nodes[k], b.sha, body, links(k))
  }

  lemma {:induction false} AskedAllIs(cfg: Config, s: State, b: M.BlockSpec, body: Bytes, links: nat -> K.Link, k: nat)
    requires k <= |b.nodes|
    ensures var t := AskedAll(cfg, s, b, body, links, k);
            && t.nodes == K.Fanned(cfg.sha, s.nodes, b.nodes, b.sha, body, links, k)
            && t == s.(nodes := t.nodes, bodies := t.bodies)
  {
    if k > 0 { AskedAllIs(cfg, s, b, body, links, k - 1); }
  }

  lemma AcksAt(cfg: Config, s: State, b: M.BlockSpec, body: Bytes, links: nat -> K.Link, k: nat)
    requires k < |b.nodes|
    ensures |Acks(cfg, AskedAll(cfg, s, b, body, links, k), b.nodes[k], b.sha, body, links(k))| ==
            if T.Accepts(Answers(cfg, s, b, body, links)(k)) then 1 else 0
  {
    AskedAllIs(cfg, s, b, body, links, k);
  }

  /** The k-th PUT adds an acknowledgement exactly when `put` says it was accepted. */
  predicate CountsAt(
      cfg: Config, s: State, b: M.BlockSpec, body: Bytes, links: nat -> K.Link, put: nat -> Option<int>, k: nat)
    requires k < |b.nodes|
  {
    |Acks(cfg, AskedAll(cfg, s, b, body, links, k), b.nodes[k], b.sha, body, links(k))| ==
    if T.Accepts(put(k)) then 1 else 0
  }

  lemma {:induction false} AcksCount(
      cfg: Config, s: State, b: M.BlockSpec, body: Bytes, links: nat -> K.Link, put: nat -> Option<int>, k: nat)
    requires k <= |b.nodes| && forall j: nat | j < |b.nodes| :: CountsAt(cfg, s, b, body, links, put, j)
    ensures |AllAcks(cfg, s, b, body, links, k)| == |T.Accepting(k, put)|
  {
    if k > 0 {
      AcksCount(cfg, s, b, body, links, put, k - 1);
      assert CountsAt(cfg, s, b, body, links, put, k - 1);
    }
  }

  lemma AnswersCount(cfg: Config, s: State, b: M.BlockSpec, body: Bytes, links: nat -> K.Link, put: nat -> Option<int>)
    requires put == Answers(cfg, s, b, body, links)
    ensures forall j: nat | j < |b.nodes| :: CountsAt(cfg, s, b, body, links, put, j)
  {
    forall j: nat | j < |b.nodes| ensures CountsAt(cfg, s, b, body, links, put, j) {
      AcksAt(cfg, s, b, body, links, j);
    }
  }

  lemma AcceptedCount(cfg: Config, s: State, b: M.BlockSpec, body: Bytes, links: nat -> K.Link)
    ensures |AllAcks(cfg, s, b, body, links, |b.nodes|)| == |T.Accepting(|b.nodes|, Answers(cfg, s, b, body, links))|
  {
    var put := Answers(cfg, s, b, body, links);
    AnswersCount(cfg, s, b, body, links, put);
    AcksCount(cfg, s, b, body, links, put, |b.nodes|);
  }

  /** What a fan-out never changes: which nodes are up, and what they have deleted. */
  ghost predicate Calm(w: K.World, u: K.World) {
    u.Keys == w.Keys && forall n | n in w :: u[n].up == w[n].up && u[n].deleted == w[n].deleted
  }

  lemma {:induction false} FannedCalm(
      sha: Bytes -> Hash, w: K.World, nodes: seq<Node>, id: Hash, body: Bytes, links: nat -> K.Link, k: nat)
    requires k <= |nodes|
    ensures Calm(w, K.Fanned(sha, w, nodes, id, body, links, k))
  {
    if k > 0 { FannedCalm(sha, w, nodes, id, body, links, k - 1); }
  }

  lemma AskedAllSound(cfg: Config, s: State, b: M.BlockSpec, body: Bytes, links: nat -> K.Link, k: nat)
    requires k <= |b.nodes| && K.Sound(cfg.sha, s.nodes)
    ensures var t := AskedAll(cfg, s, b, body, links, k); K.Keeps(cfg.sha, s.nodes, t.nodes) && Calm(s.nodes, t.nodes)
  {
    AskedAllIs(cfg, s, b, body, links, k);
    K.FannedKeeps(cfg.sha, s.nodes, b.nodes, b.sha, body, links, 0, k);
    FannedCalm(cfg.sha, s.nodes, b.nodes, b.sha, body, links, k);
  }

  ghost function Fanning(
      cfg: Config, s: State, h: nat, id: nat, b: M.BlockSpec, body: Bytes, links: nat -> K.Link, k: nat): State
    requires k <= |b.nodes|
  {
    With(AskedAll(cfg, s, b, body, links, k), h, Fan(id, b, body, k, AllAcks(cfg, s, b, body, links, k), None))
  }

  lemma FanNext(
      cfg: Config, s: State, t: State, h: nat, id: nat, b: M.BlockSpec, body: Bytes, links: nat -> K.Link, k: nat)
    requires WellFormed(cfg) && K.Sound(cfg.sha, t.nodes) && k < |b.nodes|
             && Reaches(cfg, s, Fanning(cfg, t, h, id, b, body, links, k))
    ensures Reaches(cfg, s, Fanning(cfg, t, h, id, b, body, links, k + 1))
  {
    AskedAllSound(cfg, t, b, body, links, k);
    AskTrace(cfg, s, AskedAll(cfg, t, b, body, links, k), h,
      Fan(id, b, body, k, AllAcks(cfg, t, b, body, links, k), None), links(k));
  }

  lemma {:induction false} FanTrace(
      cfg: Config, s: State, t: State, h: nat, id: nat, b: M.BlockSpec, body: Bytes, links: nat -> K.Link, k: nat)
    requires WellFormed(cfg) && K.Sound(cfg.sha, t.nodes) && k <= |b.nodes|
             && Reaches(cfg, s, Fanning(cfg, t, h, id, b, body, links, 0))
    ensures Reaches(cfg, s, Fanning(cfg, t, h, id, b, body, links, k))
  {
    if k > 0 {
      FanTrace(cfg, s, t, h, id, b, body, links, k - 1);
      FanNext(cfg, s, t, h, id, b, body, links, k - 1);
    }
  }

  /** The answers an upload hears, if it gets to ask. */
  ghost function Heard(
      cfg: Config, s: State, name: string, idx: int, body: Bytes, links: nat -> K.Link): nat -> Option<int>
  {
    match M.Find(s.tables, name)
    case None => k => None
    case Some(id) =>
      var rows := M.Rows(s.tables, id);
      if idx in rows then Answers(cfg, s, rows[idx].spec, body, links) else k => None
  }

  lemma TakeAll(body: Bytes, size: int)
    ensures |Take(body, size + 1)| == size <==> |body| == size
    ensures |body| == size ==> Take(body, size + 1) == body
  {}

  /** What an upload leaves behind: its reply, the tables, and the nodes as the fan-out left them. */
  ghost predicate Left(cfg: Config, s: State, t: State, h: nat, status: int, tables: M.Tables)
    requires WellFormed(cfg)
  {
    && Reaches(cfg, s, t) && t.handlers == s.handlers[h := Replied(status)]
    && t.origin == s.origin && t.tables == tables
    && K.Keeps(cfg.sha, s.nodes, t.nodes) && Calm(s.nodes, t.nodes)
  }

  /** From the end of the fan-out to the reply. */
  lemma FanEndTrace(cfg: Config, s: State, h: nat, id: nat, b: M.BlockSpec, body: Bytes, links: nat -> K.Link)
    returns (t: State)
    requires WellFormed(cfg) && K.Sound(cfg.sha, s.nodes) && Reaches(cfg, s, With(s, h, Fan(id, b, body, 0, [], None)))
    requires b.idx in M.Rows(s.tables, id)
    ensures if T.Accepting(|b.nodes|, Answers(cfg, s, b, body, links)) == [] then Left(cfg, s, t, h, 502, s.tables)
            else Left(cfg, s, t, h, 200, M.MarkRow(s.tables, id, b.idx))
  {
    var u, acks := AskedAll(cfg, s, b, body, links, |b.nodes|), AllAcks(cfg, s, b, body, links, |b.nodes|);
    FanTrace(cfg, s, s, h, id, b, body, links, |b.nodes|);
    AskedAllIs(cfg, s, b, body, links, |b.nodes|);
    AcceptedCount(cfg, s, b, body, links);
    AskedAllSound(cfg, s, b, body, links, |b.nodes|);
    t := MarkTrace(cfg, s, u, h, id, b, body, acks);
  }

  lemma MarkTrace(cfg: Config, s: State, u: State, h: nat, id: nat, b: M.BlockSpec, body: Bytes, acks: seq<Ack>)
    returns (t: State)
    requires WellFormed(cfg) && Reaches(cfg, s, With(u, h, Fan(id, b, body, |b.nodes|, acks, None)))
    requires b.idx in M.Rows(s.tables, id) && u == s.(nodes := u.nodes, bodies := u.bodies)
    requires K.Keeps(cfg.sha, s.nodes, u.nodes) && Calm(s.nodes, u.nodes)
    ensures if acks == [] then Left(cfg, s, t, h, 502, s.tables)
            else Left(cfg, s, t, h, 200, M.MarkRow(s.tables, id, b.idx))
  {
    var fan := Fan(id, b, body, |b.nodes|, acks, None);
    var next := if acks == [] then Replied(502) else Mark(id, b, body, acks);
    WithTwice(u, h, fan, next);
    Turns(cfg, s, u, h, fan, next);
    t := With(u, h, next);
    if acks != [] {
      t := u.(tables := M.MarkRow(u.tables, id, b.idx), ledger := Recorded(u.ledger, id, b.idx, Entry(body, acks)),
              handlers := u.handlers[h := Replied(200)]);
      assert u.handlers[h := next][h := Replied(200)] == u.handlers[h := Replied(200)];
      AdvancesTo(cfg, s, u, h, next, t);
    }
  }

  /** From the request to the fan-out, or to a reply before it. */
  lemma AdmitTrace(cfg: Config, s: State, h: nat, name: string, idx: nat, body: Bytes)
    requires WellFormed(cfg) && h !in s.handlers
    ensures match M.Find(s.tables, name)
            case None => Reaches(cfg, s, With(s, h, Replied(404)))
            case Some(id) => Reaches(cfg, s, With(s, h, Admit(cfg, M.Rows(s.tables, id), id, idx, body)))
  {
    Spawns(cfg, s, h, Put(name, idx, body));
    var found := M.Find(s.tables, name);
    var next := match found case None => Replied(404) case Some(id) => PutFound(id, idx, body);
    WithTwice(s, h, Put(name, idx, body), next);
    Turns(cfg, s, s, h, Put(name, idx, body), next);
    if found.Some? {
      var admit := Admit(cfg, M.Rows(s.tables, found.value), found.value, idx, body);
      WithTwice(s, h, next, admit);
      Turns(cfg, s, s, h, next, admit);
    }
  }

  lemma NothingHappened(cfg: Config, s: State, h: nat, status: int)
    requires WellFormed(cfg) && K.Sound(cfg.sha, s.nodes) && Reaches(cfg, s, With(s, h, Replied(status)))
    ensures Left(cfg, s, With(s, h, Replied(status)), h, status, s.tables)
  {}

  /** uploadBlock as one run: its status and what it does to the tables are those of
      `Client.Coordinator.UploadBlock` for the answers the nodes give. */
  lemma UploadTrace(cfg: Config, s: State, h: nat, name: string, idx: nat, body: Bytes, links: nat -> K.Link)
      returns (t: State)
    requires WellFormed(cfg) && h !in s.handlers && K.Sound(cfg.sha, s.nodes) && M.Schema(s.tables)
    ensures var heard := Heard(cfg, s, name, idx, body, links);
            var status := Client.Coordinator.UploadStatus(cfg.sha, s.tables, name, idx, body, heard);
            Left(cfg, s, t, h, status,
                 if status == 200 then M.MarkRow(s.tables, M.Find(s.tables, name).value, idx) else s.tables)
  {
    AdmitTrace(cfg, s, h, name, idx, body);
    var found := M.Find(s.tables, name);
    if found.None? {
      NothingHappened(cfg, s, h, 404);
      t := With(s, h, Replied(404));
    } else {
      var id, rows := found.value, M.Rows(s.tables, found.value);
      var admit := Admit(cfg, rows, id, idx, body);
      if idx in rows { TakeAll(body, rows[idx].spec.size); }
      if admit.Fan? {
        t := FanEndTrace(cfg, s, h, id, rows[idx].spec, body, links);
      } else {
        NothingHappened(cfg, s, h, admit.status);
        t := With(s, h, admit);
        if idx in rows && rows[idx].uploaded { Client.MarkTwice(s.tables, id, idx); }
      }
    }
  }
}
