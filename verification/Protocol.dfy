/** The upload/download protocol as a step relation: HTTP handlers of the coordinator, cut at
    every metastore statement and every node request, interleaved with each other, with the
    storage nodes' own steps, and with clients that talk to a node directly. */
module Protocol {
  import opened Basics
  import M = Metastore
  import N = NodeStore
  import C = Chunking
  import P = Placement
  import T = Transfer

  type Hash = string
  type Node = string

  /** `pick` is pickNodes for the configured nodes. */
  datatype Config = Config(
    nodes: seq<Node>, replicas: nat, sha: Bytes -> Hash, score: Hash -> Node -> nat, pick: Hash -> seq<Node>)

  ghost predicate WellFormed(cfg: Config) {
    1 <= cfg.replicas <= |cfg.nodes| && forall h :: P.IsRanking(cfg.score(h), cfg.nodes, cfg.pick(h))
  }

  /** A replica that answered a PUT with 2xx, and how many DELETEs of that block it had served
      when the PUT began. */
  datatype Ack = Ack(node: Node, mark: nat)

  /** What the last handler that marked a block had in hand (history). */
  datatype Entry = Entry(body: Bytes, acks: seq<Ack>)

  /** A response being streamed: the file row and block list read, and the blocks written in full. */
  datatype Download = Download(id: nat, file: M.FileRow, specs: seq<M.BlockSpec>, parts: seq<Bytes>)

  datatype Handler =
    | Init(reg: M.Registration)                 // manifest checked and placed; transaction next
    | InitFound(name: string)                   // committed; GetFile next
    | InitMissing(id: nat)                      // MissingBlocks next
    | InitReply(id: nat, missing: seq<int>)
    | Put(name: string, idx: int, body: Bytes)
    | PutFound(id: nat, idx: int, body: Bytes)  // GetBlock next
    | Fan(id: nat, spec: M.BlockSpec, body: Bytes, next: nat, acks: seq<Ack>, wait: Option<nat>)
    | Mark(id: nat, spec: M.BlockSpec, body: Bytes, acks: seq<Ack>)
    | Commit(name: string)
    | CommitFound(id: nat)                      // SELECT COUNT next
    | CommitCounted(id: nat)                    // UPDATE next
    | Get(name: string)
    | GetFound(id: nat, file: M.FileRow)        // ListBlocks next
    | Send(dl: Download, cand: nat, open: Option<Bytes>, partial: Bytes)
    | GetReply(dl: Download, tail: Bytes)
    | Del(name: string)
    | DelFound(name: string, id: nat)           // ListBlocks next
    | DelFan(name: string, id: nat, todo: seq<(Node, Hash)>)
    | Replied(status: int)

  /** `origin` (the registration that created an id), `ledger` and `bodies` (everything ever
      sent to a node) are history. */
  datatype State = State(
    tables: M.Tables, nodes: map<Node, N.NodeState>, handlers: map<nat, Handler>,
    origin: map<nat, M.Registration>, ledger: map<nat, map<int, Entry>>, bodies: set<Bytes>)

  datatype Step =
    | Spawn(h: nat, start: Handler)       // a request arrives
    | Drop(h: nat)                        // client gone, or coordinator crash
    | Advance(h: nat)                     // next statement of a handler
    | Ordered(h: nat, order: seq<int>)    // a SELECT ... ORDER BY idx
    | FanSend(h: nat)
    | FanReply(h: nat)
    | FanError(h: nat)                    // error or timeout, before or after the node acts
    | Open(h: nat)                        // GET answered 200
    | Skip(h: nat)                        // GET failed or was not answered 200
    | CopyTo(h: nat, upTo: nat)
    | Break(h: nat)                       // io.Copy failed
    | DelSend(h: nat, reached: bool)
    | AtNode(n: Node, step: N.Step)

  ghost predicate Initial(cfg: Config, s: State) {
    && s.tables == M.Tables(1, map[], map[])
    && (forall n | n in s.nodes :: s.nodes[n] == N.EMPTY_NODE)
    && s.handlers == map[] && s.origin == map[] && s.ledger == map[] && s.bodies == {}
  }

  // ----- steps -----

  /** The checks of initUpload, and its choice of replicas. */
  ghost predicate Admitted(cfg: Config, reg: M.Registration)
    requires WellFormed(cfg)
  {
    && reg.blockSize > 0 && reg.size >= 0 && |reg.sha| == 64
    && forall b | b in reg.specs :: |b.sha| == 64 && b.size > 0 && b.nodes == Replicas(cfg, b.sha)
  }

  function Replicas(cfg: Config, h: Hash): seq<Node> {
    Take(cfg.pick(h), cfg.replicas)
  }

  /** The rows initUpload makes of a manifest: each block on the first `replicas` ranked nodes. */
  function Placed(pick: Hash -> seq<Node>, replicas: nat, m: C.FileManifest): M.Registration {
    M.Registration(m.name, m.size, m.sha, m.blockSize,
      seq(|m.blocks|, i requires 0 <= i < |m.blocks| => SpecOf(pick, replicas, m.blocks[i])))
  }

  function SpecOf(pick: Hash -> seq<Node>, replicas: nat, b: C.BlockInfo): M.BlockSpec {
    M.BlockSpec(b.index, b.sha, b.size, Take(pick(b.sha), replicas))
  }

  ghost predicate IsStart(cfg: Config, hd: Handler)
    requires WellFormed(cfg)
  {
    match hd
    case Init(reg) => Admitted(cfg, reg)
    case Put(_, idx, _) => idx >= 0
    case Commit(_) => true
    case Get(_) => true
    case Del(_) => true
    case _ => false
  }

  ghost predicate Goes(s: State, t: State, h: nat, hd: Handler) {
    t == s.(handlers := s.handlers[h := hd])
  }

  lemma OrderInRows(rows: map<int, M.BlockRow>, order: seq<int>)
    requires M.Lists(order, rows.Keys)
    ensures forall k | 0 <= k < |order| :: order[k] in rows
  {
    forall k | 0 <= k < |order| ensures order[k] in rows { assert order[k] in order; }
  }

  ghost function Specs(rows: map<int, M.BlockRow>, order: seq<int>): seq<M.BlockSpec>
    requires M.Lists(order, rows.Keys)
  {
    OrderInRows(rows, order);
    seq(|order|, k requires 0 <= k < |order| => rows[order[k]].spec)
  }

  function Targets(specs: seq<M.BlockSpec>): seq<(Node, Hash)> {
    if specs == [] then []
    else
      var b := specs[0];
      seq(|b.nodes|, k requires 0 <= k < |b.nodes| => (b.nodes[k], b.sha)) + Targets(specs[1..])
  }

  /** fanoutPut is past its last node. */
  predicate FanDone(hd: Handler) {
    hd.Fan? && hd.next == |hd.spec.nodes| && hd.wait == None
  }

  ghost predicate Advances(cfg: Config, s: State, t: State, h: nat, hd: Handler)
    requires WellFormed(cfg)
  {
    match hd
    case Init(reg) =>
      var (u, e) := M.Register(s.tables, reg);
      t == s.(tables := u,
              origin := if u.nextId == s.tables.nextId then s.origin else s.origin[s.tables.nextId := reg],
              handlers := s.handlers[h := if e.None? then InitFound(reg.name)
                                          else Replied(if e.value.Conflict? then 409 else 500)])
    case InitFound(name) =>
      Goes(s, t, h, match M.Find(s.tables, name) case None => Replied(500) case Some(id) => InitMissing(id))
    case Put(name, idx, body) =>
      Goes(s, t, h, match M.Find(s.tables, name) case None => Replied(404) case Some(id) => PutFound(id, idx, body))
    case PutFound(id, idx, body) => Goes(s, t, h, Admit(cfg, M.Rows(s.tables, id), id, idx, body))
    case Fan(id, spec, body, next, acks, wait) =>
      FanDone(hd) && Goes(s, t, h, if acks == [] then Replied(502) else Mark(id, spec, body, acks))
    case Mark(id, spec, body, acks) =>
      if spec.idx in M.Rows(s.tables, id) then
        t == s.(tables := M.MarkRow(s.tables, id, spec.idx),
                ledger := Recorded(s.ledger, id, spec.idx, Entry(body, acks)),
                handlers := s.handlers[h := Replied(200)])
      else Goes(s, t, h, Replied(500))
    case Commit(name) =>
      Goes(s, t, h, match M.Find(s.tables, name) case None => Replied(404) case Some(id) => CommitFound(id))
    case CommitFound(id) => Goes(s, t, h, if M.PendingSet(s.tables, id) == {} then CommitCounted(id) else Replied(400))
    case CommitCounted(id) => t == s.(tables := M.SetComplete(s.tables, id), handlers := s.handlers[h := Replied(200)])
    case Get(name) =>
      Goes(s, t, h, match M.Find(s.tables, name)
                    case None => Replied(404)
                    case Some(id) =>
                      if s.tables.files[id].complete then GetFound(id, s.tables.files[id]) else Replied(409))
    case Send(dl, cand, open, partial) =>
      if |dl.parts| == |dl.specs| then open == None && Goes(s, t, h, GetReply(dl, []))
      else if open == None then
        |dl.parts| < |dl.specs| && cand == |Tried(cfg, dl.specs[|dl.parts|])| && Goes(s, t, h, GetReply(dl, []))
      else
        partial == open.value && Goes(s, t, h, Send(dl.(parts := dl.parts + [partial]), 0, None, []))
    case Del(name) =>
      Goes(s, t, h, match M.Find(s.tables, name) case None => Replied(404) case Some(id) => DelFound(name, id))
    case DelFan(name, _, todo) =>
      && todo == []
      && t == s.(tables := M.DeleteFile(s.tables, name),
                 handlers := s.handlers[h := Replied(if M.Find(s.tables, name).None? then 500 else 204)])
    case _ => false
  }

  /** uploadBlock between GetBlock and fanoutPut. */
  function Admit(cfg: Config, rows: map<int, M.BlockRow>, id: nat, idx: int, body: Bytes): Handler {
    if idx !in rows then Replied(404)
    else if rows[idx].uploaded then Replied(200)
    else
      var spec := rows[idx].spec;
      var read := Take(body, spec.size + 1);
      if |read| != spec.size || cfg.sha(read) != spec.sha then Replied(400)
      else Fan(id, spec, read, 0, [], None)
  }

  function Recorded(ledger: map<nat, map<int, Entry>>, id: nat, idx: int, e: Entry): map<nat, map<int, Entry>> {
    ledger[id := (if id in ledger then ledger[id] else map[])[idx := e]]
  }

  function Tried(cfg: Config, spec: M.BlockSpec): seq<Node> {
    T.Candidates(spec.nodes, cfg.pick(spec.sha))
  }

  ghost predicate NodeSteps(cfg: Config, s: State, t: State, n: Node, step: N.Step, handlers: map<nat, Handler>) {
    && n in s.nodes && N.Enabled(s.nodes[n], step)
    && t == s.(nodes := s.nodes[n := N.Apply(cfg.sha, s.nodes[n], step)],
               bodies := if step.Begin? then s.bodies + {step.body} else s.bodies,
               handlers := handlers)
  }

  ghost predicate Selects(s: State, t: State, h: nat, order: seq<int>) {
    h in s.handlers && (
      match s.handlers[h]
      case InitMissing(id) => M.Lists(order, M.PendingSet(s.tables, id)) && Goes(s, t, h, InitReply(id, order))
      case GetFound(id, file) =>
        && M.Lists(order, M.Rows(s.tables, id).Keys)
        && Goes(s, t, h, Send(Download(id, file, Specs(M.Rows(s.tables, id), order), []), 0, None, []))
      case DelFound(name, id) =>
        && M.Lists(order, M.Rows(s.tables, id).Keys)
        && Goes(s, t, h, DelFan(name, id, Targets(Specs(M.Rows(s.tables, id), order))))
      case _ => false)
  }

  ghost predicate SendsPut(cfg: Config, s: State, t: State, h: nat) {
    && h in s.handlers && s.handlers[h].Fan?
    && var hd := s.handlers[h];
    && hd.wait == None && hd.next < |hd.spec.nodes| && hd.spec.nodes[hd.next] in s.nodes
    && NodeSteps(cfg, s, t, hd.spec.nodes[hd.next], N.Begin(hd.spec.sha, hd.body),
                 s.handlers[h := hd.(wait := Some(s.nodes[hd.spec.nodes[hd.next]].nextPut))])
  }

  ghost predicate HearsReply(s: State, t: State, h: nat) {
    && h in s.handlers && s.handlers[h].Fan?
    && var hd := s.handlers[h];
    && hd.wait.Some? && hd.next < |hd.spec.nodes| && hd.spec.nodes[hd.next] in s.nodes
    && var node := s.nodes[hd.spec.nodes[hd.next]];
    && hd.wait.value in node.puts && node.puts[hd.wait.value].pc.Done?
    && var put := node.puts[hd.wait.value];
    && Goes(s, t, h, hd.(next := hd.next + 1, wait := None,
                         acks := if N.IsOk(put.pc.status) then hd.acks + [Ack(hd.spec.nodes[hd.next], put.mark)]
                                 else hd.acks))
  }

  ghost predicate GivesUp(s: State, t: State, h: nat) {
    && h in s.handlers && s.handlers[h].Fan?
    && var hd := s.handlers[h];
    && hd.next < |hd.spec.nodes| && Goes(s, t, h, hd.(next := hd.next + 1, wait := None))
  }

  ghost predicate Opens(cfg: Config, s: State, t: State, h: nat) {
    && h in s.handlers && s.handlers[h].Send?
    && var hd := s.handlers[h];
    && hd.open == None && |hd.dl.parts| < |hd.dl.specs|
    && var spec := hd.dl.specs[|hd.dl.parts|];
    && hd.cand < |Tried(cfg, spec)| && Tried(cfg, spec)[hd.cand] in s.nodes
    && var node := s.nodes[Tried(cfg, spec)[hd.cand]];
    && node.up && spec.sha in node.disk && Goes(s, t, h, hd.(open := Some(node.disk[spec.sha]), partial := []))
  }

  ghost predicate Skips(cfg: Config, s: State, t: State, h: nat) {
    && h in s.handlers && s.handlers[h].Send?
    && var hd := s.handlers[h];
    && hd.open == None && |hd.dl.parts| < |hd.dl.specs| && hd.cand < |Tried(cfg, hd.dl.specs[|hd.dl.parts|])|
    && Goes(s, t, h, hd.(cand := hd.cand + 1))
  }

  ghost predicate Copies(s: State, t: State, h: nat, upTo: nat) {
    && h in s.handlers && s.handlers[h].Send?
    && var hd := s.handlers[h];
    && hd.open.Some? && |hd.partial| <= upTo <= |hd.open.value| && Goes(s, t, h, hd.(partial := hd.open.value[..upTo]))
  }

  ghost predicate Breaks(s: State, t: State, h: nat) {
    && h in s.handlers && s.handlers[h].Send?
    && var hd := s.handlers[h];
    && hd.open.Some? && Goes(s, t, h, GetReply(hd.dl, hd.partial))
  }

  ghost predicate SendsDelete(cfg: Config, s: State, t: State, h: nat, reached: bool) {
    && h in s.handlers && s.handlers[h].DelFan? && s.handlers[h].todo != []
    && var (n, hash) := s.handlers[h].todo[0];
    && var rest := s.handlers[h].(todo := s.handlers[h].todo[1..]);
    && if reached then NodeSteps(cfg, s, t, n, N.Delete(hash), s.handlers[h := rest]) else Goes(s, t, h, rest)
  }

  ghost predicate Does(cfg: Config, s: State, t: State, step: Step)
    requires WellFormed(cfg)
  {
    match step
    case Spawn(h, start) => h !in s.handlers && IsStart(cfg, start) && Goes(s, t, h, start)
    case Drop(h) => t == s.(handlers := s.handlers - {h})
    case Advance(h) => h in s.handlers && Advances(cfg, s, t, h, s.handlers[h])
    case Ordered(h, order) => Selects(s, t, h, order)
    case FanSend(h) => SendsPut(cfg, s, t, h)
    case FanReply(h) => HearsReply(s, t, h)
    case FanError(h) => GivesUp(s, t, h)
    case Open(h) => Opens(cfg, s, t, h)
    case Skip(h) => Skips(cfg, s, t, h)
    case CopyTo(h, upTo) => Copies(s, t, h, upTo)
    case Break(h) => Breaks(s, t, h)
    case DelSend(h, reached) => SendsDelete(cfg, s, t, h, reached)
    case AtNode(n, nodeStep) => NodeSteps(cfg, s, t, n, nodeStep, s.handlers)
  }

  ghost predicate Next(cfg: Config, s: State, t: State)
    requires WellFormed(cfg)
  {
    exists step :: Does(cfg, s, t, step)
  }

  ghost predicate StepsAt(cfg: Config, run: seq<State>, i: nat)
    requires WellFormed(cfg) && i + 1 < |run|
  {
    Next(cfg, run[i], run[i + 1])
  }

  ghost predicate IsPath(cfg: Config, run: seq<State>)
    requires WellFormed(cfg)
  {
    run != [] && forall i: nat | i + 1 < |run| :: StepsAt(cfg, run, i)
  }

  ghost predicate IsRun(cfg: Config, run: seq<State>)
    requires WellFormed(cfg)
  {
    IsPath(cfg, run) && Initial(cfg, run[0])
  }

  lemma StepTaken(cfg: Config, run: seq<State>, i: nat) returns (step: Step)
    requires WellFormed(cfg) && IsPath(cfg, run) && i + 1 < |run|
    ensures Does(cfg, run[i], run[i + 1], step)
  {
    assert StepsAt(cfg, run, i);
    step :| Does(cfg, run[i], run[i + 1], step);
  }

  /** The bytes a download has written to its client so far. */
  function Emitted(hd: Handler): Bytes
    requires hd.Send? || hd.GetReply?
  {
    Flatten(hd.dl.parts) + if hd.Send? then hd.partial else hd.tail
  }
}
