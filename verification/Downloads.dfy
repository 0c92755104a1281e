/** The download handler, run without interruption, delivers what `Serving.Download` says; hence a
    complete file can be delivered whole while too few nodes are down to matter. */
module Downloads {
  import opened Basics
  import opened Protocol
  import opened ProtocolInvariant
  import opened ProtocolSteps
  import opened ProtocolTheorems
  import opened Traces
  import M = Metastore
  import S = Serving
  import T = Transfer

  /** Replies the nodes can give in state s: a 200 comes from a node that is up and has the block,
      and carries the stored bytes or breaks off within them. */
  ghost predicate CanReply(s: State, get: S.Net) {
    forall h, n :: Possible(s, h, n, get(h)(n))
  }

  predicate Possible(s: State, h: Hash, n: Node, r: T.Reply) {
    match r
    case Body(content) => n in s.nodes && s.nodes[n].up && h in s.nodes[n].disk && s.nodes[n].disk[h] == content
    case Broken(part) => n in s.nodes && s.nodes[n].up && h in s.nodes[n].disk && part <= s.nodes[n].disk[h]
    case _ => true
  }

  // ----- one block -----

  lemma {:induction false} SkipTrace(cfg: Config, s: State, t: State, h: nat, dl: Download, cand: nat)
    requires WellFormed(cfg) && Reaches(cfg, s, With(t, h, Send(dl, 0, None, [])))
    requires |dl.parts| < |dl.specs| && cand <= |Tried(cfg, dl.specs[|dl.parts|])|
    ensures Reaches(cfg, s, With(t, h, Send(dl, cand, None, [])))
    decreases cand
  {
    if cand > 0 {
      SkipTrace(cfg, s, t, h, dl, cand - 1);
      WithTwice(t, h, Send(dl, cand - 1, None, []), Send(dl, cand, None, []));
      Then(cfg, s, With(t, h, Send(dl, cand - 1, None, [])), Skip(h), With(t, h, Send(dl, cand, None, [])));
    }
  }

  /** The candidate answers 200, and `part` of what it has is copied. */
  lemma CopyTrace(cfg: Config, s: State, t: State, h: nat, dl: Download, cand: nat, part: Bytes)
      returns (stored: Bytes)
    requires WellFormed(cfg) && |dl.parts| < |dl.specs| && cand < |Tried(cfg, dl.specs[|dl.parts|])|
    requires Reaches(cfg, s, With(t, h, Send(dl, cand, None, [])))
    requires var b := dl.specs[|dl.parts|];
             var n := Tried(cfg, b)[cand];
             n in t.nodes && t.nodes[n].up && b.sha in t.nodes[n].disk && part <= t.nodes[n].disk[b.sha]
    ensures stored == t.nodes[Tried(cfg, dl.specs[|dl.parts|])[cand]].disk[dl.specs[|dl.parts|].sha]
    ensures Reaches(cfg, s, With(t, h, Send(dl, cand, Some(stored), part)))
  {
    stored := t.nodes[Tried(cfg, dl.specs[|dl.parts|])[cand]].disk[dl.specs[|dl.parts|].sha];
    var start, open, copied :=
      Send(dl, cand, None, []), Send(dl, cand, Some(stored), []), Send(dl, cand, Some(stored), part);
    WithTwice(t, h, start, open);
    Then(cfg, s, With(t, h, start), Open(h), With(t, h, open));
    WithTwice(t, h, open, copied);
    assert stored[..|part|] == part;
    Then(cfg, s, With(t, h, open), CopyTo(h, |part|), With(t, h, copied));
  }

  /** The handler after the block it is at, given the reply that decides. */
  function Decided(dl: Download, r: T.Reply): Handler {
    match r
    case Body(content) => Send(dl.(parts := dl.parts + [content]), 0, None, [])
    case _ => GetReply(dl, S.Started(r))
  }

  /** streamBlock as part of a run. */
  lemma BlockTrace(cfg: Config, s: State, t: State, h: nat, dl: Download, get: S.Net)
    requires WellFormed(cfg) && CanReply(t, get) && |dl.parts| < |dl.specs|
    requires Reaches(cfg, s, With(t, h, Send(dl, 0, None, [])))
    ensures Reaches(cfg, s, With(t, h, Decided(dl, S.Answer(cfg.pick, dl.specs[|dl.parts|], get))))
  {
    var b := dl.specs[|dl.parts|];
    var tried, reply := Tried(cfg, b), S.Answer(cfg.pick, b, get);
    T.FirstAnswerAt(tried, get(b.sha));
    if T.Refuses(reply) {
      SkipTrace(cfg, s, t, h, dl, |tried|);
      WithTwice(t, h, Send(dl, |tried|, None, []), GetReply(dl, []));
      Turns(cfg, s, t, h, Send(dl, |tried|, None, []), GetReply(dl, []));
    } else {
      var i :| T.FirstAt(tried, get(b.sha), T.Answers, i);
      assert Possible(t, b.sha, tried[i], reply);
      SkipTrace(cfg, s, t, h, dl, i);
      var part := if reply.Body? then reply.content else reply.sent;
      var stored := CopyTrace(cfg, s, t, h, dl, i, part);
      var copied := Send(dl, i, Some(stored), part);
      WithTwice(t, h, copied, Decided(dl, reply));
      if reply.Body? {
        Turns(cfg, s, t, h, copied, Decided(dl, reply));
      } else {
        Then(cfg, s, With(t, h, copied), Break(h), With(t, h, Decided(dl, reply)));
      }
    }
  }

  // ----- a whole download -----

  /** What the last block puts out when it cannot be sent whole. */
  ghost function Tail(cfg: Config, rows: seq<M.BlockRow>, parts: seq<Bytes>, get: S.Net): Bytes {
    if |parts| < |rows| then S.Started(S.Answer(cfg.pick, rows[|parts|].spec, get)) else []
  }

  lemma {:induction false} StreamTrace(
      cfg: Config, s: State, t: State, h: nat, dl: Download, rows: seq<M.BlockRow>, get: S.Net,
      parts: seq<Bytes>, sent: Bytes, ok: bool, k: nat)
    requires WellFormed(cfg) && CanReply(t, get) && S.Sent(cfg.pick, rows, get, parts, sent, ok) && k <= |parts|
    requires dl.specs == S.SpecsOf(rows) && Reaches(cfg, s, With(t, h, Send(dl.(parts := []), 0, None, [])))
    ensures Reaches(cfg, s, With(t, h, Send(dl.(parts := parts[..k]), 0, None, [])))
  {
    if k == 0 {
      assert parts[..0] == [];
    } else {
      StreamTrace(cfg, s, t, h, dl, rows, get, parts, sent, ok, k - 1);
      BlockTrace(cfg, s, t, h, dl.(parts := parts[..k - 1]), get);
      assert parts[..k - 1] + [parts[k - 1]] == parts[..k];
    }
  }

  lemma StreamEnds(
      cfg: Config, s: State, t: State, h: nat, dl: Download, rows: seq<M.BlockRow>, get: S.Net,
      parts: seq<Bytes>, sent: Bytes, ok: bool)
    requires WellFormed(cfg) && CanReply(t, get) && S.Sent(cfg.pick, rows, get, parts, sent, ok)
    requires dl.specs == S.SpecsOf(rows) && dl.parts == parts && Reaches(cfg, s, With(t, h, Send(dl, 0, None, [])))
    ensures Reaches(cfg, s, With(t, h, GetReply(dl, Tail(cfg, rows, parts, get))))
    ensures Emitted(GetReply(dl, Tail(cfg, rows, parts, get))) == sent
  {
    if ok {
      WithTwice(t, h, Send(dl, 0, None, []), GetReply(dl, []));
      Turns(cfg, s, t, h, Send(dl, 0, None, []), GetReply(dl, []));
      assert Flatten(parts) + [] == Flatten(parts);
    } else {
      BlockTrace(cfg, s, t, h, dl, get);
    }
  }

  lemma ListingSpecs(t: M.Tables, id: nat, rows: seq<M.BlockRow>) returns (order: seq<int>)
    requires S.IsListing(t, id, rows)
    ensures M.Lists(order, M.Rows(t, id).Keys) && Specs(M.Rows(t, id), order) == S.SpecsOf(rows)
  {
    order := seq(|rows|, i requires 0 <= i < |rows| => S.IndexOf(rows[i]));
    OrderInRows(M.Rows(t, id), order);
  }

  /** Where the handler of a GET ends up. */
  ghost function Fetched(
      cfg: Config, t: M.Tables, name: string, rows: seq<M.BlockRow>, get: S.Net, parts: seq<Bytes>): Handler
  {
    match M.Find(t, name)
    case None => Replied(404)
    case Some(id) =>
      if !t.files[id].complete then Replied(409)
      else GetReply(Download(id, t.files[id], S.SpecsOf(rows), parts), Tail(cfg, rows, parts, get))
  }

  /** download as one run: for any replies the nodes can give, what `Serving.Download` promises
      to return is what the handler of the step relation has replied and emitted. */
  lemma DownloadTrace(
      cfg: Config, s: State, h: nat, name: string, rows: seq<M.BlockRow>, get: S.Net,
      parts: seq<Bytes>, sent: Bytes, ok: bool)
    requires WellFormed(cfg) && h !in s.handlers && CanReply(s, get)
    requires var found := M.Find(s.tables, name);
             found.Some? && s.tables.files[found.value].complete ==>
               S.IsListing(s.tables, found.value, rows) && S.Sent(cfg.pick, rows, get, parts, sent, ok)
    ensures var hd := Fetched(cfg, s.tables, name, rows, get, parts);
            && Reaches(cfg, s, With(s, h, hd))
            && if S.DownloadStatus(s.tables, name) == 200 then hd.GetReply? && Emitted(hd) == sent
               else hd == Replied(S.DownloadStatus(s.tables, name))
  {
    Spawns(cfg, s, h, Get(name));
    var found := M.Find(s.tables, name);
    var next := match found
      case None => Replied(404)
      case Some(id) => if s.tables.files[id].complete then GetFound(id, s.tables.files[id]) else Replied(409);
    WithTwice(s, h, Get(name), next);
    Turns(cfg, s, s, h, Get(name), next);
    if next.GetFound? {
      var id := found.value;
      var order := ListingSpecs(s.tables, id, rows);
      var dl := Download(id, s.tables.files[id], S.SpecsOf(rows), parts);
      var start := Send(dl.(parts := []), 0, None, []);
      WithTwice(s, h, next, start);
      Then(cfg, s, With(s, h, next), Ordered(h, order), With(s, h, start));
      StreamTrace(cfg, s, s, h, dl, rows, get, parts, sent, ok, |parts|);
      assert parts[..|parts|] == parts;
      StreamEnds(cfg, s, s, h, dl, rows, get, parts, sent, ok);
    }
  }

  // ----- delivery -----

  /** What the nodes do answer in state s when no transfer breaks off. */
  ghost function Replies(s: State): S.Net {
    h => NodeReply(s, h)
  }

  lemma RepliesCan(s: State)
    ensures CanReply(s, Replies(s))
  {
    forall h, n ensures Possible(s, h, n, Replies(s)(h)(n)) {}
  }

  lemma {:induction false} NeverBroken(s: State, h: Hash, tried: seq<Node>)
    ensures !T.FirstAnswer(tried, NodeReply(s, h)).Broken?
  {
    if tried != [] { NeverBroken(s, h, tried[1..]); }
  }

  lemma ReadableAnswer(cfg: Config, s: State, b: M.BlockSpec)
    requires Readable(cfg, s, b)
    ensures var r := S.Answer(cfg.pick, b, Replies(s)); r.Body? && cfg.sha(r.content) == b.sha && r.content in s.bodies
  {
    T.StreamFailsIffBroken(Tried(cfg, b), NodeReply(s, b.sha));
    NeverBroken(s, b.sha, Tried(cfg, b));
  }

  lemma Listing(t: M.Tables, id: nat) returns (rows: seq<M.BlockRow>)
    requires M.Schema(t) && id in t.files
    ensures S.IsListing(t, id, rows)
  {
    var order := Sorting(M.Rows(t, id).Keys);
    OrderInRows(M.Rows(t, id), order);
    rows := seq(|order|, i requires 0 <= i < |order| => M.Rows(t, id)[order[i]]);
    forall i | 0 <= i < |rows| ensures S.IndexOf(rows[i]) == order[i] {
      assert M.KeyedByIdx(t.blocks[id]);
    }
    assert seq(|rows|, i requires 0 <= i < |rows| => S.IndexOf(rows[i])) == order;
  }

  lemma {:induction false} Sorting(s: set<int>) returns (order: seq<int>)
    ensures M.Lists(order, s)
  {
    order := [];
    if s != {} {
      M.NonEmpty(s);
      var x :| x in s;
      order := Sorting(s - {x});
      M.InsertLists(x, order, s - {x});
      assert s - {x} + {x} == s;
      order := M.Insert(x, order);
    }
  }

  /** The rows of an honest file, listed, are its registered blocks. */
  lemma HonestListing(cfg: Config, s: State, id: nat, data: Bytes, rows: seq<M.BlockRow>)
    requires WellFormed(cfg) && Inv(cfg, s) && id in s.tables.files && S.IsListing(s.tables, id, rows)
    requires id in s.origin && Honest(cfg, s.origin[id], data)
    ensures S.SpecsOf(rows) == s.origin[id].specs
  {
    var order := ListingSpecs(s.tables, id, rows);
    var all := s.origin[id].specs;
    HonestSpecs(cfg, s.origin[id], data);
    SpecsListed(M.Rows(s.tables, id), all, order);
    assert all == [] || (all[0] in all && all[0].idx in order);
    if S.SpecsOf(rows) != [] {
      HonestOrder(all, S.SpecsOf(rows));
    }
  }

  lemma DeliveredParts(cfg: Config, s: State, rows: seq<M.BlockRow>) returns (parts: seq<Bytes>)
    requires forall i | 0 <= i < |rows| :: Readable(cfg, s, rows[i].spec)
    ensures S.Sent(cfg.pick, rows, Replies(s), parts, Flatten(parts), true) && |parts| == |rows|
    ensures forall i | 0 <= i < |parts| :: cfg.sha(parts[i]) == rows[i].spec.sha && parts[i] in s.bodies
  {
    forall i | 0 <= i < |rows|
      ensures var r := S.Answer(cfg.pick, rows[i].spec, Replies(s));
              r.Body? && cfg.sha(r.content) == rows[i].spec.sha && r.content in s.bodies
    {
      ReadableAnswer(cfg, s, rows[i].spec);
    }
    parts := seq(|rows|, i requires 0 <= i < |rows| => S.Answer(cfg.pick, rows[i].spec, Replies(s)).content);
  }

  /** From s the step relation leads to t, in which handler h has replied with the whole file; only
      its own entry has changed. */
  ghost predicate Delivered(cfg: Config, s: State, t: State, h: nat, id: nat, data: Bytes)
    requires WellFormed(cfg)
  {
    && Reaches(cfg, s, t) && h in t.handlers && t == With(s, h, t.handlers[h])
    && t.handlers[h].GetReply? && t.handlers[h].dl.id == id && Emitted(t.handlers[h]) == data
  }

  /** From any reachable state in which each block of a complete file is readable, a GET can be
      served to its end and emits the file. */
  lemma Delivers(cfg: Config, s: State, id: nat, data: Bytes, h: nat) returns (t: State)
    requires WellFormed(cfg) && Inv(cfg, s) && h !in s.handlers
    requires id in s.tables.files && s.tables.files[id].complete
    requires id in s.origin && Honest(cfg, s.origin[id], data)
    requires NoCollision(cfg, s.bodies, data, s.origin[id].blockSize)
    requires forall b | b in s.origin[id].specs :: Readable(cfg, s, b)
    ensures Delivered(cfg, s, t, h, id, data)
  {
    var name := s.tables.files[id].name;
    var rows := Listing(s.tables, id);
    HonestListing(cfg, s, id, data, rows);
    forall i | 0 <= i < |rows| ensures Readable(cfg, s, rows[i].spec) {
      assert rows[i].spec == S.SpecsOf(rows)[i];
    }
    var parts := DeliveredParts(cfg, s, rows);
    ReadIsData(cfg, s.origin[id], s.bodies, data, parts);
    RepliesCan(s);
    DownloadTrace(cfg, s, h, name, rows, Replies(s), parts, Flatten(parts), true);
    t := With(s, h, Fetched(cfg, s.tables, name, rows, Replies(s), parts));
  }

  /** While fewer nodes are down than replicas accepted any of its blocks, and no DELETE of a
      block has reached those replicas since, a complete file can be downloaded whole. */
  lemma FaultTolerance(
      cfg: Config, run: seq<State>, i: nat, id: nat, k: nat, outages: set<Node>, data: Bytes, h: nat)
      returns (t: State)
    requires WellFormed(cfg) && IsRun(cfg, run) && i < |run| && Distinct(cfg.nodes) && h !in run[i].handlers
    requires id in run[i].tables.files && run[i].tables.files[id].complete
    requires id in run[i].origin && Honest(cfg, run[i].origin[id], data)
    requires NoCollision(cfg, run[i].bodies, data, run[i].origin[id].blockSize)
    requires Survives(run[i], id, k) && |outages| < k
    requires forall n | n in run[i].nodes && !run[i].nodes[n].up :: n in outages
    ensures Delivered(cfg, run[i], t, h, id, data)
  {
    RunInv(cfg, run, i);
    forall b | b in run[i].origin[id].specs ensures Readable(cfg, run[i], b) {
      BlockReadable(cfg, run[i], id, b, k, outages);
    }
    t := Delivers(cfg, run[i], id, data, h);
  }
}
