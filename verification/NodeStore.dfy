/** A storage node: blocks on disk under their SHA-256, written by verify-then-rename.
    `Step` cuts concurrent requests at the system calls whose order matters; `StorageNode`
    is the request handler itself, proved to be one of the interleavings. */
module NodeStore {
  import opened Basics

  type Hash = string

  datatype PutPc = Drain | Create | Copy | Verify | Rename | Done(status: int)
  /** A PUT being served; `mark` is the number of DELETEs of `id` served before it began. */
  datatype Put = Put(id: Hash, body: Bytes, mark: nat, pc: PutPc)
  datatype Accept = Accept(id: Hash, body: Bytes, mark: nat)

  /** `disk` holds the visible blocks and `temps` the .tmp- files. `deleted` (DELETEs served,
      by id) and `accepted` (PUTs answered 2xx) are history. */
  datatype NodeState = NodeState(
    up: bool, disk: map<Hash, Bytes>, temps: map<nat, Bytes>, puts: map<nat, Put>, nextPut: nat,
    deleted: map<Hash, nat>, accepted: set<Accept>)

  datatype Step =
    | Begin(id: Hash, body: Bytes)          // os.Stat
    | CreateTemp(p: nat)
    | Write(p: nat, upTo: nat)              // part of io.Copy
    | Close(p: nat)                         // end of io.Copy, Sync, Close
    | Check(p: nat)                         // hash comparison before the rename
    | Publish(p: nat)                       // os.Rename
    | DrainEnd(p: nat)                      // hash comparison for a block already on disk
    | Fail(p: nat, status: int)             // an I/O error, with the deferred clean-up
    | Delete(id: Hash)
    | Crash
    | Restart

  function Deleted(n: NodeState, id: Hash): nat {
    if id in n.deleted then n.deleted[id] else 0
  }

  predicate IsOk(status: int) {
    200 <= status < 300
  }

  predicate At(n: NodeState, p: nat, pc: PutPc) {
    n.up && p in n.puts && n.puts[p].pc == pc
  }

  predicate Enabled(n: NodeState, step: Step) {
    match step
    case Begin(_, _) => n.up
    case CreateTemp(p) => At(n, p, Create)
    case Write(p, upTo) => At(n, p, Copy) && p in n.temps && |n.temps[p]| <= upTo <= |n.puts[p].body|
    case Close(p) => At(n, p, Copy) && p in n.temps && n.temps[p] == n.puts[p].body
    case Check(p) => At(n, p, Verify)
    case Publish(p) => At(n, p, Rename) && p in n.temps
    case DrainEnd(p) => At(n, p, Drain)
    case Fail(p, status) => n.up && p in n.puts && !n.puts[p].pc.Done? && !IsOk(status)
    case Delete(_) => n.up
    case Crash => true
    case Restart => !n.up
  }

  function Goto(n: NodeState, p: nat, pc: PutPc): NodeState
    requires p in n.puts
  {
    n.(puts := n.puts[p := n.puts[p].(pc := pc)])
  }

  function Answer(n: NodeState, p: nat, status: int): NodeState
    requires p in n.puts
  {
    var put := n.puts[p];
    Goto(n, p, Done(status)).(
    temps := n.temps - {p},
    accepted := if IsOk(status) then n.accepted + {Accept(put.id, put.body, put.mark)} else n.accepted)
  }

  function Apply(sha: Bytes -> Hash, n: NodeState, step: Step): NodeState
    requires Enabled(n, step)
  {
    match step
    case Begin(id, body) =>
      n.(puts := n.puts[n.nextPut := Put(id, body, Deleted(n, id), if id in n.disk then Drain else Create)],
         nextPut := n.nextPut + 1)
    case CreateTemp(p) => Goto(n, p, Copy).(temps := n.temps[p := []])
    case Write(p, upTo) => n.(temps := n.temps[p := n.puts[p].body[..upTo]])
    case Close(p) => Goto(n, p, Verify)
    case Check(p) => if sha(n.puts[p].body) == n.puts[p].id then Goto(n, p, Rename) else Answer(n, p, 400)
    case Publish(p) => Answer(n.(disk := n.disk[n.puts[p].id := n.temps[p]]), p, 201)
    case DrainEnd(p) => Answer(n, p, if sha(n.puts[p].body) == n.puts[p].id then 200 else 400)
    case Fail(p, status) => Answer(n, p, status)
    case Delete(id) => n.(disk := n.disk - {id}, deleted := n.deleted[id := Deleted(n, id) + 1])
    case Crash => n.(up := false, puts := map[])
    case Restart => n.(up := true)
  }

  const EMPTY_NODE := NodeState(true, map[], map[], map[], 0, map[], {})

  // ----- what every interleaving keeps -----

  /** Every visible block hashes to the id it is stored under. */
  ghost predicate ContentAddressed(sha: Bytes -> Hash, n: NodeState) {
    forall h | h in n.disk :: sha(n.disk[h]) == h
  }

  ghost predicate PutInv(sha: Bytes -> Hash, n: NodeState, p: nat)
    requires p in n.puts
  {
    var put := n.puts[p];
    && p < n.nextPut
    && put.mark <= Deleted(n, put.id)
    && match put.pc
       case Drain => p !in n.temps && (Deleted(n, put.id) == put.mark ==> put.id in n.disk)
       case Create => p !in n.temps
       case Copy => p in n.temps && n.temps[p] <= put.body
       case Verify => p in n.temps && n.temps[p] == put.body
       case Rename => p in n.temps && n.temps[p] == put.body && sha(put.body) == put.id
       case Done(status) => p !in n.temps && (IsOk(status) ==> Accept(put.id, put.body, put.mark) in n.accepted)
  }

  /** An accepted block is on disk unless a DELETE of its id arrived after its PUT began. */
  ghost predicate Kept(sha: Bytes -> Hash, n: NodeState, a: Accept) {
    && sha(a.body) == a.id
    && a.mark <= Deleted(n, a.id)
    && (Deleted(n, a.id) == a.mark ==> a.id in n.disk)
  }

  ghost predicate Inv(sha: Bytes -> Hash, n: NodeState) {
    && ContentAddressed(sha, n)
    && (forall p | p in n.temps :: p < n.nextPut)
    && (forall p | p in n.puts :: PutInv(sha, n, p))
    && (forall a | a in n.accepted :: Kept(sha, n, a))
  }

  predicate Acts(step: Step, p: nat) {
    match step
    case CreateTemp(q) => q == p
    case Write(q, _) => q == p
    case Close(q) => q == p
    case Check(q) => q == p
    case Publish(q) => q == p
    case DrainEnd(q) => q == p
    case Fail(q, _) => q == p
    case _ => false
  }

  /** What a step leaves alone for a put it does not advance. */
  ghost predicate Frame(n: NodeState, m: NodeState, p: nat)
    requires p in n.puts
  {
    var id := n.puts[p].id;
    && p in m.puts && m.puts[p] == n.puts[p]
    && n.nextPut <= m.nextPut && n.accepted <= m.accepted
    && (p in n.temps <==> p in m.temps) && (p in n.temps ==> m.temps[p] == n.temps[p])
    && Deleted(n, id) <= Deleted(m, id)
    && (Deleted(n, id) == Deleted(m, id) && id in n.disk ==> id in m.disk)
  }

  lemma OthersFramed(sha: Bytes -> Hash, n: NodeState, step: Step, p: nat)
    requires Enabled(n, step) && !Acts(step, p) && p in n.puts && p < n.nextPut && p in Apply(sha, n, step).puts
    ensures Frame(n, Apply(sha, n, step), p)
  {}

  lemma FramedPutKept(sha: Bytes -> Hash, n: NodeState, m: NodeState, p: nat)
    requires p in n.puts && PutInv(sha, n, p) && Frame(n, m, p)
    ensures PutInv(sha, m, p)
  {}

  lemma ActingPutKept(sha: Bytes -> Hash, n: NodeState, step: Step, p: nat)
    requires Inv(sha, n) && Enabled(n, step) && Acts(step, p) && p in n.puts
    ensures PutInv(sha, Apply(sha, n, step), p)
  {
    assert PutInv(sha, n, p);
  }

  lemma StepKeepsPut(sha: Bytes -> Hash, n: NodeState, step: Step, p: nat)
    requires Inv(sha, n) && Enabled(n, step) && p in Apply(sha, n, step).puts
    ensures PutInv(sha, Apply(sha, n, step), p)
  {
    if p in n.puts {
      if Acts(step, p) {
        ActingPutKept(sha, n, step, p);
      } else {
        assert PutInv(sha, n, p);
        OthersFramed(sha, n, step, p);
        FramedPutKept(sha, n, Apply(sha, n, step), p);
      }
    }
  }

  lemma StepKeepsAccept(sha: Bytes -> Hash, n: NodeState, step: Step, a: Accept)
    requires Inv(sha, n) && Enabled(n, step) && a in Apply(sha, n, step).accepted
    ensures Kept(sha, Apply(sha, n, step), a)
  {
    if a in n.accepted {
      assert Kept(sha, n, a);
    } else {
      assert step.Publish? || step.DrainEnd?;
      var p := step.p;
      assert PutInv(sha, n, p);
    }
  }

  lemma StepKeepsDisk(sha: Bytes -> Hash, n: NodeState, step: Step)
    requires Inv(sha, n) && Enabled(n, step)
    ensures ContentAddressed(sha, Apply(sha, n, step))
    ensures forall p | p in Apply(sha, n, step).temps :: p < Apply(sha, n, step).nextPut
  {
    if step.Publish? || step.CreateTemp? || step.Write? { assert PutInv(sha, n, step.p); }
  }

  lemma StepKeepsInv(sha: Bytes -> Hash, n: NodeState, step: Step)
    requires Inv(sha, n) && Enabled(n, step)
    ensures Inv(sha, Apply(sha, n, step))
  {
    var m := Apply(sha, n, step);
    StepKeepsDisk(sha, n, step);
    forall p | p in m.puts ensures PutInv(sha, m, p) { StepKeepsPut(sha, n, step, p); }
    forall a | a in m.accepted ensures Kept(sha, m, a) { StepKeepsAccept(sha, n, step, a); }
  }

  /** The visible blocks change only by publishing a body that hashes to its id, or by DELETE. */
  lemma VisibleChange(sha: Bytes -> Hash, n: NodeState, step: Step)
    requires Inv(sha, n) && Enabled(n, step)
    ensures match step
            case Publish(p) =>
              && sha(n.puts[p].body) == n.puts[p].id
              && Apply(sha, n, step).disk == n.disk[n.puts[p].id := n.puts[p].body]
              && Apply(sha, n, step).puts[p].pc == Done(201)
            case Delete(id) => Apply(sha, n, step).disk == n.disk - {id}
            case _ => Apply(sha, n, step).disk == n.disk
  {
    if step.Publish? { assert PutInv(sha, n, step.p); }
  }

  // ----- runs -----

  predicate Legal(sha: Bytes -> Hash, n: NodeState, steps: seq<Step>)
    decreases |steps|
  {
    steps == [] || (Enabled(n, steps[0]) && Legal(sha, Apply(sha, n, steps[0]), steps[1..]))
  }

  function Run(sha: Bytes -> Hash, n: NodeState, steps: seq<Step>): NodeState
    requires Legal(sha, n, steps)
    decreases |steps|
  {
    if steps == [] then n else Run(sha, Apply(sha, n, steps[0]), steps[1..])
  }

  lemma {:induction false} RunSnoc(sha: Bytes -> Hash, n: NodeState, steps: seq<Step>, step: Step)
    requires Legal(sha, n, steps) && Enabled(Run(sha, n, steps), step)
    ensures Legal(sha, n, steps + [step])
    ensures Run(sha, n, steps + [step]) == Apply(sha, Run(sha, n, steps), step)
    decreases |steps|
  {
    if steps == [] {
      assert ([step])[1..] == [];
    } else {
      RunSnoc(sha, Apply(sha, n, steps[0]), steps[1..], step);
      assert (steps + [step])[1..] == steps[1..] + [step];
    }
  }

  /** Content invariant over every run, crashes included. */
  lemma {:induction false} RunKeepsInv(sha: Bytes -> Hash, n: NodeState, steps: seq<Step>)
    requires Inv(sha, n) && Legal(sha, n, steps)
    ensures Inv(sha, Run(sha, n, steps))
    decreases |steps|
  {
    if steps != [] {
      StepKeepsInv(sha, n, steps[0]);
      RunKeepsInv(sha, Apply(sha, n, steps[0]), steps[1..]);
    }
  }

  lemma {:induction false} RunKeepsAccepted(sha: Bytes -> Hash, n: NodeState, steps: seq<Step>)
    requires Legal(sha, n, steps)
    ensures n.accepted <= Run(sha, n, steps).accepted
    decreases |steps|
  {
    if steps != [] {
      RunKeepsAccepted(sha, Apply(sha, n, steps[0]), steps[1..]);
    }
  }

  /** A put that was not answered 201 never published anything: once `p` is served with any
      other status, no step of the run was its rename. */
  lemma {:induction false} RejectedPutPublishesNothing(sha: Bytes -> Hash, n: NodeState, steps: seq<Step>, p: nat)
    requires Inv(sha, n) && Legal(sha, n, steps)
    requires p in Run(sha, n, steps).puts && Run(sha, n, steps).puts[p].pc.Done?
             && Run(sha, n, steps).puts[p].pc != Done(201)
    ensures Publish(p) !in steps
    decreases |steps|
  {
    if steps != [] {
      var m := Apply(sha, n, steps[0]);
      StepKeepsInv(sha, n, steps[0]);
      RejectedPutPublishesNothing(sha, m, steps[1..], p);
      if steps[0] == Publish(p) {
        DoneStays(sha, m, steps[1..], p);
      }
      assert steps == [steps[0]] + steps[1..];
    }
  }

  lemma {:induction false} DoneStays(sha: Bytes -> Hash, n: NodeState, steps: seq<Step>, p: nat)
    requires Legal(sha, n, steps) && p < n.nextPut
    requires p in n.puts ==> n.puts[p].pc == Done(201)
    ensures p in Run(sha, n, steps).puts ==> Run(sha, n, steps).puts[p].pc == Done(201)
    decreases |steps|
  {
    if steps != [] {
      DoneStays(sha, Apply(sha, n, steps[0]), steps[1..], p);
    }
  }

  // ----- the handler -----

  datatype Fault = NoFault | BadBody | CreateFails | SyncFails | CloseFails | RenameFails

  /** What put() answers when nothing else happens on the node meanwhile. */
  function PutStatus(sha: Bytes -> Hash, n: NodeState, id: Hash, body: Bytes, fault: Fault): int {
    if fault == BadBody then 400
    else if id in n.disk then if sha(body) == id then 200 else 400
    else if fault == CreateFails || fault == SyncFails || fault == CloseFails then 500
    else if sha(body) != id then 400
    else if fault == RenameFails then 500
    else 201
  }

  /** The node after a put() of its own that was answered `status`. */
  function Served(n: NodeState, id: Hash, body: Bytes, status: int): NodeState {
    n.(disk := if status == 201 then n.disk[id := body] else n.disk,
       puts := n.puts[n.nextPut := Put(id, body, Deleted(n, id), Done(status))],
       nextPut := n.nextPut + 1,
       accepted := if IsOk(status) then n.accepted + {Accept(id, body, Deleted(n, id))} else n.accepted)
  }

  lemma Extend(sha: Bytes -> Hash, n: NodeState, steps: seq<Step>, cur: NodeState, step: Step)
      returns (more: seq<Step>, next: NodeState)
    requires Legal(sha, n, steps) && Run(sha, n, steps) == cur && Enabled(cur, step)
    ensures Legal(sha, n, more) && next == Run(sha, n, more) == Apply(sha, cur, step) && more == steps + [step]
  {
    RunSnoc(sha, n, steps, step);
    more, next := steps + [step], Apply(sha, cur, step);
  }

  /** The node after a put() has begun, with its temporary file, if there is one. */
  function Begun(n: NodeState, id: Hash, body: Bytes, pc: PutPc, temp: Option<Bytes>): NodeState {
    n.(puts := n.puts[n.nextPut := Put(id, body, Deleted(n, id), pc)], nextPut := n.nextPut + 1,
       temps := if temp.Some? then n.temps[n.nextPut := temp.value] else n.temps)
  }

  /** `steps` is a put() of `body` under `id` that takes the node from n to m. */
  ghost predicate PutRun(sha: Bytes -> Hash, n: NodeState, id: Hash, body: Bytes, steps: seq<Step>, m: NodeState) {
    && steps != [] && steps[0] == Begin(id, body) && Legal(sha, n, steps) && Run(sha, n, steps) == m
    && forall i | 1 <= i < |steps| :: !steps[i].Begin?
  }

  lemma BeginTrace(sha: Bytes -> Hash, n: NodeState, id: Hash, body: Bytes) returns (steps: seq<Step>)
    requires n.up
    ensures PutRun(sha, n, id, body, steps, Begun(n, id, body, if id in n.disk then Drain else Create, None))
  {
    var m;
    steps, m := Extend(sha, n, [], n, Begin(id, body));
  }

  lemma ThenStep(sha: Bytes -> Hash, n: NodeState, id: Hash, body: Bytes, steps: seq<Step>, m: NodeState, step: Step)
      returns (more: seq<Step>)
    requires PutRun(sha, n, id, body, steps, m) && Enabled(m, step) && !step.Begin?
    ensures PutRun(sha, n, id, body, more, Apply(sha, m, step))
  {
    var next;
    more, next := Extend(sha, n, steps, m, step);
  }

  lemma FailsAs(sha: Bytes -> Hash, n: NodeState, id: Hash, body: Bytes, pc: PutPc, temp: Option<Bytes>, status: int)
    requires n.nextPut !in n.temps && n.up && !pc.Done? && !IsOk(status)
    ensures Enabled(Begun(n, id, body, pc, temp), Fail(n.nextPut, status))
    ensures Apply(sha, Begun(n, id, body, pc, temp), Fail(n.nextPut, status)) == Served(n, id, body, status)
  {
    assert Begun(n, id, body, pc, temp).temps - {n.nextPut} == n.temps;
  }

  lemma CopyTrace(sha: Bytes -> Hash, n: NodeState, id: Hash, body: Bytes, received: nat) returns (steps: seq<Step>)
    requires n.up && id !in n.disk && n.nextPut !in n.temps && received <= |body|
    ensures PutRun(sha, n, id, body, steps, Begun(n, id, body, Copy, Some(body[..received])))
  {
    var p := n.nextPut;
    steps := BeginTrace(sha, n, id, body);
    steps := ThenStep(sha, n, id, body, steps, Begun(n, id, body, Create, None), CreateTemp(p));
    assert Apply(sha, Begun(n, id, body, Create, None), CreateTemp(p)) == Begun(n, id, body, Copy, Some([]));
    steps := ThenStep(sha, n, id, body, steps, Begun(n, id, body, Copy, Some([])), Write(p, received));
    assert Apply(sha, Begun(n, id, body, Copy, Some([])), Write(p, received)) ==
      Begun(n, id, body, Copy, Some(body[..received]));
  }

  lemma CloseTrace(sha: Bytes -> Hash, n: NodeState, id: Hash, body: Bytes) returns (steps: seq<Step>)
    requires n.up && id !in n.disk && n.nextPut !in n.temps
    ensures PutRun(sha, n, id, body, steps, Begun(n, id, body, Verify, Some(body)))
  {
    var p := n.nextPut;
    steps := CopyTrace(sha, n, id, body, |body|);
    assert body[..|body|] == body;
    steps := ThenStep(sha, n, id, body, steps, Begun(n, id, body, Copy, Some(body)), Close(p));
    assert Apply(sha, Begun(n, id, body, Copy, Some(body)), Close(p)) == Begun(n, id, body, Verify, Some(body));
  }

  lemma DrainTrace(sha: Bytes -> Hash, n: NodeState, id: Hash, body: Bytes) returns (steps: seq<Step>)
    requires n.up && id in n.disk && n.nextPut !in n.temps
    ensures PutRun(sha, n, id, body, steps, Served(n, id, body, if sha(body) == id then 200 else 400))
  {
    steps := BeginTrace(sha, n, id, body);
    steps := ThenStep(sha, n, id, body, steps, Begun(n, id, body, Drain, None), DrainEnd(n.nextPut));
    assert n.temps - {n.nextPut} == n.temps;
  }

  lemma CheckTrace(sha: Bytes -> Hash, n: NodeState, id: Hash, body: Bytes) returns (steps: seq<Step>)
    requires n.up && id !in n.disk && n.nextPut !in n.temps
    ensures PutRun(sha, n, id, body, steps,
                   if sha(body) == id then Begun(n, id, body, Rename, Some(body)) else Served(n, id, body, 400))
  {
    var p, verify := n.nextPut, Begun(n, id, body, Verify, Some(body));
    steps := CloseTrace(sha, n, id, body);
    steps := ThenStep(sha, n, id, body, steps, verify, Check(p));
    if sha(body) == id {
      assert Apply(sha, verify, Check(p)) == Begun(n, id, body, Rename, Some(body));
    } else {
      assert verify.temps - {p} == n.temps;
    }
  }

  lemma PublishAs(sha: Bytes -> Hash, n: NodeState, id: Hash, body: Bytes)
    requires n.up && n.nextPut !in n.temps
    ensures Enabled(Begun(n, id, body, Rename, Some(body)), Publish(n.nextPut))
    ensures Apply(sha, Begun(n, id, body, Rename, Some(body)), Publish(n.nextPut)) == Served(n, id, body, 201)
  {
    assert Begun(n, id, body, Rename, Some(body)).temps - {n.nextPut} == n.temps;
  }

  lemma RenameTrace(sha: Bytes -> Hash, n: NodeState, id: Hash, body: Bytes, bad: bool) returns (steps: seq<Step>)
    requires n.up && id !in n.disk && n.nextPut !in n.temps
    ensures PutRun(sha, n, id, body, steps,
                   Served(n, id, body, if sha(body) != id then 400 else if bad then 500 else 201))
  {
    var p, rename := n.nextPut, Begun(n, id, body, Rename, Some(body));
    steps := CheckTrace(sha, n, id, body);
    if sha(body) == id && bad {
      FailsAs(sha, n, id, body, Rename, Some(body), 500);
      steps := ThenStep(sha, n, id, body, steps, rename, Fail(p, 500));
    } else if sha(body) == id {
      PublishAs(sha, n, id, body);
      steps := ThenStep(sha, n, id, body, steps, rename, Publish(p));
    }
  }

  lemma AbortTrace(sha: Bytes -> Hash, n: NodeState, id: Hash, body: Bytes, received: nat, status: int)
    returns (steps: seq<Step>)
    requires n.up && id !in n.disk && n.nextPut !in n.temps && received <= |body| && !IsOk(status)
    ensures PutRun(sha, n, id, body, steps, Served(n, id, body, status))
  {
    var copied := Begun(n, id, body, Copy, Some(body[..received]));
    steps := CopyTrace(sha, n, id, body, received);
    FailsAs(sha, n, id, body, Copy, Some(body[..received]), status);
    steps := ThenStep(sha, n, id, body, steps, copied, Fail(n.nextPut, status));
  }

  lemma RefuseTrace(sha: Bytes -> Hash, n: NodeState, id: Hash, body: Bytes, status: int) returns (steps: seq<Step>)
    requires n.up && n.nextPut !in n.temps && !IsOk(status)
    ensures PutRun(sha, n, id, body, steps, Served(n, id, body, status))
  {
    var pc := if id in n.disk then Drain else Create;
    steps := BeginTrace(sha, n, id, body);
    FailsAs(sha, n, id, body, pc, None, status);
    steps := ThenStep(sha, n, id, body, steps, Begun(n, id, body, pc, None), Fail(n.nextPut, status));
  }

  /** One uninterrupted put(), with whatever fault, is one of the interleavings of the step machine:
      it leaves the put answered with the status it returns, the block published and accepted
      accordingly, and no temporary file. */
  lemma PutTrace(sha: Bytes -> Hash, n: NodeState, id: Hash, body: Bytes, fault: Fault, received: nat)
    returns (steps: seq<Step>)
    requires Inv(sha, n) && n.up && received <= |body|
    ensures PutRun(sha, n, id, body, steps, Served(n, id, body, PutStatus(sha, n, id, body, fault)))
    ensures Inv(sha, Served(n, id, body, PutStatus(sha, n, id, body, fault)))
  {
    assert n.nextPut !in n.temps;
    if id in n.disk && fault != BadBody {
      steps := DrainTrace(sha, n, id, body);
    } else if id in n.disk || fault == CreateFails {
      steps := RefuseTrace(sha, n, id, body, if fault == BadBody then 400 else 500);
    } else if fault == BadBody {
      steps := AbortTrace(sha, n, id, body, received, 400);
    } else if fault == SyncFails || fault == CloseFails {
      steps := AbortTrace(sha, n, id, body, |body|, 500);
    } else {
      steps := RenameTrace(sha, n, id, body, fault == RenameFails);
    }
    RunKeepsInv(sha, n, steps);
  }

  class StorageNode {
    const sha: Bytes -> Hash
    var disk: map<Hash, Bytes>
    var temps: map<nat, Bytes>
    var nextTemp: nat
    ghost var puts: map<nat, Put>
    ghost var deleted: map<Hash, nat>
    ghost var accepted: set<Accept>

    ghost function View(): NodeState
      reads this
    {
      NodeState(true, disk, temps, puts, nextTemp, deleted, accepted)
    }

    ghost predicate Valid()
      reads this
    {
      Inv(sha, View())
    }

    constructor (sha: Bytes -> Hash)
      ensures Valid() && View() == EMPTY_NODE && this.sha == sha
    {
      this.sha := sha;
      disk, temps, nextTemp := map[], map[], 0;
      puts, deleted, accepted := map[], map[], {};
    }

    /** put(): 200 or 201 only for a body that hashes to `id`; any other answer leaves every
        visible block as it was; no answer leaves a temporary file behind. */
    method Put(id: Hash, body: Bytes, fault: Fault, received: nat) returns (status: int, ghost steps: seq<Step>)
      requires Valid() && received <= |body|
      modifies this
      ensures Valid() && status == PutStatus(sha, old(View()), id, body, fault)
      ensures View() == Served(old(View()), id, body, status)
      ensures PutRun(sha, old(View()), id, body, steps, View())
      ensures IsOk(status) <==> sha(body) == id && (fault == NoFault || (id in old(disk) && fault != BadBody))
      ensures status in {200, 201, 400, 500}
      ensures status == 201 <==> id !in old(disk) && fault == NoFault && sha(body) == id
      ensures status == 200 <==> id in old(disk) && fault != BadBody && sha(body) == id
      ensures status == 400 <==>
              fault == BadBody || (sha(body) != id && (id in old(disk) || fault == NoFault || fault == RenameFails))
      ensures disk == (if status == 201 then old(disk)[id := body] else old(disk)) && temps == old(temps)
    {
      ghost var before := View();
      steps := PutTrace(sha, before, id, body, fault, received);
      var tmp := nextTemp;
      assert tmp !in temps;
      nextTemp := nextTemp + 1;
      if id in disk {
        status := if fault != BadBody && sha(body) == id then 200 else 400;
      } else if fault == CreateFails {
        status := 500;
      } else {
        status := WriteAndRename(tmp, id, body, fault, received);
      }
      ghost var after := Served(before, id, body, status);
      puts, accepted := after.puts, after.accepted;
      assert View() == Served(before, id, body, status);
    }

    /** The part of put() after os.CreateTemp, under its deferred os.Remove. */
    method WriteAndRename(tmp: nat, id: Hash, body: Bytes, fault: Fault, received: nat) returns (status: int)
      requires tmp !in temps && received <= |body|
      modifies this`disk, this`temps
      ensures temps == old(temps)
      ensures disk == if status == 201 then old(disk)[id := body] else old(disk)
      ensures status == if fault == BadBody then 400
                        else if fault == SyncFails || fault == CloseFails then 500
                        else if sha(body) != id then 400
                        else if fault == RenameFails then 500
                        else 201
    {
      var cleaned := false;
      temps := temps[tmp := []];
      temps := temps[tmp := if fault == BadBody then body[..received] else body];
      if fault == BadBody {
        status := 400;
      } else if fault == SyncFails || fault == CloseFails {
        status := 500;
      } else if sha(body) != id {
        status := 400;
      } else if fault == RenameFails {
        status := 500;
      } else {
        disk, temps := disk[id := temps[tmp]], temps - {tmp};
        cleaned := true;
        status := 201;
      }
      if !cleaned {
        temps := temps - {tmp};
      }
    }

    /** `readable` is false where opening an existing file fails. */
    method Get(id: Hash, readable: bool) returns (status: int, content: Bytes)
      requires Valid()
      ensures status == if id !in disk then 404 else if readable then 200 else 500
      ensures content == if status == 200 then disk[id] else []
      ensures status == 200 ==> sha(content) == id
    {
      if id !in disk {
        return 404, [];
      }
      if !readable {
        return 500, [];
      }
      status, content := 200, disk[id];
    }

    /** `removable` is false where os.Remove fails on an existing file. */
    method Delete(id: Hash, removable: bool) returns (status: int)
      requires Valid()
      modifies this
      ensures Valid() && status == if id in old(disk) && !removable then 500 else 204
      ensures View() == if status == 204 then Apply(sha, old(View()), Step.Delete(id)) else old(View())
      ensures disk == (if status == 204 then old(disk) - {id} else old(disk)) && temps == old(temps)
    {
      if id in disk && !removable {
        return 500;
      }
      StepKeepsInv(sha, View(), Step.Delete(id));
      disk := disk - {id};
      deleted := deleted[id := Deleted(old(View()), id) + 1];
      status := 204;
    }
  }
}
