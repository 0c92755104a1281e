/** The upload path of the C++ services: the reactor service decodes the client's blocks, checks
    them against the registered MD5s and relays each to one of three storage servers, which
    decode the relayed frames and append the blocks to files named by their MD5.
    MD5 is a parameter. */
module Relay {
  import opened Basics
  import opened ByteBuffer
  import opened Frames
  import opened UploadIds

  const CONNECTIONS: nat := 3
  const ID_LEN: nat := 4

  /** A printed MD5: 32 ASCII characters. */
  type Digest = s: Bytes | |s| == DIGEST_LEN && forall i | 0 <= i < |s| :: s[i] < 128
    witness seq(DIGEST_LEN, _ => 48)
  type Md5 = Bytes -> Digest

  // ---- The reactor service, on values --------------------------------------------------------

  /** `wires` is what has been sent to each storage server, `replies` what has been sent to the
      client; `open` says that blocks are being accepted (upstatu3). */
  datatype Session = Session(
    expected: seq<Bytes>, marked: seq<bool>, wires: seq<Bytes>, replies: seq<string>,
    fileName: string, open: bool)

  type Upload = s: Session | |s.marked| == |s.expected| && |s.wires| == CONNECTIONS
    witness Session([], [], seq(CONNECTIONS, _ => []), [], "", false)

  function CharSum(s: Bytes): nat {
    if s == [] then 0 else CharSum(s[..|s| - 1]) + s[|s| - 1]
  }

  /** The characters of a string, added up. */
  lemma {:induction false} CharSumAdds(a: Bytes, b: Bytes)
    ensures CharSum([]) == 0 && CharSum(a + b) == CharSum(a) + CharSum(b)
    ensures forall x: byte :: CharSum([x]) == x
  {
    if b == [] {
      assert a + b == a;
    } else {
      var init := b[..|b| - 1];
      CharSumAdds(a, init);
      assert (a + b)[..|a + b| - 1] == a + init;
    }
    forall x: byte ensures CharSum([x]) == x {
      assert [x][..0] == [];
    }
  }

  function Route(digest: Bytes): nat {
    CharSum(digest) % CONNECTIONS
  }

  function Id(f: Frame): Int32 {
    if |f.head| == ID_LEN then FromBe32(f.head) else -1
  }

  predicate Accepts(md5: Md5, expected: seq<Bytes>, f: Frame) {
    0 <= Id(f) < |expected| && md5(f.body) == expected[Id(f)]
  }

  function Outgoing(md5: Md5, body: Body): Frame {
    Frame(md5(body), body)
  }

  function Mark(md5: Md5, s: Upload, f: Frame): Upload
    requires Accepts(md5, s.expected, f)
  {
    var wire := Route(md5(f.body));
    s.(wires := s.wires[wire := s.wires[wire] + Encode(Outgoing(md5, f.body))],
       marked := s.marked[Id(f) := true])
  }

  function Settle(s: Upload): Upload {
    if AllSet(s.marked) then s.(open := false, replies := s.replies + ["success"], fileName := "") else s
  }

  /** One turn of sendBlock's loop; an id outside the file indexes a vector out of range. */
  function Turn(md5: Md5, s: Upload, f: Frame): Outcome<Upload> {
    if !(0 <= Id(f) < |s.expected|) then Faulted(s)
    else Going(Settle(if Accepts(md5, s.expected, f) then Mark(md5, s, f) else s))
  }

  /** What one frame does, byte by byte: an id outside the file faults; a body whose MD5 is not the
      one registered under the id marks and relays nothing; any other is marked, and relayed with
      its size and MD5 to the connection its MD5 adds up to. */
  lemma TurnDoes(md5: Md5, s: Upload, f: Frame)
    requires |f.head| == 4
    ensures var id, digest := FromBe32(f.head), md5(f.body);
            var o := Turn(md5, s, f);
            && (o.Faulted? <==> !(0 <= id < |s.expected|))
            && o.st.expected == s.expected
            && (o.Faulted? ==> o.st == s)
            && (o.Going? && digest != s.expected[id] ==> o.st.marked == s.marked && o.st.wires == s.wires)
            && (o.Going? && digest == s.expected[id] ==>
                  var wire := CharSum(digest) % 3;
                  && o.st.marked == s.marked[id := true]
                  && o.st.wires == s.wires[wire := s.wires[wire] + ToBe32(|f.body|) + digest + f.body])
            && (o.Going? ==>
                  var finished := forall i | 0 <= i < |o.st.marked| :: o.st.marked[i];
                  && o.st.replies == s.replies + (if finished then ["success"] else [])
                  && o.st.open == (s.open && !finished)
                  && o.st.fileName == if finished then "" else s.fileName)
  {
    var wire := CharSum(md5(f.body)) % 3;
    assert s.wires[wire] + (ToBe32(|f.body|) + md5(f.body) + f.body) ==
           s.wires[wire] + ToBe32(|f.body|) + md5(f.body) + f.body;
  }

  function Service(md5: Md5): Receiver<Upload> {
    Receiver(ID_LEN, (s: Upload) => s.open, (s: Upload, f: Frame) => Turn(md5, s, f))
  }

  // ---- What a run of the service does --------------------------------------------------------

  lemma {:induction false} ExpectedStays(md5: Md5, s: Upload, fs: seq<Frame>)
    ensures Steps(Service(md5), Going(s), fs).st.expected == s.expected
    decreases |fs|
  {
    if fs != [] && s.open {
      var next := Turn(md5, s, fs[0]);
      if next.Going? {
        ExpectedStays(md5, next.st, fs[1..]);
      }
    }
  }

  predicate Delivers(md5: Md5, expected: seq<Bytes>, fs: seq<Frame>, id: nat) {
    exists k | 0 <= k < |fs| :: Id(fs[k]) == id && Accepts(md5, expected, fs[k])
  }

  lemma DeliversFirst(md5: Md5, expected: seq<Bytes>, fs: seq<Frame>, id: nat)
    requires fs != []
    ensures Delivers(md5, expected, fs, id) <==>
            (Id(fs[0]) == id && Accepts(md5, expected, fs[0])) || Delivers(md5, expected, fs[1..], id)
  {
    if Delivers(md5, expected, fs[1..], id) {
      var k :| 0 <= k < |fs[1..]| && Id(fs[1..][k]) == id && Accepts(md5, expected, fs[1..][k]);
      assert fs[k + 1] == fs[1..][k];
    }
    if Delivers(md5, expected, fs, id) {
      var k :| 0 <= k < |fs| && Id(fs[k]) == id && Accepts(md5, expected, fs[k]);
      assert k > 0 ==> fs[1..][k - 1] == fs[k];
    }
  }

  /** A block is marked exactly when some frame carried its id with bytes of the MD5 registered
      for it. */
  lemma {:induction false} MarkedIffDelivered(md5: Md5, s: Upload, fs: seq<Frame>, id: nat)
    requires RunsThrough(Service(md5), Going(s), fs) && id < |s.marked|
    ensures var t := Steps(Service(md5), Going(s), fs).st;
            t.expected == s.expected && (t.marked[id] <==> s.marked[id] || Delivers(md5, s.expected, fs, id))
    decreases |fs|
  {
    if fs != [] {
      DeliversFirst(md5, s.expected, fs, id);
      var next := Turn(md5, s, fs[0]);
      if next.Going? {
        MarkedIffDelivered(md5, next.st, fs[1..], id);
      }
    }
  }

  /** "success" is sent once, and exactly when the last missing block has arrived. */
  lemma {:induction false} SuccessOnce(md5: Md5, s: Upload, fs: seq<Frame>)
    requires s.open && RunsThrough(Service(md5), Going(s), fs)
    ensures var o := Steps(Service(md5), Going(s), fs);
            && o.st.replies == s.replies + (if o.st.open then [] else ["success"])
            && (!o.st.open <==> o.Going? && fs != [] && AllSet(o.st.marked))
    decreases |fs|
  {
    if fs != [] {
      var next := Turn(md5, s, fs[0]);
      if next.Going? && next.st.open {
        SuccessOnce(md5, next.st, fs[1..]);
      } else {
        assert Steps(Service(md5), next, fs[1..]) == next;
      }
    }
  }

  lemma DeliveredBytes(md5: Md5, expected: seq<Bytes>, fs: seq<Frame>, id: nat)
    requires HeadsFit(fs, 4) && id < |expected|
    ensures Delivers(md5, expected, fs, id) <==>
            exists k :: 0 <= k < |fs| && FromBe32(fs[k].head) == id && md5(fs[k].body) == expected[id]
  {
    if Delivers(md5, expected, fs, id) {
      var k :| 0 <= k < |fs| && Id(fs[k]) == id && Accepts(md5, expected, fs[k]);
      assert FromBe32(fs[k].head) == id;
    }
    if k :| 0 <= k < |fs| && FromBe32(fs[k].head) == id && md5(fs[k].body) == expected[id] {
      assert Id(fs[k]) == id && Accepts(md5, expected, fs[k]);
    }
  }

  function DueFor(md5: Md5, expected: seq<Bytes>, f: Frame, wire: nat): (due: seq<Frame>)
    ensures HeadsFit(due, DIGEST_LEN)
  {
    if Accepts(md5, expected, f) && Route(md5(f.body)) == wire then [Outgoing(md5, f.body)] else []
  }

  /** The frames that storage server `wire` is due, in the order of their arrival. */
  function Due(md5: Md5, expected: seq<Bytes>, fs: seq<Frame>, wire: nat): (due: seq<Frame>)
    ensures HeadsFit(due, DIGEST_LEN)
  {
    if fs == [] then [] else DueFor(md5, expected, fs[0], wire) + Due(md5, expected, fs[1..], wire)
  }

  lemma TurnSends(md5: Md5, s: Upload, f: Frame, wire: nat)
    requires wire < CONNECTIONS
    ensures Turn(md5, s, f).st.wires[wire] == s.wires[wire] + EncodeAll(DueFor(md5, s.expected, f, wire))
  {
    if Accepts(md5, s.expected, f) && Route(md5(f.body)) == wire {
      var due := [Outgoing(md5, f.body)];
      assert due[1..] == [] && EncodeAll(due) == Encode(due[0]);
    }
  }

  lemma {:induction false} WireCarriesDue(md5: Md5, s: Upload, fs: seq<Frame>, wire: nat)
    requires RunsThrough(Service(md5), Going(s), fs) && wire < CONNECTIONS
    ensures Steps(Service(md5), Going(s), fs).st.wires[wire] ==
            s.wires[wire] + EncodeAll(Due(md5, s.expected, fs, wire))
    decreases |fs|
  {
    if fs != [] {
      var next := Turn(md5, s, fs[0]);
      var first, rest := DueFor(md5, s.expected, fs[0], wire), Due(md5, s.expected, fs[1..], wire);
      TurnSends(md5, s, fs[0], wire);
      EncodeAllConcat(first, rest);
      Assoc(s.wires[wire], EncodeAll(first), EncodeAll(rest));
      if next.Going? {
        WireCarriesDue(md5, next.st, fs[1..], wire);
      } else {
        assert fs[1..] == [];
      }
    }
  }

  /** `ks` are, in order, the positions of the frames whose body has the MD5 registered under the id
      it came with, and whose MD5 adds up to this wire. */
  ghost predicate Relayed(md5: Md5, expected: seq<Bytes>, fs: seq<Frame>, wire: nat, ks: seq<nat>)
    requires HeadsFit(fs, 4)
  {
    && (forall i, j | 0 <= i < j < |ks| :: ks[i] < ks[j])
    && (forall k | k in ks :: k < |fs|)
    && forall k: nat | k < |fs| ::
         k in ks <==>
           var id, digest := FromBe32(fs[k].head), md5(fs[k].body);
           0 <= id < |expected| && digest == expected[id] && CharSum(digest) % 3 == wire
  }

  /** The bodies at these positions. */
  function Bodies(fs: seq<Frame>, ks: seq<nat>): seq<Body>
    requires forall k | k in ks :: k < |fs|
  {
    seq<Body>(|ks|, j requires 0 <= j < |ks| => assert ks[j] in ks; fs[ks[j]].body)
  }

  function Outgoings(md5: Md5, bodies: seq<Body>): seq<Frame> {
    seq(|bodies|, j requires 0 <= j < |bodies| => Frame(md5(bodies[j]), bodies[j]))
  }

  /** Positions in a list, as positions in the list with one more element in front. */
  function Shift(ks: seq<nat>): (more: seq<nat>)
    ensures forall k :: k in more <==> k > 0 && k - 1 in ks
    ensures |more| == |ks| && forall j | 0 <= j < |ks| :: more[j] == ks[j] + 1
  {
    if ks == [] then [] else [ks[0] + 1] + Shift(ks[1..])
  }

  lemma Ascends(front: seq<nat>, rest: seq<nat>)
    requires (front == [] || front == [0]) && forall i, j | 0 <= i < j < |rest| :: rest[i] < rest[j]
    ensures var ks := front + Shift(rest); forall i, j | 0 <= i < j < |ks| :: ks[i] < ks[j]
  {
  }

  lemma RelayedFirst(md5: Md5, expected: seq<Bytes>, fs: seq<Frame>, wire: nat, rest: seq<nat>) returns (ks: seq<nat>)
    requires fs != [] && HeadsFit(fs, 4) && Relayed(md5, expected, fs[1..], wire, rest)
    ensures ks == (if DueFor(md5, expected, fs[0], wire) == [] then [] else [0]) + Shift(rest)
    ensures Relayed(md5, expected, fs, wire, ks)
  {
    ks := (if DueFor(md5, expected, fs[0], wire) == [] then [] else [0]) + Shift(rest);
    Ascends(if DueFor(md5, expected, fs[0], wire) == [] then [] else [0], rest);
    forall k | k in ks ensures k < |fs| {}
    forall k: nat | k < |fs|
      ensures k in ks <==>
                var id, digest := FromBe32(fs[k].head), md5(fs[k].body);
                0 <= id < |expected| && digest == expected[id] && CharSum(digest) % 3 == wire
    {
      assert k > 0 ==> fs[1..][k - 1] == fs[k];
    }
  }

  lemma {:induction false} BodiesConcat(fs: seq<Frame>, a: seq<nat>, b: seq<nat>)
    requires (forall k | k in a :: k < |fs|) && forall k | k in b :: k < |fs|
    ensures (forall k | k in a + b :: k < |fs|) && Bodies(fs, a + b) == Bodies(fs, a) + Bodies(fs, b)
  {
    assert forall k | k in a + b :: k in a || k in b;
  }

  lemma {:induction false} BodiesShift(fs: seq<Frame>, rest: seq<nat>)
    requires fs != [] && forall k | k in rest :: k < |fs[1..]|
    ensures (forall k | k in Shift(rest) :: k < |fs|) && Bodies(fs, Shift(rest)) == Bodies(fs[1..], rest)
  {
    forall j | 0 <= j < |rest| ensures rest[j] in rest && fs[1..][rest[j]] == fs[Shift(rest)[j]] {}
  }

  lemma {:induction false} BodiesFirst(fs: seq<Frame>, front: seq<nat>, rest: seq<nat>)
    requires fs != [] && (forall k | k in rest :: k < |fs[1..]|) && (front == [] || front == [0])
    ensures forall k | k in front + Shift(rest) :: k < |fs|
    ensures Bodies(fs, front + Shift(rest)) == (if front == [] then [] else [fs[0].body]) + Bodies(fs[1..], rest)
  {
    BodiesShift(fs, rest);
    BodiesConcat(fs, front, Shift(rest));
    assert Bodies(fs, front) == if front == [] then [] else [fs[0].body];
  }

  lemma {:induction false} OutgoingsConcat(md5: Md5, a: seq<Body>, b: seq<Body>)
    ensures Outgoings(md5, a + b) == Outgoings(md5, a) + Outgoings(md5, b)
  {
  }

  lemma {:induction false} DueFirst(md5: Md5, expected: seq<Bytes>, fs: seq<Frame>, wire: nat, rest: seq<nat>)
    requires fs != [] && (forall k | k in rest :: k < |fs[1..]|)
    requires Due(md5, expected, fs[1..], wire) == Outgoings(md5, Bodies(fs[1..], rest))
    ensures var ks := (if DueFor(md5, expected, fs[0], wire) == [] then [] else [0]) + Shift(rest);
            (forall k | k in ks :: k < |fs|) && Due(md5, expected, fs, wire) == Outgoings(md5, Bodies(fs, ks))
  {
    var front := if DueFor(md5, expected, fs[0], wire) == [] then [] else [0];
    var first: seq<Body> := if front == [] then [] else [fs[0].body];
    BodiesFirst(fs, front, rest);
    OutgoingsConcat(md5, first, Bodies(fs[1..], rest));
    assert DueFor(md5, expected, fs[0], wire) == Outgoings(md5, first);
  }

  lemma {:induction false} DueIsRelayed(md5: Md5, expected: seq<Bytes>, fs: seq<Frame>, wire: nat)
      returns (ks: seq<nat>)
    requires HeadsFit(fs, 4)
    ensures Relayed(md5, expected, fs, wire, ks) && Due(md5, expected, fs, wire) == Outgoings(md5, Bodies(fs, ks))
  {
    if fs == [] {
      ks := [];
    } else {
      var rest := DueIsRelayed(md5, expected, fs[1..], wire);
      ks := RelayedFirst(md5, expected, fs, wire, rest);
      DueFirst(md5, expected, fs, wire, rest);
    }
  }

  /** What the service ends up doing with a byte stream, however TCP cuts it. */
  lemma {:induction false} UploadOutcome(md5: Md5, s: Upload, pieces: seq<Bytes>)
    requires s.open
    ensures var d := Feed(Service(md5), Decoded(Going(s), [], []), pieces);
            var t := d.out.st;
            && Flatten(pieces) == EncodeAll(d.frames) + d.rest
            && t.expected == s.expected
            && HeadsFit(d.frames, 4)
            && (forall id | 0 <= id < |s.marked| ::
                  t.marked[id] <==> s.marked[id] || Delivers(md5, s.expected, d.frames, id))
            && (forall wire | 0 <= wire < CONNECTIONS ::
                  t.wires[wire] == s.wires[wire] + EncodeAll(Due(md5, s.expected, d.frames, wire)))
            && t.replies == s.replies + (if t.open then [] else ["success"])
            && (d.out.Going? ==> (!t.open <==> d.frames != [] && AllSet(t.marked)))
            && (d.out.Going? && t.open ==> Parse(ID_LEN, d.rest).Wait?)
  {
    var r := Service(md5);
    SegmentationIndependent(r, Going(s), pieces);
    Conserved(r, Going(s), Flatten(pieces));
    var fs := Process(r, Going(s), Flatten(pieces)).frames;
    SuccessOnce(md5, s, fs);
    forall id | 0 <= id < |s.marked| {
      MarkedIffDelivered(md5, s, fs, id);
    }
    ExpectedStays(md5, s, fs);
    forall wire | 0 <= wire < CONNECTIONS {
      WireCarriesDue(md5, s, fs, wire);
    }
  }

  /** Nothing but registered bytes gets through, however TCP cuts the stream: a new mark needs a frame
      with that id and a body of the MD5 registered for it, and what a connection carries is, in
      order, exactly the bodies whose MD5 is the one registered under the id they came with, each
      behind its size and MD5, on the wire its MD5 adds up to. */
  lemma {:induction false} OnlyRegisteredBytes(md5: Md5, s: Upload, pieces: seq<Bytes>, wire: nat)
      returns (ks: seq<nat>)
    requires s.open && wire < CONNECTIONS
    ensures var d := Feed(Service(md5), Decoded(Going(s), [], []), pieces);
            && HeadsFit(d.frames, 4) && |d.out.st.marked| == |s.marked|
            && (forall id | 0 <= id < |s.marked| ::
                  d.out.st.marked[id] <==>
                    || s.marked[id]
                    || exists k :: 0 <= k < |d.frames| && FromBe32(d.frames[k].head) == id
                                   && md5(d.frames[k].body) == s.expected[id])
            && Relayed(md5, s.expected, d.frames, wire, ks)
            && d.out.st.wires[wire] == s.wires[wire] + EncodeAll(Outgoings(md5, Bodies(d.frames, ks)))
  {
    UploadOutcome(md5, s, pieces);
    var fs := Feed(Service(md5), Decoded(Going(s), [], []), pieces).frames;
    ks := DueIsRelayed(md5, s.expected, fs, wire);
    forall id: nat | id < |s.marked|
      ensures Delivers(md5, s.expected, fs, id) <==>
              exists k :: 0 <= k < |fs| && FromBe32(fs[k].head) == id && md5(fs[k].body) == s.expected[id]
    {
      DeliveredBytes(md5, s.expected, fs, id);
    }
  }

  // ---- The storage server, on values ---------------------------------------------------------

  /** `files` is the directory, by MD5; `counter` counts the blocks written. */
  datatype Saved = Saved(files: map<Bytes, Bytes>, counter: nat)

  function FileOf(files: map<Bytes, Bytes>, name: Bytes): Bytes {
    if name in files then files[name] else []
  }

  /** One turn of saveBlockFile's loop: the file is opened in append mode. */
  function Save(md5: Md5, s: Saved, f: Frame): Outcome<Saved> {
    if md5(f.body) == f.head
    then Going(Saved(s.files[f.head := FileOf(s.files, f.head) + f.body], s.counter + 1))
    else Going(s)
  }

  /** A frame whose body has another MD5 than it says changes nothing; any other adds its body to the
      file of its MD5, and to no other, and is counted. */
  lemma SaveDoes(md5: Md5, s: Saved, f: Frame)
    ensures var o := Save(md5, s, f);
            && o.Going?
            && (md5(f.body) != f.head ==> o.st == s)
            && (md5(f.body) == f.head ==>
                  && o.st.counter == s.counter + 1
                  && FileOf(o.st.files, f.head) == FileOf(s.files, f.head) + f.body
                  && forall name | name != f.head :: FileOf(o.st.files, name) == FileOf(s.files, name))
  {
  }

  function Server(md5: Md5): Receiver<Saved> {
    Receiver(DIGEST_LEN, (s: Saved) => true, (s: Saved, f: Frame) => Save(md5, s, f))
  }

  lemma {:induction false} ServerRunsThrough(md5: Md5, s: Saved, fs: seq<Frame>)
    ensures RunsThrough(Server(md5), Going(s), fs) && Steps(Server(md5), Going(s), fs).Going?
    decreases |fs|
  {
    if fs != [] {
      ServerRunsThrough(md5, Save(md5, s, fs[0]).st, fs[1..]);
    }
  }

  /** The accepted blocks whose MD5 is `name`, in the order of their arrival. */
  function Blocks(md5: Md5, expected: seq<Bytes>, fs: seq<Frame>, name: Bytes): seq<Bytes> {
    if fs == [] then []
    else
      var rest := Blocks(md5, expected, fs[1..], name);
      if Accepts(md5, expected, fs[0]) && md5(fs[0].body) == name then [fs[0].body] + rest else rest
  }

  /** The blocks of the frames named `name` whose bytes have that MD5. */
  function Genuine(md5: Md5, fs: seq<Frame>, name: Bytes): seq<Bytes> {
    if fs == [] then []
    else
      (if fs[0].head == name && md5(fs[0].body) == name then [fs[0].body] else []) + Genuine(md5, fs[1..], name)
  }

  /** For any frames at all, a file grows by the genuine blocks of its name, in order. */
  lemma {:induction false} ServerAppends(md5: Md5, s: Saved, fs: seq<Frame>, name: Bytes)
    ensures FileOf(Steps(Server(md5), Going(s), fs).st.files, name) ==
            FileOf(s.files, name) + Flatten(Genuine(md5, fs, name))
    decreases |fs|
  {
    if fs != [] {
      var front, body: Bytes, later := FileOf(s.files, name), fs[0].body, Genuine(md5, fs[1..], name);
      ServerAppends(md5, Save(md5, s, fs[0]).st, fs[1..], name);
      Assoc(front, body, Flatten(later));
      assert ([body] + later)[1..] == later && [] + later == later;
    }
  }

  lemma {:induction false} GenuinePositions(md5: Md5, fs: seq<Frame>, name: Bytes, rest: seq<nat>, ks: seq<nat>)
    requires fs != [] && forall k | k in rest :: k < |fs[1..]|
    requires ks == (if fs[0].head == name && md5(fs[0].body) == name then [0] else []) + Shift(rest)
    requires forall k: nat | k < |fs[1..]| :: k in rest <==> fs[1..][k].head == name && md5(fs[1..][k].body) == name
    ensures forall k: nat | k < |fs| :: k in ks <==> fs[k].head == name && md5(fs[k].body) == name
  {
    forall k: nat | k < |fs| ensures k in ks <==> fs[k].head == name && md5(fs[k].body) == name {
      assert k > 0 ==> fs[1..][k - 1] == fs[k];
    }
  }

  lemma {:induction false} GenuineAt(md5: Md5, fs: seq<Frame>, name: Bytes) returns (ks: seq<nat>)
    ensures (forall i, j | 0 <= i < j < |ks| :: ks[i] < ks[j]) && forall k | k in ks :: k < |fs|
    ensures forall k: nat | k < |fs| :: k in ks <==> fs[k].head == name && md5(fs[k].body) == name
    ensures Genuine(md5, fs, name) == Bodies(fs, ks)
  {
    if fs == [] {
      ks := [];
    } else {
      var rest := GenuineAt(md5, fs[1..], name);
      var front := if fs[0].head == name && md5(fs[0].body) == name then [0] else [];
      ks := front + Shift(rest);
      Ascends(front, rest);
      BodiesFirst(fs, front, rest);
      GenuinePositions(md5, fs, name, rest, ks);
    }
  }

  /** For any frames at all, what a file gains is, in order, exactly the bodies that came under its
      name and have that MD5. */
  lemma {:induction false} OnlyGenuineBytes(md5: Md5, s: Saved, fs: seq<Frame>, name: Bytes) returns (ks: seq<nat>)
    ensures (forall i, j | 0 <= i < j < |ks| :: ks[i] < ks[j]) && forall k | k in ks :: k < |fs|
    ensures forall k: nat | k < |fs| :: k in ks <==> fs[k].head == name && md5(fs[k].body) == name
    ensures FileOf(Steps(Server(md5), Going(s), fs).st.files, name) == FileOf(s.files, name) + Flatten(Bodies(fs, ks))
  {
    ks := GenuineAt(md5, fs, name);
    ServerAppends(md5, s, fs, name);
  }

  lemma {:induction false} DueIsGenuine(md5: Md5, expected: seq<Bytes>, fs: seq<Frame>, wire: nat, name: Bytes)
    ensures Genuine(md5, Due(md5, expected, fs, wire), name) ==
            if Route(name) == wire then Blocks(md5, expected, fs, name) else []
  {
    if fs != [] {
      var first, rest := DueFor(md5, expected, fs[0], wire), Due(md5, expected, fs[1..], wire);
      DueIsGenuine(md5, expected, fs[1..], wire, name);
      if first == [] {
        assert first + rest == rest;
      } else {
        assert (first + rest)[1..] == rest;
      }
    }
  }

  lemma SameTail(front: Bytes, a: Bytes, b: Bytes)
    requires front + a == front + b
    ensures a == b
  {
    assert a == (front + a)[|front|..] && b == (front + b)[|front|..];
  }

  lemma PrefixIsEmpty(front: Bytes, back: Bytes, x: Bytes)
    requires |back| >= |x|
    ensures front + back == x <==> front == [] && back == x
  {
    assert [] + back == back;
    assert front != [] ==> |front + back| > |x|;
  }

  /** End to end: cut the client's stream and the relayed stream in any way, and the storage
      server a digest is routed to appends to the file of that digest exactly the accepted blocks
      with it, in order; the other servers leave their files of it alone. No byte is left over.
      `start` is the server as the upload finds it, `cuts` what the upload adds to its wire. */
  lemma {:induction false} EndToEnd(
      md5: Md5, s: Upload, pieces: seq<Bytes>, wire: nat, start: Saved, cuts: seq<Bytes>, name: Bytes)
    requires s.open && wire < CONNECTIONS
    requires s.wires[wire] + Flatten(cuts) ==
             Feed(Service(md5), Decoded(Going(s), [], []), pieces).out.st.wires[wire]
    ensures var sent := Feed(Service(md5), Decoded(Going(s), [], []), pieces).frames;
            var got := Feed(Server(md5), Decoded(Going(start), [], []), cuts);
            && got.out.Going? && got.rest == [] && got.frames == Due(md5, s.expected, sent, wire)
            && FileOf(got.out.st.files, name) == FileOf(start.files, name) +
               if Route(name) == wire then Flatten(Blocks(md5, s.expected, sent, name)) else []
  {
    UploadOutcome(md5, s, pieces);
    var sent := Feed(Service(md5), Decoded(Going(s), [], []), pieces).frames;
    var due := Due(md5, s.expected, sent, wire);
    SameTail(s.wires[wire], Flatten(cuts), EncodeAll(due));
    assert Flatten(cuts) == EncodeAll(due) + [];
    SegmentationIndependent(Server(md5), Going(start), cuts);
    ServerRunsThrough(md5, start, due);
    DecodeEncoded(Server(md5), Going(start), due, []);
    assert due + [] == due;
    ServerAppends(md5, start, due, name);
    DueIsGenuine(md5, s.expected, sent, wire, name);
  }

  /** Files are opened for appending. After an upload the stored file of a digest is the k-th
      accepted block with it if and only if the file was empty or absent before and every other
      accepted block with the digest is empty. */
  lemma {:induction false} StoredIffAcceptedOnce(
      md5: Md5, s: Upload, pieces: seq<Bytes>, start: Saved, cuts: seq<Bytes>, name: Bytes, k: nat)
    requires s.open
    requires s.wires[Route(name)] + Flatten(cuts) ==
             Feed(Service(md5), Decoded(Going(s), [], []), pieces).out.st.wires[Route(name)]
    requires k < |Blocks(md5, s.expected, Feed(Service(md5), Decoded(Going(s), [], []), pieces).frames, name)|
    ensures var sent := Feed(Service(md5), Decoded(Going(s), [], []), pieces).frames;
            var blocks := Blocks(md5, s.expected, sent, name);
            FileOf(Feed(Server(md5), Decoded(Going(start), [], []), cuts).out.st.files, name) == blocks[k]
            <==> FileOf(start.files, name) == [] && forall j | 0 <= j < |blocks| && j != k :: blocks[j] == []
  {
    var sent := Feed(Service(md5), Decoded(Going(s), [], []), pieces).frames;
    var blocks := Blocks(md5, s.expected, sent, name);
    EndToEnd(md5, s, pieces, Route(name), start, cuts, name);
    FlattenAlone(blocks, k);
    PrefixIsEmpty(FileOf(start.files, name), Flatten(blocks), blocks[k]);
  }

  // ---- Resuming ------------------------------------------------------------------------------

  /** The frames of the client's sendFileBlock: the blocks from `i` on that are not uploaded. */
  function ClientFrames(blocks: seq<Body>, uploaded: seq<bool>, i: nat): seq<Frame>
    requires i <= |blocks| == |uploaded| <= INT32_LIMIT
    decreases |blocks| - i
  {
    if i == |blocks| then []
    else
      var rest := ClientFrames(blocks, uploaded, i + 1);
      if uploaded[i] then rest else [Frame(ToBe32(i), blocks[i])] + rest
  }

  lemma {:induction false} SameFrames(blocks: seq<Body>, a: seq<bool>, b: seq<bool>, i: nat)
    requires i <= |blocks| == |a| == |b| <= INT32_LIMIT
    requires forall j | i <= j < |a| :: a[j] == b[j]
    ensures ClientFrames(blocks, a, i) == ClientFrames(blocks, b, i)
    ensures HeadsFit(ClientFrames(blocks, a, i), ID_LEN)
    decreases |blocks| - i
  {
    if i < |blocks| {
      SameFrames(blocks, a, b, i + 1);
    }
  }

  /** They are the blocks whose ids sendFileBlock goes through, each under its id. */
  lemma {:induction false} ClientFramesAre(blocks: seq<Body>, uploaded: seq<bool>, i: nat)
    requires i <= |blocks| == |uploaded| <= INT32_LIMIT
    ensures var fs, ids := ClientFrames(blocks, uploaded, i), Unset(uploaded, i);
            |fs| == |ids| && forall k | 0 <= k < |fs| :: fs[k] == Frame(ToBe32(ids[k]), blocks[ids[k]])
    decreases |blocks| - i
  {
    if i < |blocks| {
      var fs, ids := ClientFrames(blocks, uploaded, i + 1), Unset(uploaded, i + 1);
      ClientFramesAre(blocks, uploaded, i + 1);
      if !uploaded[i] {
        var more, all := [Frame(ToBe32(i), blocks[i])] + fs, [i] + ids;
        forall k | 0 <= k < |more| ensures more[k] == Frame(ToBe32(all[k]), blocks[all[k]]) {
          if k > 0 {
            assert more[k] == fs[k - 1] && all[k] == ids[k - 1];
          }
        }
      }
    }
  }

  predicate BlocksMatch(md5: Md5, expected: seq<Bytes>, blocks: seq<Body>) {
    |blocks| == |expected| <= INT32_LIMIT && forall i | 0 <= i < |blocks| :: md5(blocks[i]) == expected[i]
  }

  lemma ResumeTurn(md5: Md5, s: Upload, blocks: seq<Body>, i: nat)
    requires BlocksMatch(md5, s.expected, blocks) && i < |blocks| && s.open && !s.marked[i]
    ensures var o := Turn(md5, s, Frame(ToBe32(i), blocks[i]));
            && o.Going? && o.st.expected == s.expected && o.st.marked == s.marked[i := true]
            && o.st.open == !AllSet(o.st.marked)
            && o.st.replies == s.replies + if o.st.open then [] else ["success"]
  {
    Be32RoundTrip(i);
    assert Accepts(md5, s.expected, Frame(ToBe32(i), blocks[i]));
  }

  lemma {:induction false} ResumeRuns(md5: Md5, s: Upload, blocks: seq<Body>, i: nat)
    requires BlocksMatch(md5, s.expected, blocks) && i <= |blocks|
    requires (forall j | 0 <= j < i :: s.marked[j]) && (s.open <==> !AllSet(s.marked))
    ensures var fs := ClientFrames(blocks, s.marked, i);
            var o := Steps(Service(md5), Going(s), fs);
            && RunsThrough(Service(md5), Going(s), fs) && o.Going?
            && o.st.expected == s.expected && AllSet(o.st.marked) && !o.st.open
            && o.st.replies == s.replies + if s.open then ["success"] else []
    decreases |blocks| - i
  {
    if i < |blocks| {
      if s.marked[i] {
        ResumeRuns(md5, s, blocks, i + 1);
      } else {
        var f := Frame(ToBe32(i), blocks[i]);
        var next, rest := Turn(md5, s, f).st, ClientFrames(blocks, s.marked, i + 1);
        ResumeTurn(md5, s, blocks, i);
        SameFrames(blocks, s.marked, next.marked, i + 1);
        StepsFirst(Service(md5), Going(s), f, rest);
        ResumeRuns(md5, next, blocks, i + 1);
      }
    }
  }

  /** A client that resends what the server is missing, over any segmentation, completes the
      upload: every block is marked, "success" is sent once, every frame has been consumed. */
  lemma {:induction false} ResumeCompletes(md5: Md5, s: Upload, blocks: seq<Body>, pieces: seq<Bytes>)
    requires BlocksMatch(md5, s.expected, blocks) && s.open && !AllSet(s.marked)
    requires Flatten(pieces) == EncodeAll(ClientFrames(blocks, s.marked, 0))
    ensures var d := Feed(Service(md5), Decoded(Going(s), [], []), pieces);
            && d.out.Going? && d.rest == [] && d.frames == ClientFrames(blocks, s.marked, 0)
            && AllSet(d.out.st.marked) && !d.out.st.open && d.out.st.replies == s.replies + ["success"]
  {
    var r, fs := Service(md5), ClientFrames(blocks, s.marked, 0);
    ResumeRuns(md5, s, blocks, 0);
    SameFrames(blocks, s.marked, s.marked, 0);
    SegmentationIndependent(r, Going(s), pieces);
    DecodeEncoded(r, Going(s), fs, []);
    assert Flatten(pieces) == EncodeAll(fs) + [] && fs + [] == fs;
  }

  // ---- A whole upload ------------------------------------------------------------------------

  /** The blocks of the file from i on that have the digest. */
  function Named(md5: Md5, blocks: seq<Body>, i: nat, name: Bytes): seq<Bytes>
    requires i <= |blocks|
    decreases |blocks| - i
  {
    if i == |blocks| then []
    else (if md5(blocks[i]) == name then [blocks[i]] else []) + Named(md5, blocks, i + 1, name)
  }

  lemma {:induction false} ClientBlocks(
      md5: Md5, expected: seq<Bytes>, blocks: seq<Body>, uploaded: seq<bool>, i: nat, name: Bytes)
    requires BlocksMatch(md5, expected, blocks) && |uploaded| == |blocks| && i <= |blocks|
    requires forall j | i <= j < |blocks| :: !uploaded[j]
    ensures Blocks(md5, expected, ClientFrames(blocks, uploaded, i), name) == Named(md5, blocks, i, name)
    decreases |blocks| - i
  {
    if i < |blocks| {
      var f, rest := Frame(ToBe32(i), blocks[i]), ClientFrames(blocks, uploaded, i + 1);
      ClientBlocks(md5, expected, blocks, uploaded, i + 1, name);
      Be32RoundTrip(i);
      assert Accepts(md5, expected, f);
      assert ([f] + rest)[1..] == rest;
      assert [] + Named(md5, blocks, i + 1, name) == Named(md5, blocks, i + 1, name);
    }
  }

  /** The other blocks of the file with the digest, from i on, hold no bytes. */
  predicate OthersEmpty(md5: Md5, blocks: seq<Body>, i: nat, name: Bytes, k: int) {
    forall j | i <= j < |blocks| && j != k && md5(blocks[j]) == name :: blocks[j] == []
  }

  lemma NamedFirst(md5: Md5, blocks: seq<Body>, i: nat, name: Bytes)
    requires i < |blocks|
    ensures Flatten(Named(md5, blocks, i, name)) ==
            (if md5(blocks[i]) == name then blocks[i] else []) + Flatten(Named(md5, blocks, i + 1, name))
  {
    var body: Bytes, rest := blocks[i], Named(md5, blocks, i + 1, name);
    assert ([body] + rest)[1..] == rest && [] + rest == rest;
    assert [] + Flatten(rest) == Flatten(rest);
  }

  lemma {:induction false} NamedEmpty(md5: Md5, blocks: seq<Body>, i: nat, name: Bytes, k: int)
    requires k < i <= |blocks|
    ensures Flatten(Named(md5, blocks, i, name)) == [] <==> OthersEmpty(md5, blocks, i, name, k)
    decreases |blocks| - i
  {
    if i < |blocks| {
      NamedFirst(md5, blocks, i, name);
      NamedEmpty(md5, blocks, i + 1, name, k);
    }
  }

  lemma {:induction false} NamedAlone(md5: Md5, blocks: seq<Body>, i: nat, name: Bytes, k: int)
    requires i <= k < |blocks| && md5(blocks[k]) == name
    ensures |Flatten(Named(md5, blocks, i, name))| >= |blocks[k]|
    ensures Flatten(Named(md5, blocks, i, name)) == blocks[k] <==> OthersEmpty(md5, blocks, i, name, k)
    decreases |blocks| - i
  {
    var later := Flatten(Named(md5, blocks, i + 1, name));
    NamedFirst(md5, blocks, i, name);
    if i == k {
      NamedEmpty(md5, blocks, i + 1, name, k);
      assert later == [] ==> blocks[k] + later == blocks[k];
    } else {
      NamedAlone(md5, blocks, i + 1, name, k);
      assert [] + later == later;
    }
  }

  /** A session as it is after the digests have been received. */
  predicate Fresh(s: Upload) {
    s.open && forall i | 0 <= i < |s.marked| :: !s.marked[i]
  }

  /** What an honest client's upload of a whole file from a fresh session adds to `wire`: `pieces`
      and `cuts` are the client's stream and the relayed stream, cut in any way. */
  ghost predicate Uploads(
      md5: Md5, s: Upload, blocks: seq<Body>, pieces: seq<Bytes>, wire: nat, cuts: seq<Bytes>)
  {
    && wire < CONNECTIONS && Fresh(s) && BlocksMatch(md5, s.expected, blocks)
    && Flatten(pieces) == EncodeAll(ClientFrames(blocks, s.marked, 0))
    && s.wires[wire] + Flatten(cuts) ==
       Feed(Service(md5), Decoded(Going(s), [], []), pieces).out.st.wires[wire]
  }

  /** An honest client uploads a whole file, the first on this storage connection. The upload
      completes, and the server a block is routed to ends up with exactly that block under its
      digest if and only if the file was empty or absent before and no other block of the upload
      with that digest has any bytes. */
  lemma {:induction false} WholeUploadStored(
      md5: Md5, s: Upload, blocks: seq<Body>, pieces: seq<Bytes>, start: Saved, cuts: seq<Bytes>, i: nat)
    requires i < |blocks| && Uploads(md5, s, blocks, pieces, Route(md5(blocks[i])), cuts)
    ensures var sent := Feed(Service(md5), Decoded(Going(s), [], []), pieces);
            var got := Feed(Server(md5), Decoded(Going(start), [], []), cuts);
            var name := md5(blocks[i]);
            var before, after := FileOf(start.files, name), FileOf(got.out.st.files, name);
            && AllSet(sent.out.st.marked) && sent.out.st.replies == s.replies + ["success"] && sent.rest == []
            && got.out.Going? && got.rest == []
            && after == before + Flatten(Named(md5, blocks, 0, name))
            && (after == blocks[i] <==> before == [] && OthersEmpty(md5, blocks, 0, name, i))
  {
    var name := md5(blocks[i]);
    assert !s.marked[i];
    ResumeCompletes(md5, s, blocks, pieces);
    EndToEnd(md5, s, pieces, Route(name), start, cuts, name);
    ClientBlocks(md5, s.expected, blocks, s.marked, 0, name);
    NamedAlone(md5, blocks, 0, name, i);
    PrefixIsEmpty(FileOf(start.files, name), Flatten(Named(md5, blocks, 0, name)), blocks[i]);
  }

  /** The smallest file that is not stored as it is: the same non-empty block twice. */
  lemma {:induction false} EqualBlocksDoubled(
      md5: Md5, s: Upload, block: Body, pieces: seq<Bytes>, start: Saved, cuts: seq<Bytes>)
    requires block != [] && Uploads(md5, s, [block, block], pieces, Route(md5(block)), cuts)
    ensures var got := Feed(Server(md5), Decoded(Going(start), [], []), cuts).out.st;
            FileOf(got.files, md5(block)) == FileOf(start.files, md5(block)) + (block + block) != block
  {
    var blocks: seq<Body> := [block, block];
    WholeUploadStored(md5, s, blocks, pieces, start, cuts, 0);
    NamedFirst(md5, blocks, 0, md5(block));
    NamedFirst(md5, blocks, 1, md5(block));
    assert Flatten(Named(md5, blocks, 2, md5(block))) == [];
    assert Flatten(Named(md5, blocks, 1, md5(block))) == block;
  }

  /** The same file uploaded again into the directory the first upload has left, both services
      restarted in between: every file is doubled, so no block with any bytes is stored as it is. */
  lemma {:induction false} UploadedAgain(
      md5: Md5, s: Upload, pieces: seq<Bytes>, cuts: seq<Bytes>,
      again: Upload, resent: seq<Bytes>, recut: seq<Bytes>, blocks: seq<Body>, start: Saved, i: nat)
    requires i < |blocks| && blocks[i] != []
    requires Uploads(md5, s, blocks, pieces, Route(md5(blocks[i])), cuts)
    requires Uploads(md5, again, blocks, resent, Route(md5(blocks[i])), recut)
    ensures var first := Feed(Server(md5), Decoded(Going(start), [], []), cuts).out.st;
            var second := Feed(Server(md5), Decoded(Going(first), [], []), recut).out.st;
            var name, named := md5(blocks[i]), Flatten(Named(md5, blocks, 0, md5(blocks[i])));
            FileOf(second.files, name) == FileOf(start.files, name) + (named + named) != blocks[i]
  {
    var name := md5(blocks[i]);
    var first := Feed(Server(md5), Decoded(Going(start), [], []), cuts).out.st;
    var named := Flatten(Named(md5, blocks, 0, name));
    WholeUploadStored(md5, s, blocks, pieces, start, cuts, i);
    WholeUploadStored(md5, again, blocks, resent, first, recut, i);
    NamedAlone(md5, blocks, 0, name, i);
    Assoc(FileOf(start.files, name), named, named);
  }

  // ---- A second upload on the same storage connection ----------------------------------------

  /** "upppload", which the reactor service writes to every storage connection at each init. A
      storage server in its receiving phase reads the first four letters as a size. */
  const SWITCH: Bytes := [0x75, 0x70, 0x70, 0x70, 0x6c, 0x6f, 0x61, 0x64]
  const SWITCH_SIZE: Int32 := 0x7570_7070

  lemma SwitchIsASize(rest: Bytes)
    ensures FromBe32((SWITCH + rest)[..PREFIX]) == SWITCH_SIZE
    ensures Parse(DIGEST_LEN, SWITCH + rest).Wait? <==> |SWITCH + rest| < PREFIX + DIGEST_LEN + SWITCH_SIZE
  {
    var s := SWITCH + rest;
    assert s[..PREFIX] == SWITCH[..PREFIX];
    assert Needed(DIGEST_LEN, SWITCH_SIZE) == PREFIX + DIGEST_LEN + SWITCH_SIZE;
  }

  /** Whatever follows the word, and however it is cut: as long as there are fewer bytes than the
      word announces, and exactly then, the server decodes nothing and saves nothing. */
  lemma {:induction false} SwitchStalls(md5: Md5, start: Saved, rest: Bytes, cuts: seq<Bytes>)
    requires Flatten(cuts) == SWITCH + rest
    ensures var got := Feed(Server(md5), Decoded(Going(start), [], []), cuts);
            && (got.frames == [] <==> |Flatten(cuts)| < PREFIX + DIGEST_LEN + SWITCH_SIZE)
            && (got.frames == [] ==> got == Decoded(Going(start), [], SWITCH + rest))
  {
    SwitchIsASize(rest);
    SegmentationIndependent(Server(md5), Going(start), cuts);
  }

  /** An honest upload, or the rest of one, over a storage connection that has carried one before:
      the client is told "success", and the storage server has saved none of it. `header` is the
      length and name of a new file; a resumed one has none. */
  lemma {:induction false} SecondUploadLost(
      md5: Md5, s: Upload, blocks: seq<Body>, pieces: seq<Bytes>, wire: nat, start: Saved,
      header: Bytes, relayed: Bytes, cuts: seq<Bytes>)
    requires wire < CONNECTIONS && s.open && !AllSet(s.marked) && BlocksMatch(md5, s.expected, blocks)
    requires Flatten(pieces) == EncodeAll(ClientFrames(blocks, s.marked, 0))
    requires s.wires[wire] + relayed ==
             Feed(Service(md5), Decoded(Going(s), [], []), pieces).out.st.wires[wire]
    requires Flatten(cuts) == SWITCH + (header + relayed)
    requires |Flatten(cuts)| < PREFIX + DIGEST_LEN + SWITCH_SIZE
    ensures var sent := Feed(Service(md5), Decoded(Going(s), [], []), pieces).out.st;
            var due := Due(md5, s.expected, ClientFrames(blocks, s.marked, 0), wire);
            var got := Feed(Server(md5), Decoded(Going(start), [], []), cuts);
            && AllSet(sent.marked) && sent.replies == s.replies + ["success"]
            && relayed == EncodeAll(due)
            && got.out == Going(start)
  {
    ResumeCompletes(md5, s, blocks, pieces);
    UploadOutcome(md5, s, pieces);
    var due := Due(md5, s.expected, ClientFrames(blocks, s.marked, 0), wire);
    SameTail(s.wires[wire], relayed, EncodeAll(due));
    SwitchStalls(md5, start, header + relayed, cuts);
  }

  // ---- The two handlers ----------------------------------------------------------------------

  method ConvertMD5toInt(md5: Digest) returns (res: int)
    ensures res == CharSum(md5)
  {
    res := 0;
    for i := 0 to DIGEST_LEN
      invariant res == CharSum(md5[..i])
    {
      assert md5[..i + 1][..i] == md5[..i];
      res := res + md5[i];
    }
    assert md5[..DIGEST_LEN] == md5;
  }

  ghost predicate SameEnd<S>(d: Decoded<S>, e: Decoded<S>) {
    d.out == e.out && d.rest == e.rest
  }

  lemma {:induction false} ProcessTurn<S>(r: Receiver<S>, st: S, s: Bytes)
    requires r.live(st) && Parse(r.headLen, s).Got?
    ensures var f := Parse(r.headLen, s).frame;
            SameEnd(Process(r, Going(st), s), Process(r, r.step(st, f), After(f, s)))
  {
  }

  /** Takes one frame off the front of the buffer; leaves the buffer alone if it cannot. */
  method NextFrame(buf: Buffer, headLen: nat) returns (p: Parsed)
    requires buf.Valid()
    modifies buf`readerIndex
    ensures buf.Valid() && p == Parse(headLen, old(buf.Contents()))
    ensures buf.Contents() == if p.Got? then After(p.frame, old(buf.Contents())) else old(buf.Contents())
  {
    if buf.ReadableBytes() < PREFIX {
      return Wait;
    }
    var be := buf.Peek(PREFIX);
    var size := FromBe32(be);
    if buf.ReadableBytes() < Needed(headLen, size) {
      return Wait;
    }
    if size < 0 || buf.ReadableBytes() < PREFIX + headLen + size {
      return Broken;
    }
    ghost var front := buf.Contents();
    buf.Retrieve(PREFIX);
    var head := buf.ReadAsBlock(headLen);
    var body := buf.ReadAsBlock(size);
    assert front == front[..PREFIX] + (head + (body + buf.Contents()));
    p := Got(Frame(head, body));
  }

  /** Builds a frame in a fresh buffer: digest and block appended, the size prepended. */
  method Assemble(be: Bytes, digest: Digest, input: Body) returns (bytes: Bytes)
    requires |be| == PREFIX
    ensures bytes == be + digest + input
  {
    var out := new Buffer();
    out.Append(digest);
    assert out.Contents() == digest;
    out.Append(input);
    out.Prepend(be);
    bytes := out.ReadAsString();
    assert be + (digest + input) == be + digest + input;
  }

  datatype Phase = Naming | Digests | Receiving | Finished

  class UploadService {
    const md5: Md5
    const file: FileValue
    var wires: seq<Bytes>
    var replies: seq<string>
    var fileName: string
    var upStatu: Phase

    ghost predicate Valid()
      reads this, file
    {
      file.Valid() && |wires| == CONNECTIONS
    }

    ghost function State(): Upload
      reads this, file
      requires Valid()
    {
      Session(file.blockMd5, file.uploadId, wires, replies, fileName, upStatu == Receiving)
    }

    constructor (md5: Md5, file: FileValue, name: string)
      requires file.Valid()
      ensures Valid() && this.md5 == md5 && this.file == file
      ensures State() == Session(file.blockMd5, file.uploadId, seq(CONNECTIONS, _ => []), [], name, true)
    {
      this.md5, this.file := md5, file;
      wires, replies, fileName, upStatu := seq(CONNECTIONS, _ => []), [], name, Receiving;
    }

    /** One decoded block; `failed` where its id is outside the file. */
    method HandleBlock(blockid: Int32, input: Body) returns (failed: bool)
      requires Valid() && upStatu == Receiving
      modifies this, file`uploadId
      ensures Valid()
      ensures Turn(md5, old(State()), Frame(ToBe32(blockid), input)) ==
              if failed then Faulted(State()) else Going(State())
      ensures !failed && md5(input) != file.blockMd5[blockid] ==>
                wires == old(wires) && file.uploadId == old(file.uploadId)
    {
      Be32RoundTrip(blockid);
      if !(0 <= blockid < file.blockNum) {
        return true;
      }
      var digest := md5(input);
      if digest == file.blockMd5[blockid] {
        var sum := ConvertMD5toInt(digest);
        var wire := sum % CONNECTIONS;
        var bytes := Assemble(ToBe32(|input|), digest, input);
        wires := wires[wire := wires[wire] + bytes];
        file.SetUploadId(blockid);
      }
      var finished := file.LsFileFinish();
      if finished {
        upStatu, replies, fileName := Finished, replies + ["success"], "";
      }
      failed := false;
    }

    /** `failed` where the source throws or indexes out of range. */
    method SendBlock(buf: Buffer) returns (failed: bool)
      requires Valid() && buf.Valid()
      modifies this, file`uploadId, buf`readerIndex
      ensures Valid() && buf.Valid()
      ensures var d := Process(Service(md5), Going(old(State())), old(buf.Contents()));
              && failed == d.out.Faulted? && State() == d.out.st
              && (!failed ==> buf.Contents() == d.rest)
    {
      ghost var r, target := Service(md5), Process(Service(md5), Going(State()), buf.Contents());
      while upStatu == Receiving
        invariant Valid() && buf.Valid()
        invariant SameEnd(Process(r, Going(State()), buf.Contents()), target)
        decreases buf.ReadableBytes()
      {
        ghost var s, front := State(), buf.Contents();
        var p := NextFrame(buf, ID_LEN);
        if p.Wait? {
          break;
        } else if p.Broken? {
          return true;
        }
        WireRoundTrip(p.frame.head);
        failed := HandleBlock(FromBe32(p.frame.head), p.frame.body);
        ProcessTurn(r, s, front);
        if failed {
          return;
        }
      }
      failed := false;
    }
  }

  class BlockServer {
    const md5: Md5
    var files: map<Bytes, Bytes>
    var counter: nat

    constructor (md5: Md5)
      ensures this.md5 == md5 && files == map[] && counter == 0
    {
      this.md5, files, counter := md5, map[], 0;
    }

    method HandleBlock(blockmd5: Bytes, input: Body)
      modifies this
      ensures Going(Saved(files, counter)) == Save(md5, Saved(old(files), old(counter)), Frame(blockmd5, input))
      ensures md5(input) != blockmd5 ==> files == old(files) && counter == old(counter)
      ensures md5(input) == blockmd5 ==>
                && counter == old(counter) + 1
                && files == old(files)[blockmd5 := FileOf(old(files), blockmd5) + input]
    {
      var digest := md5(input);
      if blockmd5 == digest {
        counter := counter + 1;
        files := files[digest := FileOf(files, digest) + input];
      }
    }

    method SaveBlockFile(buf: Buffer) returns (failed: bool)
      requires buf.Valid()
      modifies this, buf`readerIndex
      ensures buf.Valid()
      ensures var d := Process(Server(md5), Going(Saved(old(files), old(counter))), old(buf.Contents()));
              && failed == d.out.Faulted? && Saved(files, counter) == d.out.st
              && (!failed ==> buf.Contents() == d.rest)
    {
      ghost var r, target := Server(md5), Process(Server(md5), Going(Saved(files, counter)), buf.Contents());
      while true
        invariant buf.Valid()
        invariant SameEnd(Process(r, Going(Saved(files, counter)), buf.Contents()), target)
        decreases buf.ReadableBytes()
      {
        ghost var s, front := Saved(files, counter), buf.Contents();
        var p := NextFrame(buf, DIGEST_LEN);
        if p.Wait? {
          return false;
        } else if p.Broken? {
          return true;
        }
        HandleBlock(p.frame.head, p.frame.body);
        ProcessTurn(r, s, front);
      }
    }
  }

  /** handleRead: what has arrived is appended to the input buffer, then the callback runs. */
  method OnMessage(service: UploadService, buf: Buffer, piece: Bytes) returns (failed: bool)
    requires service.Valid() && buf.Valid()
    modifies service, service.file`uploadId, buf, buf.data
    ensures service.Valid() && buf.Valid() && (buf.data == old(buf.data) || fresh(buf.data))
    ensures var d := Process(Service(service.md5), Going(old(service.State())), old(buf.Contents()) + piece);
            && failed == d.out.Faulted? && service.State() == d.out.st
            && (!failed ==> buf.Contents() == d.rest)
  {
    buf.Append(piece);
    failed := service.SendBlock(buf);
  }

  lemma {:induction false} ReadOnce<S>(r: Receiver<S>, st: S, held: Bytes, piece: Bytes, later: Bytes)
    requires r.Valid()
    ensures var d := Process(r, Going(st), held + piece);
            && SameEnd(Process(r, Going(st), held + (piece + later)), Process(r, d.out, d.rest + later))
            && (r.Runs(d.out) ==> Parse(r.headLen, d.rest).Wait?)
  {
    assert held + (piece + later) == held + piece + later;
    CutOnce(r, Going(st), held + piece, later);
    Conserved(r, Going(st), held + piece);
  }

  /** The reads of a whole connection, one after the other. The result depends on the concatenation of
      the pieces only. */
  method Serve(service: UploadService, buf: Buffer, pieces: seq<Bytes>) returns (failed: bool)
    requires service.Valid() && buf.Valid() && buf.Contents() == []
    modifies service, service.file`uploadId, buf, buf.data
    ensures service.Valid() && buf.Valid()
    ensures var d := Process(Service(service.md5), Going(old(service.State())), Flatten(pieces));
            && failed == d.out.Faulted? && service.State() == d.out.st
            && (!failed ==> buf.Contents() == d.rest)
  {
    ghost var r, later := Service(service.md5), Flatten(pieces);
    ghost var target := Process(r, Going(service.State()), later);
    assert [] + later == later;
    failed := false;
    for i := 0 to |pieces|
      invariant service.Valid() && buf.Valid() && (buf.data == old(buf.data) || fresh(buf.data))
      invariant later == Flatten(pieces[i..])
      invariant SameEnd(Process(r, Going(service.State()), buf.Contents() + later), target)
      invariant service.State().open ==> Parse(ID_LEN, buf.Contents()).Wait?
    {
      ghost var rest := Flatten(pieces[i + 1..]);
      assert later == pieces[i] + rest;
      ReadOnce(r, service.State(), buf.Contents(), pieces[i], rest);
      failed := OnMessage(service, buf, pieces[i]);
      if failed {
        return;
      }
      later := rest;
    }
    assert buf.Contents() + later == buf.Contents();
  }
}
