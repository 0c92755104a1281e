/** Length-prefixed frames: a big-endian int32 size, a header of fixed length, `size` bytes.
    `Process` is the decode loop that every receiver runs over its input buffer. Lemmas about it
    turn automatic induction off, inductive or not: the hypothesis Dafny would add ranges over
    every receiver state and stream, and makes their proofs slow and unstable. */
module Frames {
  import opened Basics

  const INT32_LIMIT: int := 0x8000_0000
  const WORD: int := 0x1_0000_0000
  const SIZE_T: int := 0x1_0000_0000_0000_0000
  const PREFIX: nat := 4

  // ---- int32 on the wire ---------------------------------------------------------------------

  type Int32 = n: int | -INT32_LIMIT <= n < INT32_LIMIT

  function Unsigned(s: Bytes): nat
    requires |s| == PREFIX
  {
    ((s[0] as int * 256 + s[1]) * 256 + s[2]) * 256 + s[3]
  }

  lemma Places(s: Bytes)
    requires |s| == PREFIX
    ensures var u := Unsigned(s);
            0 <= u < WORD && u % 256 == s[3] && u / 256 % 256 == s[2] && u / 256 / 256 % 256 == s[1]
            && u / 256 / 256 / 256 == s[0]
  {
    var u1 := s[0] as int * 256 + s[1];
    var u2 := u1 * 256 + s[2];
    assert Unsigned(s) / 256 == u2 && u2 / 256 == u1;
  }

  /** ntohl, kept in an int32_t. */
  function FromBe32(s: Bytes): Int32
    requires |s| == PREFIX
  {
    Places(s);
    var u := Unsigned(s);
    if u < INT32_LIMIT then u else u - WORD
  }

  /** htonl of an int32_t. */
  function ToBe32(n: Int32): (s: Bytes)
    ensures |s| == PREFIX
  {
    var u := n % WORD;
    [u / 256 / 256 / 256, u / 256 / 256 % 256, u / 256 % 256, u % 256]
  }

  lemma Be32RoundTrip(n: Int32)
    ensures FromBe32(ToBe32(n)) == n
  {
    var s, u := ToBe32(n), n % WORD;
    var u1, u2 := u / 256, u / 256 / 256;
    Places(s);
    assert u == u1 * 256 + s[3] && u1 == u2 * 256 + s[2] && u2 == u / 256 / 256 / 256 * 256 + s[1];
    assert Unsigned(s) == u;
  }

  lemma WireRoundTrip(s: Bytes)
    requires |s| == PREFIX
    ensures ToBe32(FromBe32(s)) == s
  {
    Places(s);
    assert FromBe32(s) % WORD == Unsigned(s);
  }

  /** The most significant byte comes first; the value is a two's complement of 32 bits. */
  lemma BigEndian(s: Bytes)
    requires |s| == PREFIX
    ensures var value := 0x100_0000 * (s[0] as int) + 0x1_0000 * (s[1] as int) + 0x100 * (s[2] as int) + s[3];
            FromBe32(s) == if value < 0x8000_0000 then value else value - 0x1_0000_0000
  {
  }

  // ---- One frame -----------------------------------------------------------------------------

  /** Bytes whose number an int32_t can hold. */
  type Body = s: Bytes | |s| < INT32_LIMIT

  datatype Frame = Frame(head: Bytes, body: Body)

  function Encode(f: Frame): Bytes {
    ToBe32(|f.body|) + f.head + f.body
  }

  /** PREFIX + headLen + static_cast<size_t>(size), in 64-bit arithmetic. */
  function Needed(headLen: nat, size: Int32): nat {
    (PREFIX + headLen + size) % SIZE_T
  }

  /** What the front of the buffer holds. Broken: the size is negative, and the wrapped sum lets
      it through to the std::string constructor, which throws. */
  datatype Parsed = Wait | Broken | Got(frame: Frame)

  function Parse(headLen: nat, s: Bytes): (p: Parsed)
    ensures p.Got? ==> |p.frame.head| == headLen && |s| >= PREFIX + headLen + |p.frame.body|
  {
    if |s| < PREFIX then Wait
    else
      var size := FromBe32(s[..PREFIX]);
      if |s| < Needed(headLen, size) then Wait
      else if size < 0 || |s| < PREFIX + headLen + size then Broken
      else
        var start := PREFIX + headLen;
        Got(Frame(s[PREFIX..start], s[start..start + size]))
  }

  /** The size is compared as a size_t: a small negative one passes the test and the decoder throws,
      a larger one makes it wait for more bytes than there can ever be. */
  lemma NegativeSize(headLen: nat, s: Bytes)
    requires |s| >= PREFIX && FromBe32(s[..PREFIX]) < 0 && headLen < INT32_LIMIT
    ensures var need := PREFIX + headLen + FromBe32(s[..PREFIX]);
            Parse(headLen, s) == if |s| < (if need < 0 then SIZE_T + need else need) then Wait else Broken
  {
    var size := FromBe32(s[..PREFIX]);
    var need := PREFIX + headLen + size;
    if need < 0 {
      assert (need + SIZE_T) % SIZE_T == need + SIZE_T;
    }
    assert Needed(headLen, size) == if need < 0 then SIZE_T + need else need;
  }

  /** Four bytes of size, the header, `size` bytes: a frame is decoded as soon as, and not before,
      all of it is there. */
  lemma ParseLayout(headLen: nat, s: Bytes)
    requires headLen < INT32_LIMIT && |s| >= PREFIX && FromBe32(s[..PREFIX]) >= 0
    ensures var size := FromBe32(s[..4]);
            && (Parse(headLen, s).Wait? <==> |s| < 4 + headLen + size)
            && (|s| >= 4 + headLen + size ==>
                  Parse(headLen, s) == Got(Frame(s[4..4 + headLen], s[4 + headLen..4 + headLen + size])))
  {
    assert Needed(headLen, FromBe32(s[..PREFIX])) == PREFIX + headLen + FromBe32(s[..PREFIX]);
  }

  function After(f: Frame, s: Bytes): Bytes
    requires |s| >= PREFIX + |f.head| + |f.body|
  {
    s[PREFIX + |f.head| + |f.body|..]
  }

  lemma ParseIsEncoded(headLen: nat, s: Bytes)
    requires Parse(headLen, s).Got?
    ensures var f := Parse(headLen, s).frame; s == Encode(f) + After(f, s)
  {
    var f, start := Parse(headLen, s).frame, PREFIX + headLen;
    WireRoundTrip(s[..PREFIX]);
    assert |f.body| == FromBe32(s[..PREFIX]);
    assert s == s[..PREFIX] + s[PREFIX..start] + s[start..start + |f.body|] + s[start + |f.body|..];
  }

  lemma EncodedParses(headLen: nat, f: Frame, rest: Bytes)
    requires |f.head| == headLen && PREFIX + headLen + INT32_LIMIT < SIZE_T
    ensures Parse(headLen, Encode(f) + rest) == Got(f) && After(f, Encode(f) + rest) == rest
  {
    var s, start := Encode(f) + rest, PREFIX + headLen;
    assert s[..PREFIX] == ToBe32(|f.body|);
    Be32RoundTrip(|f.body|);
    assert Needed(headLen, |f.body|) == start + |f.body|;
    assert s[PREFIX..start] == f.head && s[start..start + |f.body|] == f.body;
  }

  /** Bytes that arrive later never change a decision already made. */
  lemma ParseIsStable(headLen: nat, s: Bytes, more: Bytes)
    requires !Parse(headLen, s).Wait?
    ensures Parse(headLen, s).Got? ==>
              Parse(headLen, s + more) == Parse(headLen, s)
              && After(Parse(headLen, s).frame, s + more) == After(Parse(headLen, s).frame, s) + more
    ensures Parse(headLen, s).Broken? && PREFIX + headLen + INT32_LIMIT < SIZE_T ==> Parse(headLen, s + more).Broken?
  {
    assert (s + more)[..PREFIX] == s[..PREFIX];
    var p, start := Parse(headLen, s), PREFIX + headLen;
    if p.Got? {
      assert (s + more)[PREFIX..start] == s[PREFIX..start];
      assert (s + more)[start..start + |p.frame.body|] == s[start..start + |p.frame.body|];
    }
  }

  predicate HeadsFit(fs: seq<Frame>, headLen: nat) {
    forall i | 0 <= i < |fs| :: |fs[i].head| == headLen
  }

  function EncodeAll(fs: seq<Frame>): Bytes {
    if fs == [] then [] else Encode(fs[0]) + EncodeAll(fs[1..])
  }

  lemma {:induction false} EncodeAllConcat(a: seq<Frame>, b: seq<Frame>)
    ensures EncodeAll(a + b) == EncodeAll(a) + EncodeAll(b)
  {
    if a == [] {
      assert a + b == b;
    } else {
      EncodeAllConcat(a[1..], b);
      var x, y, z := Encode(a[0]), EncodeAll(a[1..]), EncodeAll(b);
      assert (a + b)[1..] == a[1..] + b && x + (y + z) == (x + y) + z;
    }
  }

  // ---- The decode loop -----------------------------------------------------------------------

  /** Faulted: the process has thrown, or has indexed out of range. */
  datatype Outcome<S> = Going(st: S) | Faulted(st: S)

  /** A receiver: the loop goes on while `live`, `step` consumes one frame. */
  datatype Receiver<!S> = Receiver(headLen: nat, live: S -> bool, step: (S, Frame) -> Outcome<S>) {
    predicate Valid() {
      PREFIX + headLen + INT32_LIMIT < SIZE_T
    }

    predicate Runs(o: Outcome<S>) {
      o.Going? && live(o.st)
    }
  }

  datatype Decoded<S> = Decoded(out: Outcome<S>, frames: seq<Frame>, rest: Bytes)

  function Process<S>(r: Receiver<S>, o: Outcome<S>, s: Bytes): Decoded<S>
    decreases |s|
  {
    if !r.Runs(o) then Decoded(o, [], s)
    else match Parse(r.headLen, s)
      case Wait => Decoded(o, [], s)
      case Broken => Decoded(Faulted(o.st), [], s)
      case Got(f) => Prefixed(f, Process(r, r.step(o.st, f), After(f, s)))
  }

  function Prefixed<S>(f: Frame, d: Decoded<S>): Decoded<S> {
    Decoded(d.out, [f] + d.frames, d.rest)
  }

  /** One more read: `piece` is appended to what the buffer still holds and the loop runs. */
  function Receive<S>(r: Receiver<S>, d: Decoded<S>, piece: Bytes): Decoded<S> {
    var n := Process(r, d.out, d.rest + piece);
    Decoded(n.out, d.frames + n.frames, n.rest)
  }

  function Feed<S>(r: Receiver<S>, d: Decoded<S>, pieces: seq<Bytes>): Decoded<S>
    decreases |pieces|
  {
    if pieces == [] then d else Feed(r, Receive(r, d, pieces[0]), pieces[1..])
  }

  lemma {:induction false} CutOnce<S>(r: Receiver<S>, o: Outcome<S>, a: Bytes, b: Bytes)
    requires r.Valid()
    ensures Process(r, o, a + b) == Receive(r, Process(r, o, a), b)
    decreases |a|
  {
    if r.Runs(o) && !Parse(r.headLen, a).Wait? {
      ParseIsStable(r.headLen, a, b);
      if Parse(r.headLen, a).Got? {
        var f := Parse(r.headLen, a).frame;
        var next, rest := r.step(o.st, f), After(f, a);
        CutOnce(r, next, rest, b);
        var d := Process(r, next, rest);
        assert [f] + (d.frames + Process(r, d.out, d.rest + b).frames) ==
               ([f] + d.frames) + Process(r, d.out, d.rest + b).frames;
      }
    }
  }

  lemma {:induction false} FeedFrom<S>(r: Receiver<S>, o: Outcome<S>, s: Bytes, pieces: seq<Bytes>)
    requires r.Valid()
    ensures Feed(r, Process(r, o, s), pieces) == Process(r, o, s + Flatten(pieces))
    decreases |pieces|
  {
    if pieces == [] {
      assert s + Flatten(pieces) == s;
    } else {
      CutOnce(r, o, s, pieces[0]);
      FeedFrom(r, o, s + pieces[0], pieces[1..]);
      assert s + pieces[0] + Flatten(pieces[1..]) == s + Flatten(pieces);
    }
  }

  /** How TCP cuts the stream into reads does not matter: for any stream at all, well formed or
      not, the receiver ends in the same state with the same bytes left over. */
  lemma {:induction false} SegmentationIndependent<S>(r: Receiver<S>, o: Outcome<S>, pieces: seq<Bytes>)
    requires r.Valid()
    ensures Feed(r, Decoded(o, [], []), pieces) == Process(r, o, Flatten(pieces))
  {
    FeedFrom(r, o, [], pieces);
    assert [] + Flatten(pieces) == Flatten(pieces);
  }

  // ---- What is consumed ----------------------------------------------------------------------

  function Steps<S>(r: Receiver<S>, o: Outcome<S>, fs: seq<Frame>): Outcome<S>
    decreases |fs|
  {
    if fs == [] || !r.Runs(o) then o else Steps(r, r.step(o.st, fs[0]), fs[1..])
  }

  lemma {:induction false} StepsFirst<S>(r: Receiver<S>, o: Outcome<S>, f: Frame, rest: seq<Frame>)
    requires r.Runs(o)
    ensures Steps(r, o, [f] + rest) == Steps(r, r.step(o.st, f), rest)
    ensures RunsThrough(r, o, [f] + rest) <==> RunsThrough(r, r.step(o.st, f), rest)
  {
    assert ([f] + rest)[1..] == rest;
  }

  predicate RunsThrough<S>(r: Receiver<S>, o: Outcome<S>, fs: seq<Frame>)
    decreases |fs|
  {
    fs == [] || (r.Runs(o) && RunsThrough(r, r.step(o.st, fs[0]), fs[1..]))
  }

  /** `d` accounts for the stream `s`: the frames consumed and the bytes left over are `s`, the
      outcome is that of the frames, and while the receiver still runs, what is left is not yet a
      whole frame. */
  ghost predicate Accounts<S>(r: Receiver<S>, o: Outcome<S>, s: Bytes, d: Decoded<S>) {
    && HeadsFit(d.frames, r.headLen)
    && s == EncodeAll(d.frames) + d.rest
    && RunsThrough(r, o, d.frames)
    && d.out.st == Steps(r, o, d.frames).st
    && (d.out.Going? ==> d.out == Steps(r, o, d.frames))
    && (r.Runs(d.out) ==> Parse(r.headLen, d.rest).Wait?)
  }

  lemma {:induction false} AccountsPrefixed<S>(r: Receiver<S>, o: Outcome<S>, s: Bytes, f: Frame, d: Decoded<S>)
    requires r.Runs(o) && |f.head| == r.headLen && Accounts(r, r.step(o.st, f), s, d)
    ensures Accounts(r, o, Encode(f) + s, Prefixed(f, d))
  {
    var fs := [f] + d.frames;
    assert fs[1..] == d.frames;
    assert Encode(f) + s == EncodeAll(fs) + d.rest;
  }

  /** No byte is lost or invented. */
  lemma {:induction false} Conserved<S>(r: Receiver<S>, o: Outcome<S>, s: Bytes)
    ensures Accounts(r, o, s, Process(r, o, s))
    decreases |s|
  {
    if r.Runs(o) && Parse(r.headLen, s).Got? {
      var f := Parse(r.headLen, s).frame;
      ParseIsEncoded(r.headLen, s);
      Conserved(r, r.step(o.st, f), After(f, s));
      AccountsPrefixed(r, o, After(f, s), f, Process(r, r.step(o.st, f), After(f, s)));
    } else {
      assert s == [] + s;
    }
  }

  lemma {:induction false} ProcessOne<S>(r: Receiver<S>, o: Outcome<S>, f: Frame, more: Bytes)
    requires r.Valid() && r.Runs(o) && |f.head| == r.headLen
    ensures Process(r, o, Encode(f) + more) == Prefixed(f, Process(r, r.step(o.st, f), more))
  {
    EncodedParses(r.headLen, f, more);
  }

  function Following<S>(fs: seq<Frame>, d: Decoded<S>): Decoded<S> {
    Decoded(d.out, fs + d.frames, d.rest)
  }

  lemma FollowingCons<S>(fs: seq<Frame>, d: Decoded<S>)
    requires fs != []
    ensures Prefixed(fs[0], Following(fs[1..], d)) == Following(fs, d)
  {
    assert [fs[0]] + (fs[1..] + d.frames) == fs + d.frames;
  }

  lemma EncodeFirst(fs: seq<Frame>, tail: Bytes)
    requires fs != []
    ensures EncodeAll(fs) + tail == Encode(fs[0]) + (EncodeAll(fs[1..]) + tail)
  {
  }

  /** Decoding what an encoder emitted gives back exactly its frames. */
  lemma {:induction false} DecodeEncoded<S>(r: Receiver<S>, o: Outcome<S>, fs: seq<Frame>, tail: Bytes)
    requires r.Valid() && RunsThrough(r, o, fs) && HeadsFit(fs, r.headLen)
    ensures Process(r, o, EncodeAll(fs) + tail) == Following(fs, Process(r, Steps(r, o, fs), tail))
    decreases |fs|
  {
    if fs == [] {
      assert EncodeAll(fs) + tail == tail;
      assert fs + Process(r, o, tail).frames == Process(r, o, tail).frames;
    } else {
      var next, later := r.step(o.st, fs[0]), fs[1..];
      var more := EncodeAll(later) + tail;
      EncodeFirst(fs, tail);
      ProcessOne(r, o, fs[0], more);
      DecodeEncoded(r, next, later, tail);
      FollowingCons(fs, Process(r, Steps(r, next, later), tail));
    }
  }
}
