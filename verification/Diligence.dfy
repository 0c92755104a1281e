/** No handler stops early: over every interleaving, a fan-out asks each recorded replica, a download
    tries each candidate, and a delete sends each DELETE before the row goes. */
module Diligence {
  import opened Basics
  import opened Protocol
  import opened Staleness

  /** A fan-out asks one replica after the other, and ends when it has asked them all. */
  predicate FanGoesOn(a: Handler, b: Handler) {
    a.Fan? ==>
      if b.Fan?
      then b.spec == a.spec && b.body == a.body && a.next <= b.next <= a.next + 1 && a.next < |a.spec.nodes|
      else a.next == |a.spec.nodes| && a.wait == None
  }

  /** A download sends blocks whole and in order. It ends when all are sent, when every candidate
      for a block has failed, or when a transfer breaks off. */
  predicate SendGoesOn(cfg: Config, a: Handler, b: Handler) {
    a.Send? ==>
      && (b.Send? || b.GetReply?)
      && (b.Send? ==>
            || b.dl == a.dl
            || (a.open.Some? && b.dl == a.dl.(parts := a.dl.parts + [a.open.value])))
      && (b.Send? && b.dl == a.dl ==> a.cand <= b.cand <= a.cand + 1)
      && (b.GetReply? ==>
            && b.dl == a.dl
            && (a.open.None? && |a.dl.parts| != |a.dl.specs| ==>
                  |a.dl.parts| < |a.dl.specs| && a.cand == |Tried(cfg, a.dl.specs[|a.dl.parts|])|))
  }

  /** A delete goes through its list and replies at its end. */
  predicate DeleteGoesOn(a: Handler, b: Handler) {
    a.DelFan? ==> if b.DelFan? then a.todo != [] && b.todo == a.todo[1..] else a.todo == []
  }

  lemma FanAdvances(cfg: Config, s: State, t: State, h: nat, hd: Handler)
    requires WellFormed(cfg) && Advances(cfg, s, t, h, hd) && hd.Fan?
    ensures h in t.handlers && FanGoesOn(hd, t.handlers[h])
  {}

  lemma SendAdvances(cfg: Config, s: State, t: State, h: nat, hd: Handler)
    requires WellFormed(cfg) && Advances(cfg, s, t, h, hd) && hd.Send?
    ensures h in t.handlers && SendGoesOn(cfg, hd, t.handlers[h])
  {}

  lemma DeleteAdvances(cfg: Config, s: State, t: State, h: nat, hd: Handler)
    requires WellFormed(cfg) && Advances(cfg, s, t, h, hd) && hd.DelFan?
    ensures h in t.handlers && DeleteGoesOn(hd, t.handlers[h])
  {}

  ghost predicate GoesOn(cfg: Config, a: Handler, b: Handler) {
    a == b || (FanGoesOn(a, b) && SendGoesOn(cfg, a, b) && DeleteGoesOn(a, b))
  }

  lemma AdvanceGoesOn(cfg: Config, s: State, t: State, h: nat, hd: Handler)
    requires WellFormed(cfg) && Advances(cfg, s, t, h, hd)
    ensures h in t.handlers && t.handlers == s.handlers[h := t.handlers[h]] && GoesOn(cfg, hd, t.handlers[h])
  {
    AdvanceMoves(cfg, s, t, h, hd);
    if hd.Fan? {
      FanAdvances(cfg, s, t, h, hd);
    } else if hd.Send? {
      SendAdvances(cfg, s, t, h, hd);
    } else if hd.DelFan? {
      DeleteAdvances(cfg, s, t, h, hd);
    }
  }

  lemma FanStepGoesOn(cfg: Config, s: State, t: State, h: nat)
    requires SendsPut(cfg, s, t, h) || HearsReply(s, t, h) || GivesUp(s, t, h)
    ensures h in t.handlers && t.handlers == s.handlers[h := t.handlers[h]]
    ensures GoesOn(cfg, s.handlers[h], t.handlers[h])
  {}

  lemma SendStepGoesOn(cfg: Config, s: State, t: State, h: nat, upTo: nat)
    requires Opens(cfg, s, t, h) || Skips(cfg, s, t, h) || Copies(s, t, h, upTo) || Breaks(s, t, h)
    ensures h in t.handlers && t.handlers == s.handlers[h := t.handlers[h]]
    ensures GoesOn(cfg, s.handlers[h], t.handlers[h])
  {}

  lemma SelectGoesOn(cfg: Config, s: State, t: State, h: nat, order: seq<int>)
    requires Selects(s, t, h, order)
    ensures h in t.handlers && t.handlers == s.handlers[h := t.handlers[h]]
    ensures GoesOn(cfg, s.handlers[h], t.handlers[h])
  {}

  lemma DeleteStepGoesOn(cfg: Config, s: State, t: State, h: nat, reached: bool)
    requires SendsDelete(cfg, s, t, h, reached)
    ensures h in t.handlers && t.handlers == s.handlers[h := t.handlers[h]]
    ensures GoesOn(cfg, s.handlers[h], t.handlers[h])
  {}

  lemma StepGoesOn(cfg: Config, s: State, t: State, step: Step, h: nat)
    requires WellFormed(cfg) && Does(cfg, s, t, step) && h in s.handlers && h in t.handlers
    ensures GoesOn(cfg, s.handlers[h], t.handlers[h])
  {
    match step
    case Advance(g) => AdvanceGoesOn(cfg, s, t, g, s.handlers[g]);
    case Ordered(g, order) => SelectGoesOn(cfg, s, t, g, order);
    case FanSend(g) => FanStepGoesOn(cfg, s, t, g);
    case FanReply(g) => FanStepGoesOn(cfg, s, t, g);
    case FanError(g) => FanStepGoesOn(cfg, s, t, g);
    case Open(g) => SendStepGoesOn(cfg, s, t, g, 0);
    case Skip(g) => SendStepGoesOn(cfg, s, t, g, 0);
    case CopyTo(g, upTo) => SendStepGoesOn(cfg, s, t, g, upTo);
    case Break(g) => SendStepGoesOn(cfg, s, t, g, 0);
    case DelSend(g, reached) => DeleteStepGoesOn(cfg, s, t, g, reached);
    case _ =>
  }

  ghost predicate FansFrom(run: seq<State>, h: nat, i: nat, j: nat)
    requires j < |run|
  {
    forall k | i <= k <= j :: h in run[k].handlers && run[k].handlers[h].Fan?
  }

  ghost predicate Reached(run: seq<State>, h: nat, i: nat, j: nat, k: nat)
    requires j < |run| && FansFrom(run, h, i, j)
  {
    exists l | i <= l <= j :: run[l].handlers[h].next == k
  }

  /** Between two states of one fan-out the position has not moved back, nor past a replica. */
  lemma {:induction false} FanInOrder(cfg: Config, run: seq<State>, i: nat, j: nat, h: nat)
    requires WellFormed(cfg) && IsRun(cfg, run) && i <= j < |run| && FansFrom(run, h, i, j)
    ensures var a, b := run[i].handlers[h], run[j].handlers[h];
            && b.spec == a.spec && b.body == a.body && a.next <= b.next
            && forall k: nat | a.next <= k <= b.next :: Reached(run, h, i, j, k)
    decreases j - i
  {
    if i < j {
      FanInOrder(cfg, run, i, j - 1, h);
      var step := StepTaken(cfg, run, j - 1);
      StepGoesOn(cfg, run[j - 1], run[j], step, h);
      forall k: nat | run[i].handlers[h].next <= k <= run[j].handlers[h].next ensures Reached(run, h, i, j, k) {
        if k <= run[j - 1].handlers[h].next {
          assert Reached(run, h, i, j - 1, k);
        } else {
          assert run[j].handlers[h].next == k;
        }
      }
    } else {
      forall k: nat | run[i].handlers[h].next <= k <= run[j].handlers[h].next ensures Reached(run, h, i, j, k) {
        assert run[i].handlers[h].next == k;
      }
    }
  }

  /** Whoever looks: a fan-out that has become a mark or a 502 had asked every recorded replica. */
  lemma FanAsksAll(cfg: Config, run: seq<State>, i: nat, h: nat)
    requires WellFormed(cfg) && IsRun(cfg, run) && i + 1 < |run| && h in run[i].handlers && h in run[i + 1].handlers
    requires run[i].handlers[h].Fan? && !run[i + 1].handlers[h].Fan?
    ensures var hd := run[i].handlers[h]; hd.next == |hd.spec.nodes| && hd.wait == None
  {
    var step := StepTaken(cfg, run, i);
    StepGoesOn(cfg, run[i], run[i + 1], step, h);
  }

  /** A download replies only when all is sent, when every candidate has been tried, or in the middle
      of a transfer. */
  lemma DownloadTriesAll(cfg: Config, run: seq<State>, i: nat, h: nat)
    requires WellFormed(cfg) && IsRun(cfg, run) && i + 1 < |run| && h in run[i].handlers && h in run[i + 1].handlers
    requires run[i].handlers[h].Send? && run[i + 1].handlers[h].GetReply?
    ensures var hd := run[i].handlers[h];
            || hd.open.Some?
            || |hd.dl.parts| == |hd.dl.specs|
            || (|hd.dl.parts| < |hd.dl.specs| && hd.cand == |Tried(cfg, hd.dl.specs[|hd.dl.parts|])|)
  {
    var step := StepTaken(cfg, run, i);
    StepGoesOn(cfg, run[i], run[i + 1], step, h);
  }

  /** The row of a file goes only after a DELETE of every block has been sent to every replica. */
  lemma DeleteSendsAll(cfg: Config, run: seq<State>, i: nat, h: nat)
    requires WellFormed(cfg) && IsRun(cfg, run) && i + 1 < |run| && h in run[i].handlers && h in run[i + 1].handlers
    requires run[i].handlers[h].DelFan? && !run[i + 1].handlers[h].DelFan?
    ensures run[i].handlers[h].todo == []
  {
    var step := StepTaken(cfg, run, i);
    StepGoesOn(cfg, run[i], run[i + 1], step, h);
  }
}
