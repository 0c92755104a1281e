/** Handlers that outlive the file they looked up: an upload never touches a later file of the
    same name, a DELETE may remove one. Both are stated over whole runs. */
module Staleness {
  import opened Basics
  import opened Protocol
  import opened ProtocolInvariant
  import opened ProtocolSteps
  import opened ProtocolTheorems
  import M = Metastore

  // ----- who owns a name -----

  /** A handler's DELETE FROM files WHERE name = ? */
  ghost predicate Deletes(cfg: Config, s: State, t: State, name: string)
    requires WellFormed(cfg)
  {
    exists h :: h in s.handlers && s.handlers[h].DelFan? && s.handlers[h].name == name
      && Advances(cfg, s, t, h, s.handlers[h])
  }

  lemma OwnerIsFound(t: M.Tables, id: nat)
    requires M.Schema(t) && id in t.files
    ensures M.Find(t, t.files[id].name) == Some(id)
  {}

  /** While its file lives, a name is found under the same id; a later owner is a later file. */
  lemma NameOwner(cfg: Config, run: seq<State>, i: nat, j: nat, name: string, id: nat)
    requires WellFormed(cfg) && IsRun(cfg, run) && i <= j < |run| && M.Find(run[i].tables, name) == Some(id)
    ensures M.Find(run[j].tables, name) == Some(id) <==> id in run[j].tables.files
    ensures M.Find(run[j].tables, name).Some? && M.Find(run[j].tables, name) != Some(id) ==>
              M.Find(run[j].tables, name).value >= run[i].tables.nextId
  {
    RunInv(cfg, run, i);
    RunInv(cfg, run, j);
    RunGrows(cfg, run, i, j);
    if id in run[j].tables.files {
      assert SameFile(run[j].tables.files[id], run[j].origin[id])
        && SameFile(run[i].tables.files[id], run[i].origin[id]);
      OwnerIsFound(run[j].tables, id);
    }
    var now := M.Find(run[j].tables, name);
    if now.Some? && now.value < run[i].tables.nextId {
      assert now.value in run[i].tables.files;
      assert SameFile(run[i].tables.files[now.value], run[i].origin[now.value]);
      OwnerIsFound(run[i].tables, now.value);
    }
  }

  lemma QuietKeepsFiles(cfg: Config, s: State, t: State, step: Step)
    requires WellFormed(cfg) && Does(cfg, s, t, step)
    requires step.Advance? ==> !ChangesTables(s.handlers[step.h])
    ensures t.tables == s.tables
  {
    if step.Advance? {
      QuietAdvanceKeepsTables(cfg, s, t, step.h, s.handlers[step.h]);
    }
  }

  /** Only a DELETE of its name takes a file away. */
  lemma LostByDelete(cfg: Config, s: State, t: State, step: Step, id: nat)
    requires WellFormed(cfg) && M.Schema(s.tables) && Does(cfg, s, t, step)
    ensures id in s.tables.files && id !in t.tables.files ==> Deletes(cfg, s, t, s.tables.files[id].name)
  {
    if id in s.tables.files && id !in t.tables.files {
      if step.Advance? && ChangesTables(s.handlers[step.h]) {
        if s.handlers[step.h].Init? {
          M.RegisterKeepsSchema(s.tables, s.handlers[step.h].reg);
        }
        assert s.handlers[step.h].DelFan?;
      } else {
        QuietKeepsFiles(cfg, s, t, step);
      }
    }
  }

  ghost predicate DeletesAt(cfg: Config, run: seq<State>, k: nat, name: string)
    requires WellFormed(cfg) && k + 1 < |run|
  {
    Deletes(cfg, run[k], run[k + 1], name)
  }

  ghost predicate NoDelete(cfg: Config, run: seq<State>, i: nat, j: nat, name: string)
    requires WellFormed(cfg) && j < |run|
  {
    forall k: nat | i <= k < j :: !DeletesAt(cfg, run, k, name)
  }

  lemma LivesOneStep(cfg: Config, s: State, t: State, name: string, id: nat)
    requires WellFormed(cfg) && M.Schema(s.tables) && Next(cfg, s, t) && TablesGrow(s.tables, t.tables)
             && id < s.tables.nextId
    requires id in s.tables.files ==> s.tables.files[id].name == name
    ensures id in t.tables.files <==> id in s.tables.files && !Deletes(cfg, s, t, name)
  {
    var step :| Does(cfg, s, t, step);
    if id in s.tables.files {
      OwnerIsFound(s.tables, id);
      if id !in t.tables.files { LostByDelete(cfg, s, t, step, id); }
    }
  }

  lemma LivesOneMore(cfg: Config, run: seq<State>, i: nat, j: nat, name: string, id: nat)
    requires WellFormed(cfg) && IsRun(cfg, run) && i <= j && j + 1 < |run| && M.Find(run[i].tables, name) == Some(id)
    ensures id in run[j + 1].tables.files <==> id in run[j].tables.files && !DeletesAt(cfg, run, j, name)
  {
    NameOwner(cfg, run, i, j, name, id);
    RunInv(cfg, run, i);
    RunInv(cfg, run, j);
    RunGrows(cfg, run, i, j);
    RunGrows(cfg, run, j, j + 1);
    assert StepsAt(cfg, run, j);
    LivesOneStep(cfg, run[j], run[j + 1], name, id);
  }

  /** A file found under a name is there until some handler's DELETE of that name, and not after. */
  lemma {:induction false} LivesUntilDeleted(cfg: Config, run: seq<State>, i: nat, j: nat, name: string, id: nat)
    requires WellFormed(cfg) && IsRun(cfg, run) && i <= j < |run| && M.Find(run[i].tables, name) == Some(id)
    ensures id in run[j].tables.files <==> NoDelete(cfg, run, i, j, name)
    decreases j - i
  {
    if i < j {
      LivesUntilDeleted(cfg, run, i, j - 1, name, id);
      LivesOneMore(cfg, run, i, j - 1, name, id);
    }
  }

  // ----- a handler keeps the id it read -----

  ghost predicate Alive(run: seq<State>, h: nat, i: nat, j: nat)
    requires j < |run|
  {
    forall k | i <= k <= j :: h in run[k].handlers
  }

  function DeleteOf(hd: Handler): Option<(string, nat)> {
    if hd.DelFound? || hd.DelFan? then Some((hd.name, hd.id)) else None
  }

  function UploadOf(hd: Handler): Option<nat> {
    if hd.PutFound? || hd.Fan? || hd.Mark? then Some(hd.id) else None
  }

  /** From one step to the next a handler keeps the id it has read, until it has replied; an upload
      has its id from before, or reads it now. */
  predicate KeepsReadId(a: Handler, b: Handler) {
    && (a.Replied? ==> b.Replied?)
    && (DeleteOf(a).Some? ==> b.Replied? || DeleteOf(b) == DeleteOf(a))
    && (UploadOf(a).Some? ==> b.Replied? || UploadOf(b) == UploadOf(a))
  }

  ghost predicate Moves(s: State, a: Handler, b: Handler) {
    KeepsReadId(a, b)
    && (UploadOf(b).Some? ==> UploadOf(a) == UploadOf(b) || (a.Put? && M.Find(s.tables, a.name) == UploadOf(b)))
  }

  lemma LookupMoves(cfg: Config, s: State, t: State, h: nat, hd: Handler)
    requires WellFormed(cfg) && Advances(cfg, s, t, h, hd) && LooksUp(hd)
    ensures h in t.handlers && t.handlers == s.handlers[h := t.handlers[h]] && Moves(s, hd, t.handlers[h])
  {}

  lemma OtherMoves(cfg: Config, s: State, t: State, h: nat, hd: Handler)
    requires WellFormed(cfg) && Advances(cfg, s, t, h, hd) && !LooksUp(hd)
    ensures h in t.handlers && t.handlers == s.handlers[h := t.handlers[h]] && Moves(s, hd, t.handlers[h])
  {}

  lemma AdvanceMoves(cfg: Config, s: State, t: State, h: nat, hd: Handler)
    requires WellFormed(cfg) && Advances(cfg, s, t, h, hd)
    ensures h in t.handlers && t.handlers == s.handlers[h := t.handlers[h]] && Moves(s, hd, t.handlers[h])
  {
    if LooksUp(hd) { LookupMoves(cfg, s, t, h, hd); } else { OtherMoves(cfg, s, t, h, hd); }
  }

  lemma FanMoves(cfg: Config, s: State, t: State, h: nat)
    requires SendsPut(cfg, s, t, h) || HearsReply(s, t, h) || GivesUp(s, t, h)
    ensures h in t.handlers && t.handlers == s.handlers[h := t.handlers[h]] && Moves(s, s.handlers[h], t.handlers[h])
  {}

  lemma SendMoves(cfg: Config, s: State, t: State, h: nat, upTo: nat)
    requires Opens(cfg, s, t, h) || Skips(cfg, s, t, h) || Copies(s, t, h, upTo) || Breaks(s, t, h)
    ensures h in t.handlers && t.handlers == s.handlers[h := t.handlers[h]] && Moves(s, s.handlers[h], t.handlers[h])
  {}

  lemma SelectMoves(s: State, t: State, h: nat, order: seq<int>)
    requires Selects(s, t, h, order)
    ensures h in t.handlers && t.handlers == s.handlers[h := t.handlers[h]] && Moves(s, s.handlers[h], t.handlers[h])
  {}

  lemma DeleteMoves(cfg: Config, s: State, t: State, h: nat, reached: bool)
    requires SendsDelete(cfg, s, t, h, reached)
    ensures h in t.handlers && t.handlers == s.handlers[h := t.handlers[h]] && Moves(s, s.handlers[h], t.handlers[h])
  {}

  lemma StepMoves(cfg: Config, s: State, t: State, step: Step, h: nat)
    requires WellFormed(cfg) && Does(cfg, s, t, step) && h in t.handlers
    ensures if h in s.handlers then Moves(s, s.handlers[h], t.handlers[h]) else IsStart(cfg, t.handlers[h])
  {
    match step
    case Advance(g) => AdvanceMoves(cfg, s, t, g, s.handlers[g]);
    case Ordered(g, order) => SelectMoves(s, t, g, order);
    case FanSend(g) => FanMoves(cfg, s, t, g);
    case FanReply(g) => FanMoves(cfg, s, t, g);
    case FanError(g) => FanMoves(cfg, s, t, g);
    case Open(g) => SendMoves(cfg, s, t, g, 0);
    case Skip(g) => SendMoves(cfg, s, t, g, 0);
    case CopyTo(g, upTo) => SendMoves(cfg, s, t, g, upTo);
    case Break(g) => SendMoves(cfg, s, t, g, 0);
    case DelSend(g, reached) => DeleteMoves(cfg, s, t, g, reached);
    case _ =>
  }

  lemma {:induction false} RunKeepsReadId(cfg: Config, run: seq<State>, i: nat, j: nat, h: nat)
    requires WellFormed(cfg) && IsRun(cfg, run) && i <= j < |run| && Alive(run, h, i, j)
    ensures KeepsReadId(run[i].handlers[h], run[j].handlers[h])
    decreases j - i
  {
    if i < j {
      RunKeepsReadId(cfg, run, i, j - 1, h);
      var step := StepTaken(cfg, run, j - 1);
      StepMoves(cfg, run[j - 1], run[j], step, h);
    }
  }

  // ----- uploads -----

  ghost predicate LookedUp(run: seq<State>, k: nat, i: nat, h: nat, id: nat)
    requires k <= i < |run|
  {
    Alive(run, h, k, i) && run[k].handlers[h].Put? && M.Find(run[k].tables, run[k].handlers[h].name) == Some(id)
  }

  lemma {:induction false} UploadLookedUp(cfg: Config, run: seq<State>, i: nat, h: nat, id: nat) returns (k: nat)
    requires WellFormed(cfg) && IsRun(cfg, run) && i < |run| && h in run[i].handlers
             && UploadOf(run[i].handlers[h]) == Some(id)
    ensures k < i && LookedUp(run, k, i, h, id)
  {
    assert i > 0;
    var step := StepTaken(cfg, run, i - 1);
    StepMoves(cfg, run[i - 1], run[i], step, h);
    if UploadOf(run[i - 1].handlers[h]) == Some(id) {
      k := UploadLookedUp(cfg, run, i - 1, h, id);
    } else {
      k := i - 1;
    }
  }

  /** In every run, whatever step sets a flag is the MarkUploaded of a handler that found this very
      file under the name when it looked it up, holds bytes of this very row, and has at least
      one replica's acknowledgement. */
  lemma FlagSetOnlyByItsUpload(cfg: Config, run: seq<State>, i: nat, step: Step, id: nat, idx: int)
    requires WellFormed(cfg) && IsRun(cfg, run) && i + 1 < |run| && Does(cfg, run[i], run[i + 1], step)
    ensures FlagFlips(run[i].tables, run[i + 1].tables, id, idx) ==>
              && step.Advance? && step.h in run[i].handlers && run[i].handlers[step.h].Mark?
              && run[i].handlers[step.h].spec == M.Rows(run[i].tables, id)[idx].spec
              && Matches(cfg, run[i].handlers[step.h].spec, run[i].handlers[step.h].body)
              && run[i].handlers[step.h].acks != []
              && exists k :: 0 <= k < i && LookedUp(run, k, i, step.h, id)
  {
    if FlagFlips(run[i].tables, run[i + 1].tables, id, idx) {
      var s, t := run[i], run[i + 1];
      RunInv(cfg, run, i);
      OnlyAdvanceWritesTables(cfg, s, t, step);
      var hd := s.handlers[step.h];
      assert HandlerInv(cfg, s, hd);
      FlagSetByMark(cfg, s, t, step.h, hd, id, idx);
      MarkTables(cfg, s.tables, s.origin, hd.id, hd.spec);
      var k := UploadLookedUp(cfg, run, i, step.h, id);
    }
  }

  ghost predicate FlipsOnly(t: M.Tables, u: M.Tables, id: nat) {
    forall f, idx | FlagFlips(t, u, f, idx) :: f == id
  }

  lemma UploadFlipsOnly(cfg: Config, s: State, t: State, h: nat, hd: Handler, id: nat)
    requires WellFormed(cfg) && M.Schema(s.tables) && Advances(cfg, s, t, h, hd) && UploadOf(hd) == Some(id)
    ensures FlipsOnly(s.tables, t.tables, id)
  {
    forall f, idx | FlagFlips(s.tables, t.tables, f, idx) ensures f == id {
      FlagSetByMark(cfg, s, t, h, hd, f, idx);
    }
  }

  /** The other direction: an upload that found file `id`, however late it acts, sets flags of `id`
      only; if `id` has been deleted since, it writes nothing, whoever owns the name by then. */
  lemma StaleUploadMarksNothing(cfg: Config, run: seq<State>, i: nat, j: nat, h: nat, id: nat)
    requires WellFormed(cfg) && IsRun(cfg, run) && i <= j && j + 1 < |run|
    requires Alive(run, h, i, j) && UploadOf(run[i].handlers[h]) == Some(id)
             && Advances(cfg, run[j], run[j + 1], h, run[j].handlers[h])
    ensures FlipsOnly(run[j].tables, run[j + 1].tables, id)
    ensures id !in run[j].tables.files ==> run[j + 1].tables == run[j].tables
  {
    RunKeepsReadId(cfg, run, i, j, h);
    RunInv(cfg, run, j);
    var hd := run[j].handlers[h];
    assert UploadOf(hd) == Some(id);
    UploadFlipsOnly(cfg, run[j], run[j + 1], h, hd, id);
    if !hd.Mark? {
      QuietAdvanceKeepsTables(cfg, run[j], run[j + 1], h, hd);
    }
  }

  // ----- deletes -----

  ghost function Removed(s: State, t: State): set<nat> {
    s.tables.files.Keys - t.tables.files.Keys
  }

  predicate OldOrNew(files: set<nat>, id: nat, next: nat) {
    forall f <- files :: f == id || f >= next
  }

  lemma RemovedByName(cfg: Config, s: State, t: State, h: nat, name: string)
    requires WellFormed(cfg) && h in s.handlers && s.handlers[h].DelFan? && s.handlers[h].name == name
    requires Advances(cfg, s, t, h, s.handlers[h])
    ensures Removed(s, t) == if M.Find(s.tables, name).None? then {} else {M.Find(s.tables, name).value}
  {}

  /** A delete handler that found file `id` at i, at its last step: it removes exactly that file if
      and only if no DELETE of the name has run in between; otherwise it removes nothing, or a
      file created after it looked. */
  lemma StaleDelete(cfg: Config, run: seq<State>, i: nat, j: nat, h: nat, name: string, id: nat)
    requires WellFormed(cfg) && IsRun(cfg, run) && i < j && j + 1 < |run|
    requires h in run[i].handlers && run[i].handlers[h] == Del(name) && M.Find(run[i].tables, name) == Some(id)
    requires Alive(run, h, i, j) && run[i + 1].handlers[h] == DelFound(name, id)
    requires run[j].handlers[h].DelFan? && Advances(cfg, run[j], run[j + 1], h, run[j].handlers[h])
    ensures Removed(run[j], run[j + 1]) == {id} <==> NoDelete(cfg, run, i, j, name)
    ensures !NoDelete(cfg, run, i, j, name) ==>
              Removed(run[j], run[j + 1]) ==
              if M.Find(run[j].tables, name).None? then {} else {M.Find(run[j].tables, name).value}
    ensures OldOrNew(Removed(run[j], run[j + 1]), id, run[i].tables.nextId)
  {
    RunKeepsReadId(cfg, run, i + 1, j, h);
    RemovedByName(cfg, run[j], run[j + 1], h, name);
    LivesUntilDeleted(cfg, run, i, j, name, id);
    NameOwner(cfg, run, i, j, name, id);
  }
}
