/** The coordinator's two SQLite tables: what each statement does to them (functions on
    `Tables`), the schema invariant every statement keeps, and the `Store` object whose
    methods issue those statements. */
module Metastore {
  import opened Basics

  type Hash = string
  type Name = string
  type Node = string

  datatype FileRow = FileRow(name: Name, size: int, sha: Hash, blockSize: int, complete: bool)
  /** The columns of a block row that no statement ever updates. */
  datatype BlockSpec = BlockSpec(idx: int, sha: Hash, size: int, nodes: seq<Node>)
  datatype BlockRow = BlockRow(spec: BlockSpec, uploaded: bool)
  /** `files` is keyed by its primary key; `blocks` is grouped by file_id and keyed by idx,
      the two columns of its primary key. */
  datatype Tables = Tables(nextId: nat, files: map<nat, FileRow>, blocks: map<nat, map<int, BlockRow>>)
  datatype Registration = Registration(name: Name, size: int, sha: Hash, blockSize: int, specs: seq<BlockSpec>)
  datatype Error = NotFound | Conflict | ConstraintFailed | Pending(count: nat)
  datatype Result<+T> = Ok(value: T) | Err(error: Error)

  // ----- statements -----

  /** SELECT ... WHERE name = ? */
  ghost function Find(t: Tables, name: Name): (r: Option<nat>)
    ensures r.Some? ==> r.value in t.files && t.files[r.value].name == name
    ensures r.None? ==> forall id | id in t.files :: t.files[id].name != name
  {
    if exists id :: id in t.files && t.files[id].name == name then
      var id :| id in t.files && t.files[id].name == name; Some(id)
    else None
  }

  function NewRow(reg: Registration): FileRow {
    FileRow(reg.name, reg.size, reg.sha, reg.blockSize, false)
  }

  /** The block rows of a new file. */
  function NewBlocks(specs: seq<BlockSpec>): map<int, BlockRow> {
    if specs == [] then map[]
    else NewBlocks(specs[..|specs| - 1])[specs[|specs| - 1].idx := BlockRow(specs[|specs| - 1], false)]
  }

  ghost predicate DistinctIdx(specs: seq<BlockSpec>) {
    forall i, j | 0 <= i < j < |specs| :: specs[i].idx != specs[j].idx
  }

  /** The whole transaction of CreateOrResume. */
  ghost function Register(t: Tables, reg: Registration): (Tables, Option<Error>) {
    match Find(t, reg.name)
    case Some(id) =>
      (t, if t.files[id].sha != reg.sha || t.files[id].size != reg.size then Some(Conflict) else None)
    case None =>
      if !DistinctIdx(reg.specs) then (t, Some(ConstraintFailed))
      else (Tables(t.nextId + 1, t.files[t.nextId := NewRow(reg)], t.blocks[t.nextId := NewBlocks(reg.specs)]), None)
  }

  function Rows(t: Tables, id: nat): map<int, BlockRow> {
    if id in t.blocks then t.blocks[id] else map[]
  }

  function Marked(rows: map<int, BlockRow>, idx: int): map<int, BlockRow>
    requires idx in rows
  {
    rows[idx := rows[idx].(uploaded := true)]
  }

  function MarkRow(t: Tables, id: nat, idx: int): Tables {
    if idx in Rows(t, id) then t.(blocks := t.blocks[id := Marked(t.blocks[id], idx)]) else t
  }

  function Unuploaded(rows: map<int, BlockRow>): set<int> {
    set i | i in rows && !rows[i].uploaded
  }

  function PendingSet(t: Tables, id: nat): set<int> {
    Unuploaded(Rows(t, id))
  }

  function SetComplete(t: Tables, id: nat): Tables {
    if id in t.files then t.(files := t.files[id := t.files[id].(complete := true)]) else t
  }

  /** DELETE FROM files with its cascade to the blocks of the deleted row. */
  ghost function DeleteFile(t: Tables, name: Name): Tables {
    match Find(t, name)
    case None => t
    case Some(id) => t.(files := t.files - {id}, blocks := t.blocks - {id})
  }

  // ----- ORDER BY idx -----

  ghost predicate Ascending(q: seq<int>) {
    forall i, j | 0 <= i < j < |q| :: q[i] < q[j]
  }

  /** `q` is the sorted list of the elements of `s`. */
  ghost predicate Lists(q: seq<int>, s: set<int>) {
    Ascending(q) && forall x :: x in q <==> x in s
  }

  lemma {:induction false} ListsUnique(p: seq<int>, q: seq<int>, s: set<int>)
    requires Lists(p, s) && Lists(q, s)
    ensures p == q
  {
    if p == [] {
      assert forall x :: x in q <==> x in p;
      assert forall i | 0 <= i < |q| :: q[i] in p;
    } else {
      assert p[0] in p;
      assert p[0] in q;
      assert q[0] in q;
      assert q[0] in p;
      assert p[0] == q[0];
      var rest := s - {p[0]};
      assert Lists(p[1..], rest) by { TailLists(p, s); }
      assert Lists(q[1..], rest) by { TailLists(q, s); }
      ListsUnique(p[1..], q[1..], rest);
      assert p == [p[0]] + p[1..] && q == [q[0]] + q[1..];
    }
  }

  lemma TailLists(p: seq<int>, s: set<int>)
    requires Lists(p, s) && p != []
    ensures Lists(p[1..], s - {p[0]})
  {
    forall x ensures x in p[1..] <==> x in s - {p[0]} {
      if x in s - {p[0]} {
        assert x in p;
        var i :| 0 <= i < |p| && p[i] == x;
        assert p[1..][i - 1] == x;
      }
    }
  }

  lemma NonEmpty(s: set<int>)
    ensures s == {} || exists x :: x in s
  {
    if forall x :: x !in s { assert s == {}; }
  }

  function Insert(x: int, q: seq<int>): seq<int> {
    if q == [] || x < q[0] then [x] + q else [q[0]] + Insert(x, q[1..])
  }

  lemma {:induction false} InsertLists(x: int, q: seq<int>, s: set<int>)
    requires Lists(q, s) && x !in s
    ensures Lists(Insert(x, q), s + {x})
  {
    if q != [] && !(x < q[0]) {
      assert q[0] in s;
      TailLists(q, s);
      InsertLists(x, q[1..], s - {q[0]});
      var r := Insert(x, q[1..]);
      forall i | 0 <= i < |r| ensures q[0] < r[i] {
        assert r[i] in r;
        if r[i] != x { assert r[i] in q[1..]; }
      }
      forall y ensures y in [q[0]] + r <==> y in s + {x} {}
    } else {
      forall i | 0 <= i < |q| ensures x < q[i] { if i > 0 { assert q[0] < q[i]; } }
    }
  }

  // ----- schema invariant -----

  /** Primary keys, UNIQUE name, AUTOINCREMENT, the foreign key, and "complete means every
      block uploaded". */
  ghost predicate Schema(t: Tables) {
    && (forall a, b | a in t.files && b in t.files && t.files[a].name == t.files[b].name :: a == b)
    && (forall id | id in t.files :: id < t.nextId)
    && t.blocks.Keys == t.files.Keys
    && (forall id | id in t.files :: KeyedByIdx(t.blocks[id]))
    && (forall id | id in t.files && t.files[id].complete :: AllUploaded(t.blocks[id]))
  }

  ghost predicate AllUploaded(rows: map<int, BlockRow>) {
    forall i | i in rows :: rows[i].uploaded
  }

  ghost predicate KeyedByIdx(rows: map<int, BlockRow>) {
    forall i | i in rows :: rows[i].spec.idx == i
  }

  lemma {:induction false} NewBlocksAt(specs: seq<BlockSpec>)
    requires DistinctIdx(specs)
    ensures forall k | k in NewBlocks(specs) :: exists i :: 0 <= i < |specs| && k == specs[i].idx
    ensures forall i | 0 <= i < |specs| ::
              specs[i].idx in NewBlocks(specs) && NewBlocks(specs)[specs[i].idx] == BlockRow(specs[i], false)
  {
    if specs != [] {
      var init := specs[..|specs| - 1];
      NewBlocksAt(init);
      forall i | 0 <= i < |specs|
        ensures specs[i].idx in NewBlocks(specs) && NewBlocks(specs)[specs[i].idx] == BlockRow(specs[i], false)
      {
        if i < |init| { assert init[i] == specs[i]; }
      }
      forall k | k in NewBlocks(specs) ensures exists i :: 0 <= i < |specs| && k == specs[i].idx {
        if k in NewBlocks(init) {
          var i :| 0 <= i < |init| && k == init[i].idx;
          assert specs[i] == init[i];
        } else {
          assert k == specs[|specs| - 1].idx;
        }
      }
    }
  }

  /** A registration is refused exactly for other content under its name, and fails on a free name
      exactly for a duplicate index. Otherwise the name stands for its content. */
  lemma RegisterConflicts(t: Tables, reg: Registration)
    requires Schema(t)
    ensures Register(t, reg).1 == Some(Conflict) <==>
            exists id :: id in t.files && t.files[id].name == reg.name
                         && (t.files[id].sha != reg.sha || t.files[id].size != reg.size)
    ensures Register(t, reg).1 == Some(ConstraintFailed) <==>
            (forall id | id in t.files :: t.files[id].name != reg.name) && !DistinctIdx(reg.specs)
    ensures Register(t, reg).1 in {None, Some(Conflict), Some(ConstraintFailed)}
    ensures Register(t, reg).1.None? ==>
              var u := Register(t, reg).0;
              exists id :: id in u.files && u.files[id].name == reg.name && u.files[id].sha == reg.sha
                           && u.files[id].size == reg.size && id in u.blocks
                           && (id in t.files ||
                               u.files[id] == FileRow(reg.name, reg.size, reg.sha, reg.blockSize, false))
  {
    RegisterKeepsSchema(t, reg);
    var u := Register(t, reg).0;
    if Register(t, reg).1.None? && Find(t, reg.name).None? {
      assert u.files[t.nextId].name == reg.name;
    }
  }

  /** Registration is all-or-nothing: an error or a resume changes no table, and a creation
      adds one file row, with all its block rows, under an id no row has ever had. */
  lemma RegisterKeepsSchema(t: Tables, reg: Registration)
    requires Schema(t)
    ensures Schema(Register(t, reg).0)
    ensures Register(t, reg).1.Some? || Find(t, reg.name).Some? ==> Register(t, reg).0 == t
    ensures Find(t, reg.name).None? && Register(t, reg).1.None? ==> Created(t, reg, Register(t, reg).0)
  {
    if Find(t, reg.name).None? && DistinctIdx(reg.specs) {
      NewBlocksAt(reg.specs);
      NewBlocksSize(reg.specs);
      assert KeyedByIdx(NewBlocks(reg.specs));
    }
  }

  ghost predicate Created(t: Tables, reg: Registration, u: Tables) {
    && t.nextId !in t.files && t.nextId !in t.blocks
    && t.nextId in u.blocks && RowsOf(u.blocks[t.nextId], reg.specs)
    && u == Tables(t.nextId + 1, t.files[t.nextId := NewRow(reg)], t.blocks[t.nextId := u.blocks[t.nextId]])
  }

  /** `rows` holds one not yet uploaded row for each element of `specs`, and nothing else. */
  ghost predicate RowsOf(rows: map<int, BlockRow>, specs: seq<BlockSpec>) {
    && |rows| == |specs|
    && (forall i | 0 <= i < |specs| :: specs[i].idx in rows && rows[specs[i].idx] == BlockRow(specs[i], false))
    && (forall k | k in rows :: exists i :: 0 <= i < |specs| && specs[i].idx == k)
  }

  lemma {:induction false} NewBlocksSize(specs: seq<BlockSpec>)
    requires DistinctIdx(specs)
    ensures |NewBlocks(specs)| == |specs|
  {
    if specs != [] {
      var init := specs[..|specs| - 1];
      NewBlocksSize(init);
      NewBlocksAt(init);
      assert specs[|specs| - 1].idx !in NewBlocks(init);
    }
  }

  lemma MarkedRows(rows: map<int, BlockRow>, idx: int)
    requires idx in rows && KeyedByIdx(rows)
    ensures KeyedByIdx(Marked(rows, idx)) && Unuploaded(Marked(rows, idx)) == Unuploaded(rows) - {idx}
    ensures AllUploaded(rows) ==> AllUploaded(Marked(rows, idx))
  {}

  lemma MarkKeepsSchema(t: Tables, id: nat, idx: int)
    requires Schema(t)
    ensures Schema(MarkRow(t, id, idx))
    ensures PendingSet(MarkRow(t, id, idx), id) == PendingSet(t, id) - {idx}
    ensures forall other | other != id :: Rows(MarkRow(t, id, idx), other) == Rows(t, other)
  {
    if idx in Rows(t, id) {
      MarkedRows(t.blocks[id], idx);
    } else {
      assert idx !in PendingSet(t, id);
    }
  }

  /** The update statement alone is only sound where the count before it found nothing pending. */
  lemma CompleteKeepsSchema(t: Tables, id: nat)
    requires Schema(t)
    ensures Schema(SetComplete(t, id)) <==> PendingSet(t, id) == {}
  {
    var u := SetComplete(t, id);
    if id in t.files && Schema(u) {
      assert id in u.files && u.files[id].complete;
      assert AllUploaded(u.blocks[id]);
      assert forall i :: i !in PendingSet(t, id);
    }
    if id in t.files && PendingSet(t, id) == {} {
      assert forall i | i in Rows(t, id) :: i !in PendingSet(t, id);
    }
  }

  lemma DeleteKeepsSchema(t: Tables, name: Name)
    requires Schema(t)
    ensures Schema(DeleteFile(t, name))
    ensures Find(DeleteFile(t, name), name).None?
    ensures Find(t, name).Some? ==> Rows(DeleteFile(t, name), Find(t, name).value) == map[]
    ensures forall id | id in t.files && t.files[id].name != name ::
              && id in DeleteFile(t, name).files && DeleteFile(t, name).files[id] == t.files[id]
              && Rows(DeleteFile(t, name), id) == Rows(t, id)
  {
  }

  /** Delete is the inverse of a creating Register, except that the id is spent for ever. */
  lemma DeleteUndoesRegister(t: Tables, reg: Registration)
    requires Schema(t) && Find(t, reg.name).None? && DistinctIdx(reg.specs)
    ensures DeleteFile(Register(t, reg).0, reg.name) == t.(nextId := t.nextId + 1)
  {
    RegisterKeepsSchema(t, reg);
    DeleteUndoesCreated(t, reg, Register(t, reg).0);
  }

  lemma DeleteUndoesCreated(t: Tables, reg: Registration, u: Tables)
    requires Schema(u) && Created(t, reg, u)
    ensures Find(u, reg.name) == Some(t.nextId)
    ensures DeleteFile(u, reg.name) == t.(nextId := t.nextId + 1)
  {
    assert u.files[t.nextId].name == reg.name;
    assert u.files - {t.nextId} == t.files;
    assert u.blocks - {t.nextId} == t.blocks;
  }

  // ----- the object -----

  class Store {
    var nextId: nat
    var files: map<nat, FileRow>
    var blocks: map<nat, map<int, BlockRow>>

    ghost function View(): Tables
      reads this
    {
      Tables(nextId, files, blocks)
    }

    ghost predicate Valid()
      reads this
    {
      Schema(View())
    }

    constructor ()
      ensures Valid() && View() == Tables(1, map[], map[])
    {
      nextId, files, blocks := 1, map[], map[];
    }

    method GetFile(name: Name) returns (r: Result<(nat, FileRow)>)
      requires Valid()
      ensures match Find(View(), name)
              case Some(id) => r == Ok((id, files[id]))
              case None => r == Err(NotFound)
    {
      if id :| id in files && files[id].name == name {
        r := Ok((id, files[id]));
      } else {
        r := Err(NotFound);
      }
    }

    method CreateOrResume(reg: Registration) returns (r: Result<(nat, FileRow)>)
      requires Valid()
      modifies this
      ensures Valid() && View() == Register(old(View()), reg).0
      ensures r == Err(Conflict) <==>
              exists id :: id in old(files) && old(files)[id].name == reg.name
                           && (old(files)[id].sha != reg.sha || old(files)[id].size != reg.size)
      ensures r == Err(ConstraintFailed) <==>
              (forall id | id in old(files) :: old(files)[id].name != reg.name)
              && exists i, j :: 0 <= i < j < |reg.specs| && reg.specs[i].idx == reg.specs[j].idx
      ensures r.Ok? ==>
                var (id, row) := r.value;
                && id in files && files[id] == row
                && row.name == reg.name && row.sha == reg.sha && row.size == reg.size
                && (id in old(files) || (id == old(nextId) && row.blockSize == reg.blockSize && !row.complete))
      ensures match Register(old(View()), reg).1
              case Some(e) => r == Err(e)
              case None =>
                Find(View(), reg.name).Some?
                && r == Ok((Find(View(), reg.name).value, files[Find(View(), reg.name).value]))
    {
      RegisterKeepsSchema(View(), reg);
      RegisterConflicts(View(), reg);
      var existing := GetFile(reg.name);
      if existing.Ok? {
        if existing.value.1.sha != reg.sha || existing.value.1.size != reg.size {
          return Err(Conflict);
        }
      } else {
        var created := Create(reg);
        if !created {
          return Err(ConstraintFailed);
        }
      }
      r := GetFile(reg.name);
    }

    /** The inserts of the transaction. `tx` is its uncommitted state; returning early rolls it back. */
    method Create(reg: Registration) returns (created: bool)
      requires Valid() && Find(View(), reg.name).None?
      modifies this
      ensures Valid() && View() == Register(old(View()), reg).0
      ensures created <==> DistinctIdx(reg.specs)
      ensures created ==> Find(View(), reg.name) == Some(old(nextId)) && old(nextId) !in old(files)
                          && files[old(nextId)] == FileRow(reg.name, reg.size, reg.sha, reg.blockSize, false)
    {
      RegisterKeepsSchema(View(), reg);
      var tx, inserted := InsertBlocks(reg.specs);
      if !inserted {
        return false;
      }
      nextId, files, blocks := nextId + 1, files[nextId := NewRow(reg)], blocks[nextId := tx];
      assert files[old(nextId)].name == reg.name;
      created := true;
    }

    /** The INSERT INTO blocks loop; it stops at the first primary key violation. */
    static method InsertBlocks(specs: seq<BlockSpec>) returns (tx: map<int, BlockRow>, inserted: bool)
      ensures inserted <==> DistinctIdx(specs)
      ensures inserted ==> tx == NewBlocks(specs)
    {
      tx := map[];
      var i := 0;
      while i < |specs|
        invariant i <= |specs|
        invariant DistinctIdx(specs[..i])
        invariant tx == NewBlocks(specs[..i])
      {
        var b := specs[i];
        NewBlocksAt(specs[..i]);
        assert specs[..i + 1][..i] == specs[..i];
        if b.idx in tx {
          var j :| 0 <= j < i && b.idx == specs[..i][j].idx;
          assert specs[j].idx == specs[i].idx;
          return tx, false;
        }
        forall j | 0 <= j < i ensures specs[j].idx != b.idx {
          assert specs[..i][j].idx in tx;
        }
        tx := tx[b.idx := BlockRow(b, false)];
        i := i + 1;
      }
      assert specs[..i] == specs;
      inserted := true;
    }

    method MissingBlocks(id: nat) returns (out: seq<int>)
      ensures Lists(out, PendingSet(View(), id))
      ensures forall x :: x in out <==> id in blocks && x in blocks[id] && !blocks[id][x].uploaded
    {
      out := Sorted(PendingSet(Tables(nextId, files, blocks), id));
    }

    static method Sorted(s: set<int>) returns (out: seq<int>)
      ensures Lists(out, s)
    {
      out := [];
      if s != {} {
        NonEmpty(s);
        var x :| x in s;
        out := Sorted(s - {x});
        InsertLists(x, out, s - {x});
        assert s - {x} + {x} == s;
        out := Insert(x, out);
      }
    }

    method GetBlock(id: nat, idx: int) returns (r: Result<BlockRow>)
      ensures r == if idx in Rows(View(), id) then Ok(Rows(View(), id)[idx]) else Err(NotFound)
    {
      r := if id in blocks && idx in blocks[id] then Ok(blocks[id][idx]) else Err(NotFound);
    }

    method ListBlocks(id: nat) returns (out: seq<BlockRow>)
      requires Valid()
      ensures Lists(seq(|out|, i requires 0 <= i < |out| => out[i].spec.idx), Rows(View(), id).Keys)
      ensures forall b | b in out :: b.spec.idx in Rows(View(), id) && b == Rows(View(), id)[b.spec.idx]
    {
      var rows := Rows(Tables(nextId, files, blocks), id);
      var order := Sorted(rows.Keys);
      out := [];
      while |out| < |order|
        invariant |out| <= |order|
        invariant forall i | 0 <= i < |out| :: order[i] in rows && out[i] == rows[order[i]]
      {
        assert order[|out|] in order;
        out := out + [rows[order[|out|]]];
      }
      assert |out| == |order|;
      forall i | 0 <= i < |out| ensures out[i].spec.idx == order[i] {}
      assert seq(|out|, i requires 0 <= i < |out| => out[i].spec.idx) == order;
    }

    method MarkUploaded(id: nat, idx: int) returns (r: Result<()>)
      requires Valid()
      modifies this`blocks
      ensures Valid() && View() == MarkRow(old(View()), id, idx)
      ensures r == if idx in Rows(old(View()), id) then Ok(()) else Err(NotFound)
    {
      MarkKeepsSchema(View(), id, idx);
      if id !in blocks || idx !in blocks[id] {
        return Err(NotFound);
      }
      blocks := blocks[id := Marked(blocks[id], idx)];
      r := Ok(());
    }

    method MarkComplete(id: nat) returns (r: Result<()>)
      requires Valid()
      modifies this`files
      ensures Valid()
      ensures View() == if PendingSet(old(View()), id) == {} then SetComplete(old(View()), id) else old(View())
      ensures r.Ok? <==> PendingSet(old(View()), id) == {}
      ensures r.Err? ==> r.error == Error.Pending(|PendingSet(old(View()), id)|)
    {
      var pending := |PendingSet(Tables(nextId, files, blocks), id)|;
      if pending > 0 {
        return Err(Error.Pending(pending));
      }
      CompleteKeepsSchema(View(), id);
      if id in files {
        files := files[id := files[id].(complete := true)];
      }
      r := Ok(());
    }

    method Delete(name: Name) returns (r: Result<()>)
      requires Valid()
      modifies this`files, this`blocks
      ensures Valid() && View() == DeleteFile(old(View()), name)
      ensures r == if Find(old(View()), name).Some? then Ok(()) else Err(NotFound)
    {
      DeleteKeepsSchema(View(), name);
      if id :| id in files && files[id].name == name {
        files, blocks := files - {id}, blocks - {id};
        r := Ok(());
      } else {
        r := Err(NotFound);
      }
    }
  }
}
