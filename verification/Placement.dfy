/** Rendezvous placement (pickNodes) and its stability when the node list changes. */
module Placement {
  import opened Basics

  type Node = string

  // ----- sorting by score -----

  function Insert<T>(key: T -> nat, x: T, q: seq<T>): seq<T> {
    if q == [] || key(x) <= key(q[0]) then [x] + q else [q[0]] + Insert(key, x, q[1..])
  }

  /** The stable sort: equal keys keep their order. */
  function Rank<T>(key: T -> nat, s: seq<T>): seq<T> {
    if s == [] then [] else Insert(key, s[0], Rank(key, s[1..]))
  }

  ghost predicate Sorted<T>(key: T -> nat, s: seq<T>) {
    forall i, j | 0 <= i < j < |s| :: key(s[i]) <= key(s[j])
  }

  /** All that sort.Slice promises: sorted, and a permutation. */
  ghost predicate IsRanking<T>(key: T -> nat, s: seq<T>, out: seq<T>) {
    Sorted(key, out) && multiset(out) == multiset(s)
  }

  function HasKey<T>(key: T -> nat, v: nat): T -> bool {
    x => key(x) == v
  }

  ghost function WithKey<T>(key: T -> nat, v: nat, s: seq<T>): seq<T> {
    Filter(HasKey(key, v), s)
  }

  /** What a stable sort promises: sorted, and for every key the elements with that key in
      their old order. */
  ghost predicate IsStableSort<T>(key: T -> nat, s: seq<T>, out: seq<T>) {
    Sorted(key, out) && forall v: nat :: WithKey(key, v, out) == WithKey(key, v, s)
  }

  lemma {:induction false} InsertElements<T>(key: T -> nat, x: T, q: seq<T>)
    ensures multiset(Insert(key, x, q)) == multiset{x} + multiset(q)
  {
    if q != [] && key(x) > key(q[0]) {
      InsertElements(key, x, q[1..]);
      assert q == [q[0]] + q[1..];
    }
  }

  ghost predicate AtLeast<T>(key: T -> nat, v: nat, s: seq<T>) {
    forall i | 0 <= i < |s| :: v <= key(s[i])
  }

  lemma {:induction false} InsertSorted<T>(key: T -> nat, x: T, q: seq<T>, v: nat)
    requires Sorted(key, q) && AtLeast(key, v, q) && v <= key(x)
    ensures Sorted(key, Insert(key, x, q)) && AtLeast(key, v, Insert(key, x, q))
  {
    if q != [] && key(x) > key(q[0]) {
      InsertSorted(key, x, q[1..], key(q[0]));
    }
  }

  lemma {:induction false} FilterAtLeast<T>(key: T -> nat, v: nat, p: T -> bool, s: seq<T>)
    requires AtLeast(key, v, s)
    ensures AtLeast(key, v, Filter(p, s))
  {
    if s != [] { FilterAtLeast(key, v, p, s[1..]); }
  }

  lemma {:induction false} RankIsRanking<T>(key: T -> nat, s: seq<T>)
    ensures IsRanking(key, s, Rank(key, s))
  {
    if s != [] {
      RankIsRanking(key, s[1..]);
      InsertSorted(key, s[0], Rank(key, s[1..]), 0);
      InsertElements(key, s[0], Rank(key, s[1..]));
      assert s == [s[0]] + s[1..];
    }
  }

  lemma {:induction false} FilterInsert<T>(key: T -> nat, p: T -> bool, x: T, q: seq<T>)
    requires Sorted(key, q)
    ensures Filter(p, Insert(key, x, q)) == if p(x) then Insert(key, x, Filter(p, q)) else Filter(p, q)
  {
    if q == [] || key(x) <= key(q[0]) {
      assert ([x] + q)[1..] == q;
      if q != [] { FilterAtLeast(key, key(q[0]), p, q); }
    } else {
      FilterInsert(key, p, x, q[1..]);
      assert ([q[0]] + Insert(key, x, q[1..]))[1..] == Insert(key, x, q[1..]);
      assert p(q[0]) ==> ([q[0]] + Filter(p, q[1..]))[1..] == Filter(p, q[1..]);
    }
  }

  /** Ranking commutes with dropping nodes, ties and duplicates included. */
  lemma {:induction false} RankFilter<T>(key: T -> nat, p: T -> bool, s: seq<T>)
    ensures Rank(key, Filter(p, s)) == Filter(p, Rank(key, s))
  {
    if s != [] {
      var rest := s[1..];
      RankFilter(key, p, rest);
      RankIsRanking(key, rest);
      FilterInsert(key, p, s[0], Rank(key, rest));
      assert ([s[0]] + Filter(p, rest))[1..] == Filter(p, rest);
    }
  }

  lemma {:induction false} RankOfEqualKeys<T>(key: T -> nat, v: nat, s: seq<T>)
    ensures Rank(key, WithKey(key, v, s)) == WithKey(key, v, s)
    ensures forall i | 0 <= i < |WithKey(key, v, s)| :: key(WithKey(key, v, s)[i]) == v
  {
    if s != [] {
      RankOfEqualKeys(key, v, s[1..]);
      var w := WithKey(key, v, s[1..]);
      assert ([s[0]] + w)[1..] == w;
    }
  }

  lemma RankIsStable<T>(key: T -> nat, s: seq<T>)
    ensures IsStableSort(key, s, Rank(key, s))
  {
    RankIsRanking(key, s);
    forall v: nat ensures WithKey(key, v, Rank(key, s)) == WithKey(key, v, s) {
      RankFilter(key, HasKey(key, v), s);
      RankOfEqualKeys(key, v, s);
    }
  }

  lemma {:induction false} StableUnique<T>(key: T -> nat, a: seq<T>, b: seq<T>)
    requires Sorted(key, a) && Sorted(key, b)
    requires forall v: nat :: WithKey(key, v, a) == WithKey(key, v, b)
    ensures a == b
  {
    if a != [] { NonEmptyToo(key, a, b); }
    if b != [] { NonEmptyToo(key, b, a); }
    if a != [] {
      HeadKey(key, a, b);
      HeadKey(key, b, a);
      assert WithKey(key, key(a[0]), a)[0] == a[0] && WithKey(key, key(a[0]), b)[0] == b[0];
      forall v: nat ensures WithKey(key, v, a[1..]) == WithKey(key, v, b[1..]) {
        assert WithKey(key, v, a) == WithKey(key, v, b);
        if key(a[0]) == v {
          assert WithKey(key, v, a)[1..] == WithKey(key, v, a[1..]);
          assert WithKey(key, v, b)[1..] == WithKey(key, v, b[1..]);
        }
      }
      StableUnique(key, a[1..], b[1..]);
    }
  }

  lemma NonEmptyToo<T>(key: T -> nat, a: seq<T>, b: seq<T>)
    requires a != [] && WithKey(key, key(a[0]), a) == WithKey(key, key(a[0]), b)
    ensures b != []
  {
    assert WithKey(key, key(a[0]), a)[0] == a[0];
  }

  lemma HeadKey<T>(key: T -> nat, a: seq<T>, b: seq<T>)
    requires Sorted(key, b) && a != [] && b != [] && WithKey(key, key(a[0]), a) == WithKey(key, key(a[0]), b)
    ensures key(b[0]) <= key(a[0])
  {
    FilterElements(HasKey(key, key(a[0])), b);
    assert WithKey(key, key(a[0]), a)[0] == a[0];
    assert a[0] in WithKey(key, key(a[0]), b);
    assert a[0] in b;
  }

  /** Any stable sort, the TypeScript one in particular, computes exactly Rank. */
  lemma StableSortIsRank<T>(key: T -> nat, s: seq<T>, out: seq<T>)
    ensures IsStableSort(key, s, out) <==> out == Rank(key, s)
  {
    RankIsStable(key, s);
    if IsStableSort(key, s, out) {
      forall v: nat ensures WithKey(key, v, out) == WithKey(key, v, Rank(key, s)) {
        assert WithKey(key, v, out) == WithKey(key, v, s);
      }
      StableUnique(key, out, Rank(key, s));
    }
  }

  // ----- what Go's unstable sort leaves open -----

  ghost predicate NoTies<T>(key: T -> nat, s: seq<T>) {
    forall i, j | 0 <= i < |s| && 0 <= j < |s| && key(s[i]) == key(s[j]) :: s[i] == s[j]
  }

  lemma TailMultiset<T>(a: seq<T>)
    requires a != []
    ensures multiset(a[1..]) == multiset(a) - multiset{a[0]}
    ensures forall x :: x in a <==> x in multiset(a)
  {
    assert a == [a[0]] + a[1..];
  }

  lemma {:induction false} RankingsAgree<T>(key: T -> nat, a: seq<T>, b: seq<T>)
    requires Sorted(key, a) && Sorted(key, b) && multiset(a) == multiset(b) && NoTies(key, a)
    ensures a == b
  {
    SameLength(a, b);
    if a != [] {
      TailMultiset(a);
      TailMultiset(b);
      assert a[0] in b && b[0] in a;
      assert a[0] == b[0];
      RankingsAgree(key, a[1..], b[1..]);
    }
  }

  lemma SameLength<T>(a: seq<T>, b: seq<T>)
    requires multiset(a) == multiset(b)
    ensures |a| == |b|
    ensures forall x :: x in a <==> x in b
  {
    assert |multiset(a)| == |a| && |multiset(b)| == |b|;
    forall x ensures x in a <==> x in b {
      assert x in a <==> x in multiset(a);
      assert x in b <==> x in multiset(b);
    }
  }

  /** Go's ranking is determined by the node list exactly when different nodes have different
      scores; a single tie leaves at least two legal outcomes. */
  lemma RankingDetermined<T>(key: T -> nat, s: seq<T>)
    ensures NoTies(key, s) <==> forall out :: IsRanking(key, s, out) ==> out == Rank(key, s)
  {
    var r := Rank(key, s);
    RankIsRanking(key, s);
    SameLength(r, s);
    if NoTies(key, s) {
      TiesPermute(key, s, r);
      forall out | IsRanking(key, s, out) ensures out == r {
        RankingsAgree(key, r, out);
      }
    } else {
      var k, l :| 0 <= k < |s| && 0 <= l < |s| && key(s[k]) == key(s[l]) && s[k] != s[l];
      assert s[k] in r && s[l] in r;
      var i :| 0 <= i < |r| && r[i] == s[k];
      var j :| 0 <= j < |r| && r[j] == s[l];
      var out := SwapTie(key, s, r, i, j);
    }
  }

  lemma TiesPermute<T>(key: T -> nat, s: seq<T>, r: seq<T>)
    requires NoTies(key, s) && forall x :: x in r <==> x in s
    ensures NoTies(key, r)
  {
    forall i, j | 0 <= i < |r| && 0 <= j < |r| && key(r[i]) == key(r[j]) ensures r[i] == r[j] {
      assert r[i] in s && r[j] in s;
    }
  }

  /** Two tied elements may trade places. */
  lemma SwapTie<T>(key: T -> nat, s: seq<T>, r: seq<T>, i: nat, j: nat) returns (out: seq<T>)
    requires IsRanking(key, s, r) && i < |r| && j < |r| && key(r[i]) == key(r[j]) && r[i] != r[j]
    ensures IsRanking(key, s, out) && out != r
  {
    out := r[i := r[j]][j := r[i]];
    assert out[i] != r[i];
    assert multiset(out) == multiset(r);
    assert forall k | 0 <= k < |r| :: key(out[k]) == key(r[k]);
  }

  // ----- minimal disruption -----

  function Other(x: Node): Node -> bool {
    y => y != x
  }

  function Without(s: seq<Node>, x: Node): seq<Node> {
    Filter(Other(x), s)
  }

  lemma {:induction false} WithoutAbsent(s: seq<Node>, x: Node)
    requires x !in s
    ensures Without(s, x) == s
  {
    if s != [] { WithoutAbsent(s[1..], x); }
  }

  /** In a ranking without duplicates, dropping x moves up exactly the nodes ranked after x. */
  lemma DropFromRanking(ranked: seq<Node>, x: Node, at: nat)
    requires Distinct(ranked) && at < |ranked| && ranked[at] == x
    ensures Without(ranked, x) == ranked[..at] + ranked[at + 1..]
  {
    assert ranked == ranked[..at] + ([x] + ranked[at + 1..]);
    FilterConcat(Other(x), ranked[..at], [x] + ranked[at + 1..]);
    assert ([x] + ranked[at + 1..])[1..] == ranked[at + 1..];
    WithoutAbsent(ranked[..at], x);
    WithoutAbsent(ranked[at + 1..], x);
  }

  lemma SamePermutation<T>(a: seq<T>, b: seq<T>)
    requires multiset(a) == multiset(b) && Distinct(a)
    ensures Distinct(b) && |a| == |b| && forall x :: x in a <==> x in b
  {
    SameLength(a, b);
    forall i, j | 0 <= i < j < |b| ensures b[i] != b[j] {
      if b[i] == b[j] {
        AtMostOnce(a, b[i]);
        AtLeastTwice(b, i, j);
      }
    }
  }

  lemma AtLeastTwice<T>(b: seq<T>, i: nat, j: nat)
    requires i < j < |b| && b[i] == b[j]
    ensures multiset(b)[b[i]] >= 2
  {
    assert b == b[..j] + b[j..];
    assert b[..j][i] in b[..j] && b[j..][0] in b[j..];
    assert multiset(b) == multiset(b[..j]) + multiset(b[j..]);
  }

  lemma {:induction false} AtMostOnce<T>(a: seq<T>, x: T)
    requires Distinct(a)
    ensures multiset(a)[x] <= 1
  {
    if a != [] {
      AtMostOnce(a[1..], x);
      assert a == [a[0]] + a[1..];
      if a[0] == x { assert x !in a[1..]; }
    }
  }

  lemma DropFromReplicas(a: seq<Node>, x: Node, at: nat, replicas: nat)
    requires Distinct(a) && at < |a| && a[at] == x && replicas < |a|
    ensures Disruption(a, Without(a, x), x, replicas)
  {
    DropFromRanking(a, x, at);
    if at < replicas {
      DropFromRanking(a[..replicas], x, at);
      assert Without(a, x)[..replicas] == a[..at] + a[at + 1..replicas + 1];
    } else {
      assert Without(a, x)[..replicas] == a[..replicas];
    }
  }

  /** From the ranking `a` to the ranking `b` only x is dropped: a replica set without x stays,
      and one with x loses x and gains the next node in line. */
  ghost predicate Disruption(a: seq<Node>, b: seq<Node>, x: Node, replicas: nat) {
    && replicas < |a| == |b| + 1
    && b == Without(a, x)
    && (x !in a[..replicas] ==> b[..replicas] == a[..replicas])
    && (x in a[..replicas] ==> b[..replicas] == Without(a[..replicas], x) + [a[replicas]])
  }

  /** Removing x from the configuration; read from `b` to `a` this is what adding x does. */
  lemma MinimalDisruption(key: Node -> nat, nodes: seq<Node>, x: Node, replicas: nat)
    requires Distinct(nodes) && x in nodes && replicas < |nodes|
    ensures Disruption(Rank(key, nodes), Rank(key, Without(nodes, x)), x, replicas)
  {
    var a := Rank(key, nodes);
    RankFilter(key, Other(x), nodes);
    RankIsRanking(key, nodes);
    SamePermutation(nodes, a);
    assert x in a;
    var at :| 0 <= at < |a| && a[at] == x;
    DropFromReplicas(a, x, at, replicas);
  }

  /** The same for whatever Go's sort returns, given that no two nodes tie. */
  lemma MinimalDisruptionGo(key: Node -> nat, nodes: seq<Node>, x: Node, replicas: nat, a: seq<Node>, b: seq<Node>)
    requires Distinct(nodes) && x in nodes && replicas < |nodes| && NoTies(key, nodes)
    requires IsRanking(key, nodes, a) && IsRanking(key, Without(nodes, x), b)
    ensures Disruption(a, b, x, replicas)
  {
    var rest := Without(nodes, x);
    FilterElements(Other(x), nodes);
    RankingDetermined(key, nodes);
    forall i, j | 0 <= i < |rest| && 0 <= j < |rest| && key(rest[i]) == key(rest[j]) ensures rest[i] == rest[j] {
      assert rest[i] in nodes && rest[j] in nodes;
    }
    RankingDetermined(key, rest);
    MinimalDisruption(key, nodes, x, replicas);
  }

  // ----- pickNodes -----

  datatype Scored = Scored(node: Node, score: nat)

  function ScoreOf(s: Scored): nat { s.score }

  /** sort.Slice: an in-place sort with no promise about ties. */
  method SortSlice(scs: array<Scored>)
    modifies scs
    ensures IsRanking(ScoreOf, old(scs[..]), scs[..])
  {
    var sorted := Rank(ScoreOf, scs[..]);
    RankIsRanking(ScoreOf, scs[..]);
    assert |multiset(sorted)| == |sorted| && |multiset(scs[..])| == scs.Length;
    forall i | 0 <= i < scs.Length {
      scs[i] := sorted[i];
    }
    assert scs[..] == sorted;
  }

  function Score(key: Node -> nat, nodes: seq<Node>): seq<Scored> {
    seq(|nodes|, i requires 0 <= i < |nodes| => Scored(nodes[i], key(nodes[i])))
  }

  method PickNodes(key: Node -> nat, nodes: seq<Node>) returns (out: seq<Node>)
    ensures IsRanking(key, nodes, out)
  {
    var scs := new Scored[|nodes|](_ => Scored("", 0));
    var i := 0;
    while i < |nodes|
      invariant i <= |nodes|
      invariant forall j | 0 <= j < i :: scs[j] == Scored(nodes[j], key(nodes[j]))
    {
      scs[i] := Scored(nodes[i], key(nodes[i]));
      i := i + 1;
    }
    ghost var filled := scs[..];
    SortSlice(scs);
    out := [];
    while |out| < scs.Length
      invariant |out| <= scs.Length
      invariant forall j | 0 <= j < |out| :: out[j] == scs[j].node
    {
      out := out + [scs[|out|].node];
    }
    NodesRanked(key, nodes, filled, scs[..], out);
  }

  ghost predicate ScoredBy(key: Node -> nat, scs: seq<Scored>, nodes: seq<Node>) {
    |scs| == |nodes| && forall i | 0 <= i < |scs| :: scs[i] == Scored(nodes[i], key(nodes[i]))
  }

  lemma {:induction false} CountOf(key: Node -> nat, scs: seq<Scored>, nodes: seq<Node>, x: Node)
    requires ScoredBy(key, scs, nodes)
    ensures multiset(nodes)[x] == multiset(scs)[Scored(x, key(x))]
  {
    if scs != [] {
      CountOf(key, scs[1..], nodes[1..], x);
      assert scs == [scs[0]] + scs[1..] && nodes == [nodes[0]] + nodes[1..];
    }
  }

  lemma NodesRanked(key: Node -> nat, nodes: seq<Node>, before: seq<Scored>, after: seq<Scored>, out: seq<Node>)
    requires ScoredBy(key, before, nodes) && IsRanking(ScoreOf, before, after) && |out| == |after|
    requires forall j | 0 <= j < |after| :: out[j] == after[j].node
    ensures IsRanking(key, nodes, out)
  {
    SameLength(before, after);
    forall j | 0 <= j < |out| ensures after[j] == Scored(out[j], key(out[j])) {
      assert after[j] in before;
    }
    forall x ensures multiset(out)[x] == multiset(nodes)[x] {
      CountOf(key, before, nodes, x);
      CountOf(key, after, out, x);
    }
    forall i, j | 0 <= i < j < |out| ensures key(out[i]) <= key(out[j]) {
      assert ScoreOf(after[i]) <= ScoreOf(after[j]);
    }
  }

  // ----- pickNodes in TypeScript -----

  function Nodes(scs: seq<Scored>): seq<Node> {
    seq(|scs|, i requires 0 <= i < |scs| => scs[i].node)
  }

  /** Score, sort with the standard library's stable sort, forget the scores. */
  function PickNodesStable(key: Node -> nat, nodes: seq<Node>): seq<Node> {
    Nodes(Rank(ScoreOf, Score(key, nodes)))
  }

  ghost predicate Scores(key: Node -> nat, scs: seq<Scored>) {
    forall i | 0 <= i < |scs| :: scs[i].score == key(scs[i].node)
  }

  lemma {:induction false} InsertScored(key: Node -> nat, x: Scored, q: seq<Scored>)
    requires x.score == key(x.node) && Scores(key, q)
    ensures Nodes(Insert(ScoreOf, x, q)) == Insert(key, x.node, Nodes(q)) && Scores(key, Insert(ScoreOf, x, q))
  {
    if q != [] {
      assert Nodes(q)[1..] == Nodes(q[1..]) && Nodes([x] + q) == [x.node] + Nodes(q);
      if x.score > q[0].score {
        InsertScored(key, x, q[1..]);
        assert Nodes([q[0]] + Insert(ScoreOf, x, q[1..])) == [q[0].node] + Nodes(Insert(ScoreOf, x, q[1..]));
      }
    }
  }

  lemma {:induction false} RankScored(key: Node -> nat, nodes: seq<Node>)
    ensures PickNodesStable(key, nodes) == Rank(key, nodes) && Scores(key, Rank(ScoreOf, Score(key, nodes)))
  {
    if nodes != [] {
      RankScored(key, nodes[1..]);
      assert Score(key, nodes)[1..] == Score(key, nodes[1..]);
      InsertScored(key, Score(key, nodes)[0], Rank(ScoreOf, Score(key, nodes[1..])));
    }
  }

  /** The TypeScript ranking is the stable sort of the node list by score, so ties are decided by
      the configured order and one node more or less is the least disruption possible. */
  lemma PickNodesStableIsMinimal(key: Node -> nat, nodes: seq<Node>, x: Node, replicas: nat)
    ensures IsStableSort(key, nodes, PickNodesStable(key, nodes))
    ensures Distinct(nodes) && x in nodes && replicas < |nodes| ==>
              Disruption(PickNodesStable(key, nodes), PickNodesStable(key, Without(nodes, x)), x, replicas)
  {
    RankScored(key, nodes);
    RankScored(key, Without(nodes, x));
    RankIsStable(key, nodes);
    if Distinct(nodes) && x in nodes && replicas < |nodes| {
      MinimalDisruption(key, nodes, x, replicas);
    }
  }
}
