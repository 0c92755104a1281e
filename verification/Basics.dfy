/** Types and sequence helpers shared by every module. */
module Basics {

  type byte = x: int | 0 <= x < 256
  type Bytes = seq<byte>

  datatype Option<+T> = None | Some(value: T)

  function Flatten<T>(parts: seq<seq<T>>): seq<T> {
    if parts == [] then [] else parts[0] + Flatten(parts[1..])
  }

  lemma {:induction false} FlattenConcat<T>(a: seq<seq<T>>, b: seq<seq<T>>)
    ensures Flatten(a + b) == Flatten(a) + Flatten(b)
  {
    if a == [] {
      assert a + b == b;
    } else {
      assert (a + b)[1..] == a[1..] + b;
      FlattenConcat(a[1..], b);
    }
  }

  lemma FlattenSnoc<T>(a: seq<seq<T>>, x: seq<T>)
    ensures Flatten(a + [x]) == Flatten(a) + x
  {
    FlattenConcat(a, [x]);
    assert Flatten([x]) == x + Flatten<T>([]);
  }

  /** A list of parts concatenates to its k-th part exactly when the others are empty. */
  lemma {:induction false} FlattenAlone<T>(parts: seq<seq<T>>, k: nat)
    requires k < |parts|
    ensures |Flatten(parts)| >= |parts[k]|
    ensures Flatten(parts) == parts[k] <==> forall j | 0 <= j < |parts| && j != k :: parts[j] == []
  {
    var rest := parts[1..];
    if k == 0 {
      FlattenEmpty(rest);
      assert forall j | 0 <= j < |rest| :: rest[j] == parts[j + 1];
      assert Flatten(rest) == [] ==> parts[0] + Flatten(rest) == parts[0];
      assert Flatten(parts) == parts[0] ==> |Flatten(rest)| == 0;
      if forall j | 0 <= j < |parts| && j != 0 :: parts[j] == [] {
        assert forall j | 0 <= j < |rest| :: rest[j] == [];
      }
      if Flatten(rest) == [] {
        forall j | 0 <= j < |parts| && j != 0 ensures parts[j] == [] { assert parts[j] == rest[j - 1]; }
      }
    } else {
      FlattenAlone(rest, k - 1);
      if parts[0] == [] {
        assert parts[0] + Flatten(rest) == Flatten(rest);
        if Flatten(parts) == parts[k] {
          forall j | 0 <= j < |parts| && j != k ensures parts[j] == [] {
            if j > 0 { assert parts[j] == rest[j - 1]; }
          }
        }
      } else {
        assert |Flatten(parts)| > |parts[k]|;
      }
    }
  }

  lemma {:induction false} FlattenEmpty<T>(parts: seq<seq<T>>)
    ensures Flatten(parts) == [] <==> forall j | 0 <= j < |parts| :: parts[j] == []
  {
    if parts != [] {
      FlattenEmpty(parts[1..]);
      forall j | 0 < j < |parts| ensures parts[j] == parts[1..][j - 1] {}
      assert |Flatten(parts)| == |parts[0]| + |Flatten(parts[1..])|;
      if forall j | 0 <= j < |parts| :: parts[j] == [] {
        assert forall j | 0 <= j < |parts[1..]| :: parts[1..][j] == parts[j + 1];
      }
    }
  }

  lemma Assoc<T>(a: seq<T>, b: seq<T>, c: seq<T>)
    ensures a + b + c == a + (b + c)
  {
  }

  /** The elements of `s` that satisfy `p`, in their order. */
  function Filter<T>(p: T -> bool, s: seq<T>): seq<T> {
    if s == [] then []
    else if p(s[0]) then [s[0]] + Filter(p, s[1..])
    else Filter(p, s[1..])
  }

  lemma {:induction false} FilterElements<T>(p: T -> bool, s: seq<T>)
    ensures forall x :: x in Filter(p, s) <==> x in s && p(x)
  {
    if s != [] { FilterElements(p, s[1..]); }
  }

  lemma {:induction false} FilterConcat<T>(p: T -> bool, a: seq<T>, b: seq<T>)
    ensures Filter(p, a + b) == Filter(p, a) + Filter(p, b)
  {
    if a == [] {
      assert a + b == b;
    } else {
      assert (a + b)[1..] == a[1..] + b;
      FilterConcat(p, a[1..], b);
    }
  }

  function Below(n: nat): (s: set<int>)
    ensures forall x :: x in s <==> 0 <= x < n
  {
    if n == 0 then {} else Below(n - 1) + {n - 1}
  }

  ghost predicate Distinct<T>(s: seq<T>) {
    forall i, j | 0 <= i < j < |s| :: s[i] != s[j]
  }

  /** What io.LimitReader(r, n) lets through. */
  function Take<T>(s: seq<T>, n: int): (r: seq<T>)
    ensures r <= s && |r| == (if n <= 0 then 0 else if n <= |s| then n else |s|)
    ensures 0 <= n <= |s| ==> r == s[..n]
  {
    if n <= 0 then [] else if n < |s| then s[..n] else s
  }
}
