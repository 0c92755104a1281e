/** The replica loops of the coordinator: fanoutPut, and the two read paths streamBlock (Go)
    and fetchBlock (TypeScript). fanoutPut may ask a repeated node again, so its answers go by
    position; a read asks a node at most once, so its replies go by node. */
module Transfer {
  import opened Basics

  type Node = string

  datatype Reply =
    | NoReply                     // request error
    | Status(code: int)           // any answer but 200
    | Broken(sent: Bytes)         // 200, then the body breaks off
    | Body(content: Bytes)        // 200 with its whole body

  predicate Accepts(answer: Option<int>) {
    answer.Some? && 200 <= answer.value < 300
  }

  /** The positions below n at which the PUT was answered 2xx. */
  function Accepting(n: nat, put: nat -> Option<int>): (ks: seq<nat>)
    ensures forall i | 0 <= i < |ks| :: ks[i] < n && Accepts(put(ks[i]))
  {
    if n == 0 then [] else Accepting(n - 1, put) + if Accepts(put(n - 1)) then [n - 1] else []
  }

  lemma {:induction false} AcceptingIsComplete(n: nat, put: nat -> Option<int>, k: nat)
    requires k < n && Accepts(put(k))
    ensures k in Accepting(n, put)
  {
    if k < n - 1 { AcceptingIsComplete(n - 1, put, k); }
  }

  lemma SomeAccepts(n: nat, put: nat -> Option<int>)
    requires n > 0 && Accepts(put(0))
    ensures Accepting(n, put) != []
  {
    AcceptingIsComplete(n, put, 0);
  }

  lemma {:induction false} AcceptingCount(n: nat, put: nat -> Option<int>)
    ensures |Accepting(n, put)| == |set k | 0 <= k < n && put(k).Some? && put(k).value / 100 == 2|
  {
    var ok := set k | 0 <= k < n && put(k).Some? && put(k).value / 100 == 2;
    if n > 0 {
      AcceptingCount(n - 1, put);
      var before := set k | 0 <= k < n - 1 && put(k).Some? && put(k).value / 100 == 2;
      assert ok == if Accepts(put(n - 1)) then before + {n - 1} else before;
    }
  }

  /** Counts exactly the replicas that answered 2xx; a failure never stops the loop. */
  method FanoutPut(nodes: seq<Node>, put: nat -> Option<int>) returns (successes: nat, lastErr: Option<nat>)
    ensures successes == |Accepting(|nodes|, put)|
    ensures successes == |set k | 0 <= k < |nodes| && put(k).Some? && put(k).value / 100 == 2|
    ensures match lastErr
            case None => forall k | 0 <= k < |nodes| :: Accepts(put(k))
            case Some(last) => last < |nodes| && !Accepts(put(last)) && forall k | last < k < |nodes| :: Accepts(put(k))
  {
    successes, lastErr := 0, None;
    for i := 0 to |nodes|
      invariant successes == |Accepting(i, put)|
      invariant match lastErr
                case None => forall k | 0 <= k < i :: Accepts(put(k))
                case Some(last) => last < i && !Accepts(put(last)) && forall k | last < k < i :: Accepts(put(k))
    {
      if !Accepts(put(i)) {
        lastErr := Some(i);
      } else {
        successes := successes + 1;
      }
    }
    AcceptingCount(|nodes|, put);
  }

  // ----- candidates -----

  /** The candidate list of a read: the recorded replicas, then every other ranked node. */
  function Candidates(recorded: seq<Node>, ranked: seq<Node>): seq<Node>
    decreases |ranked|
  {
    if ranked == [] then recorded
    else Candidates(if ranked[0] in recorded then recorded else recorded + [ranked[0]], ranked[1..])
  }

  /** Recorded replicas come first, every recorded or configured node is a candidate, nothing
      else is, and the fall-backs are new and listed once. */
  lemma {:induction false} CandidatesCover(recorded: seq<Node>, ranked: seq<Node>)
    ensures recorded <= Candidates(recorded, ranked)
    ensures forall n :: n in Candidates(recorded, ranked) <==> n in recorded || n in ranked
    ensures Distinct(recorded) ==> Distinct(Candidates(recorded, ranked))
    decreases |ranked|
  {
    if ranked != [] {
      var more := if ranked[0] in recorded then recorded else recorded + [ranked[0]];
      CandidatesCover(more, ranked[1..]);
      assert recorded <= more;
      forall n ensures n in Candidates(recorded, ranked) <==> n in recorded || n in ranked {
        assert n in ranked <==> n == ranked[0] || n in ranked[1..];
        assert n in more <==> n in recorded || n == ranked[0];
      }
    }
  }

  method BuildCandidates(recorded: seq<Node>, ranked: seq<Node>) returns (out: seq<Node>)
    ensures out == Candidates(recorded, ranked) == recorded + Filter(Outside(recorded), Once(ranked))
  {
    CandidatesInRankOrder(recorded, ranked);
    out := recorded;
    var i := 0;
    while i < |ranked|
      invariant i <= |ranked|
      invariant Candidates(out, ranked[i..]) == Candidates(recorded, ranked)
    {
      assert ranked[i..][1..] == ranked[i + 1..];
      if ranked[i] !in out {
        out := out + [ranked[i]];
      }
      i := i + 1;
    }
  }

  // ----- reads -----

  /** The nodes of `s` in the order in which they first occur. */
  function Once(s: seq<Node>): (asked: seq<Node>)
    ensures Distinct(asked) && forall n :: n in asked <==> n in s
  {
    if s == [] then []
    else
      var init, last := s[..|s| - 1], s[|s| - 1];
      assert s == init + [last];
      if last in init then Once(init) else Once(init) + [last]
  }

  lemma OnceSnoc(s: seq<Node>, n: Node)
    ensures Once(s + [n]) == if n in s then Once(s) else Once(s) + [n]
  {
    assert (s + [n])[..|s|] == s;
  }

  /** `n` occurs in `s`, and before that no `m` does. */
  ghost predicate OccursBefore(s: seq<Node>, n: Node, m: Node) {
    exists p :: 0 <= p < |s| && s[p] == n && m !in s[..p]
  }

  /** Each node once, and in the order of their first occurrences. */
  lemma {:induction false} OnceKeepsOrder(s: seq<Node>)
    ensures forall i, j | 0 <= i < j < |Once(s)| :: OccursBefore(s, Once(s)[i], Once(s)[j])
  {
    if s != [] {
      var init, last := s[..|s| - 1], s[|s| - 1];
      assert s == init + [last];
      OnceKeepsOrder(init);
      forall i, j | 0 <= i < j < |Once(s)| ensures OccursBefore(s, Once(s)[i], Once(s)[j]) {
        var n, m := Once(s)[i], Once(s)[j];
        assert n in Once(init);
        if j < |Once(init)| {
          var p :| 0 <= p < |init| && init[p] == n && m !in init[..p];
          assert s[p] == n && s[..p] == init[..p];
        } else {
          assert m == last && m !in init;
          var p :| 0 <= p < |init| && init[p] == n;
          assert s[p] == n && s[..p] == init[..p];
        }
      }
    }
  }

  function Outside(recorded: seq<Node>): Node -> bool {
    n => n !in recorded
  }

  lemma {:induction false} CandidatesSnoc(recorded: seq<Node>, ranked: seq<Node>, n: Node)
    ensures var c := Candidates(recorded, ranked);
            Candidates(recorded, ranked + [n]) == if n in recorded || n in ranked then c else c + [n]
    decreases |ranked|
  {
    if ranked == [] {
      assert [n][1..] == [] && [] + [n] == [n];
    } else {
      var more := if ranked[0] in recorded then recorded else recorded + [ranked[0]];
      assert (ranked + [n])[1..] == ranked[1..] + [n];
      CandidatesSnoc(more, ranked[1..], n);
      assert n in ranked <==> n == ranked[0] || n in ranked[1..];
    }
  }

  /** The recorded replicas as they are, then the other configured nodes in rank order, each once. */
  lemma {:induction false} CandidatesInRankOrder(recorded: seq<Node>, ranked: seq<Node>)
    ensures Candidates(recorded, ranked) == recorded + Filter(Outside(recorded), Once(ranked))
    decreases |ranked|
  {
    if ranked == [] {
      assert recorded + [] == recorded;
    } else {
      var init, last := ranked[..|ranked| - 1], ranked[|ranked| - 1];
      var others := Filter(Outside(recorded), Once(init));
      assert ranked == init + [last];
      CandidatesInRankOrder(recorded, init);
      CandidatesSnoc(recorded, init, last);
      FilterConcat(Outside(recorded), Once(init), [last]);
      assert [last][1..] == [] && others + [] == others;
      Assoc(recorded, others, [last]);
    }
  }

  predicate Refuses(r: Reply) {
    r.NoReply? || r.Status?
  }

  /** What a read that retries after every failure returns. */
  function FirstServed(candidates: seq<Node>, get: Node -> Reply): Option<Bytes> {
    if candidates == [] then None
    else match get(candidates[0])
      case Body(content) => Some(content)
      case _ => FirstServed(candidates[1..], get)
  }

  lemma {:induction false} ServedIfAnyServes(candidates: seq<Node>, get: Node -> Reply)
    ensures FirstServed(candidates, get).Some? <==> exists n :: n in candidates && get(n).Body?
    ensures FirstServed(candidates, get).Some? ==>
            exists n :: n in candidates && get(n) == Body(FirstServed(candidates, get).value)
  {
    if candidates != [] {
      ServedIfAnyServes(candidates[1..], get);
      assert forall n :: n in candidates <==> n == candidates[0] || n in candidates[1..];
    }
  }

  /** The reply of the first candidate that answers 200, whole or not. */
  function FirstAnswer(candidates: seq<Node>, get: Node -> Reply): Reply {
    if candidates == [] then NoReply
    else if Refuses(get(candidates[0])) then FirstAnswer(candidates[1..], get)
    else get(candidates[0])
  }

  /** Candidate i is the first one whose reply satisfies `p`. */
  predicate FirstAt(candidates: seq<Node>, get: Node -> Reply, p: Reply -> bool, i: int) {
    0 <= i < |candidates| && p(get(candidates[i])) && forall j | 0 <= j < i :: !p(get(candidates[j]))
  }

  predicate Answers(r: Reply) {
    !Refuses(r)
  }

  predicate Serves(r: Reply) {
    r.Body?
  }

  lemma {:induction false} FirstAnswerAt(candidates: seq<Node>, get: Node -> Reply)
    ensures forall i | FirstAt(candidates, get, Answers, i) :: FirstAnswer(candidates, get) == get(candidates[i])
    ensures !Refuses(FirstAnswer(candidates, get)) <==> exists i :: FirstAt(candidates, get, Answers, i)
  {
    if candidates != [] {
      var rest := candidates[1..];
      FirstAnswerAt(rest, get);
      if Refuses(get(candidates[0])) {
        forall i | FirstAt(candidates, get, Answers, i) ensures FirstAt(rest, get, Answers, i - 1) {
          forall j | 0 <= j < i - 1 ensures !Answers(get(rest[j])) {
            assert rest[j] == candidates[j + 1];
          }
        }
        forall i | FirstAt(rest, get, Answers, i) ensures FirstAt(candidates, get, Answers, i + 1) {
          forall j | 0 <= j < i + 1 ensures !Answers(get(candidates[j])) {
            assert j > 0 ==> candidates[j] == rest[j - 1];
          }
        }
      } else {
        assert FirstAt(candidates, get, Answers, 0);
      }
    }
  }

  lemma {:induction false} FirstServedAt(candidates: seq<Node>, get: Node -> Reply)
    ensures forall i | FirstAt(candidates, get, Serves, i) ::
              FirstServed(candidates, get) == Some(get(candidates[i]).content)
    ensures FirstServed(candidates, get).Some? <==> exists i :: FirstAt(candidates, get, Serves, i)
  {
    if candidates != [] {
      var rest := candidates[1..];
      FirstServedAt(rest, get);
      if Serves(get(candidates[0])) {
        assert FirstAt(candidates, get, Serves, 0);
      } else {
        forall i | FirstAt(candidates, get, Serves, i) ensures FirstAt(rest, get, Serves, i - 1) {
          forall j | 0 <= j < i - 1 ensures !Serves(get(rest[j])) {
            assert rest[j] == candidates[j + 1];
          }
        }
        forall i | FirstAt(rest, get, Serves, i) ensures FirstAt(candidates, get, Serves, i + 1) {
          forall j | 0 <= j < i + 1 ensures !Serves(get(candidates[j])) {
            assert j > 0 ==> candidates[j] == rest[j - 1];
          }
        }
      }
    }
  }

  lemma {:induction false} FirstOfConcat(a: seq<Node>, b: seq<Node>, get: Node -> Reply)
    ensures FirstAnswer(a + b, get) == if Refuses(FirstAnswer(a, get)) then FirstAnswer(b, get) else FirstAnswer(a, get)
    ensures FirstServed(a + b, get) == if FirstServed(a, get).None? then FirstServed(b, get) else FirstServed(a, get)
    ensures Refuses(FirstAnswer(a, get)) ==> FirstAnswer(a, get) == NoReply && forall n | n in a :: Refuses(get(n))
    ensures FirstServed(a, get).None? ==> forall n | n in a :: !Serves(get(n))
  {
    if a == [] {
      assert a + b == b;
    } else {
      FirstOfConcat(a[1..], b, get);
      assert (a + b)[1..] == a[1..] + b;
      assert forall n | n in a :: n == a[0] || n in a[1..];
    }
  }

  /** A read decides as if it asked the recorded replicas and then every configured node, in rank
      order: passing over a node already tried changes nothing. */
  lemma {:induction false} ReadsInOrder(recorded: seq<Node>, ranked: seq<Node>, get: Node -> Reply)
    ensures FirstAnswer(Candidates(recorded, ranked), get) ==
            if Refuses(FirstAnswer(recorded, get)) then FirstAnswer(ranked, get) else FirstAnswer(recorded, get)
    ensures FirstServed(Candidates(recorded, ranked), get) ==
            if FirstServed(recorded, get).None? then FirstServed(ranked, get) else FirstServed(recorded, get)
    decreases |ranked|
  {
    if ranked == [] {
      FirstOfConcat(recorded, [], get);
    } else {
      var more := if ranked[0] in recorded then recorded else recorded + [ranked[0]];
      ReadsInOrder(more, ranked[1..], get);
      FirstOfConcat(recorded, [ranked[0]], get);
      assert [ranked[0]][1..] == [];
    }
  }

  /** Where the two read paths differ: the Go read of a block that some node serves fails exactly
      when the first node to answer breaks off. */
  lemma {:induction false} StreamFailsIffBroken(candidates: seq<Node>, get: Node -> Reply)
    requires FirstServed(candidates, get).Some?
    ensures FirstAnswer(candidates, get).Body? <==>
            FirstAnswer(candidates, get) == Body(FirstServed(candidates, get).value)
    ensures !FirstAnswer(candidates, get).Body? <==> FirstAnswer(candidates, get).Broken?
    decreases |candidates|
  {
    if Refuses(get(candidates[0])) {
      StreamFailsIffBroken(candidates[1..], get);
    }
  }

  /** Two replicas, the first of which breaks off after `part`: the retrying read returns the block,
      the other one ends there. */
  lemma RetryMatters(a: Node, b: Node, part: Bytes, content: Bytes, get: Node -> Reply)
    requires a != b && get(a) == Broken(part) && get(b) == Body(content)
    ensures FirstServed(Candidates([a, b], [a, b]), get) == Some(content)
    ensures FirstAnswer(Candidates([a, b], [a, b]), get) == Broken(part)
  {
    assert [a, b][1..] == [b] && [b][1..] == [];
    assert Candidates([a, b], [a, b]) == Candidates([a, b], [b]) == Candidates([a, b], []) == [a, b];
    assert FirstServed([b], get) == Some(content);
  }

  /** The candidates before position i have been asked, each once, in their order. */
  ghost predicate AskedUpTo(asked: seq<Node>, tried: set<Node>, candidates: seq<Node>, i: nat)
    requires i <= |candidates|
  {
    asked == Once(candidates[..i]) && forall n :: n in tried <==> n in asked
  }

  lemma AskNext(asked: seq<Node>, tried: set<Node>, candidates: seq<Node>, i: nat)
    requires i < |candidates| && AskedUpTo(asked, tried, candidates, i)
    ensures if candidates[i] in tried then AskedUpTo(asked, tried, candidates, i + 1)
            else AskedUpTo(asked + [candidates[i]], tried + {candidates[i]}, candidates, i + 1)
  {
    assert candidates[..i + 1] == candidates[..i] + [candidates[i]];
    OnceSnoc(candidates[..i], candidates[i]);
  }

  /** The loop of fetchBlock. */
  method FetchFrom(candidates: seq<Node>, get: Node -> Reply) returns (r: Option<Bytes>, asked: seq<Node>)
    ensures r == FirstServed(candidates, get) && Distinct(asked)
    ensures forall i | FirstAt(candidates, get, Serves, i) :: asked == Once(candidates[..i + 1])
    ensures r.None? ==> asked == Once(candidates)
  {
    var tried := {};
    asked := [];
    var i := 0;
    while i < |candidates|
      invariant i <= |candidates|
      invariant AskedUpTo(asked, tried, candidates, i)
      invariant forall j | 0 <= j < i :: !Serves(get(candidates[j]))
      invariant FirstServed(candidates[i..], get) == FirstServed(candidates, get)
    {
      var node := candidates[i];
      AskNext(asked, tried, candidates, i);
      assert candidates[i..][1..] == candidates[i + 1..];
      i := i + 1;
      if node in tried {
        AskedBefore(asked, tried, candidates, i - 1);
        continue;
      }
      tried, asked := tried + {node}, asked + [node];
      match get(node)
      case Body(content) =>
        assert FirstAt(candidates, get, Serves, i - 1);
        return Some(content), asked;
      case _ =>
    }
    assert candidates[..i] == candidates;
    FirstServedAt(candidates, get);
    r := None;
  }

  /** TypeScript: goes on to the next candidate after every kind of failure, so it fails only
      if no recorded or configured node serves the block. */
  method FetchBlock(recorded: seq<Node>, ranked: seq<Node>, get: Node -> Reply)
    returns (r: Option<Bytes>, asked: seq<Node>)
    ensures r == FirstServed(Candidates(recorded, ranked), get)
    ensures forall i | FirstAt(recorded, get, Serves, i) :: r == Some(get(recorded[i]).content)
    ensures (forall n | n in recorded :: !get(n).Body?) ==>
              forall i | FirstAt(ranked, get, Serves, i) :: r == Some(get(ranked[i]).content)
    ensures Distinct(asked)
    ensures r.Some? <==> exists n :: (n in recorded || n in ranked) && get(n).Body?
    ensures forall i | FirstAt(Candidates(recorded, ranked), get, Serves, i) ::
            asked == Once(Candidates(recorded, ranked)[..i + 1])
    ensures r.None? ==> asked == Once(Candidates(recorded, ranked))
  {
    var candidates := BuildCandidates(recorded, ranked);
    r, asked := FetchFrom(candidates, get);
    CandidatesCover(recorded, ranked);
    ServedIfAnyServes(candidates, get);
    ReadsInOrder(recorded, ranked, get);
    FirstServedAt(recorded, get);
    FirstServedAt(ranked, get);
  }

  lemma AskedBefore(asked: seq<Node>, tried: set<Node>, candidates: seq<Node>, i: nat)
    requires i < |candidates| && AskedUpTo(asked, tried, candidates, i) && candidates[i] in tried
    ensures exists j :: 0 <= j < i && candidates[j] == candidates[i]
  {
    assert candidates[i] in candidates[..i];
    var j :| 0 <= j < i && candidates[..i][j] == candidates[i];
    assert candidates[j] == candidates[i];
  }

  /** What a read makes of the reply that decides it. */
  predicate Ends(r: Reply, sent: Bytes, ok: bool) {
    (r == Body(sent) && ok) || (r == Broken(sent) && !ok)
  }

  /** The loop of streamBlock. */
  method StreamFrom(candidates: seq<Node>, get: Node -> Reply) returns (sent: Bytes, ok: bool, asked: seq<Node>)
    ensures Distinct(asked) && (ok <==> FirstAnswer(candidates, get).Body?)
    ensures sent == match FirstAnswer(candidates, get)
                    case Body(content) => content
                    case Broken(part) => part
                    case _ => []
    ensures forall i | FirstAt(candidates, get, Answers, i) :: asked == Once(candidates[..i + 1])
    ensures Refuses(FirstAnswer(candidates, get)) ==> asked == Once(candidates)
  {
    FirstAnswerAt(candidates, get);
    var tried := {};
    asked := [];
    var i := 0;
    while i < |candidates|
      invariant i <= |candidates|
      invariant AskedUpTo(asked, tried, candidates, i)
      invariant forall j | 0 <= j < i :: Refuses(get(candidates[j]))
    {
      var node := candidates[i];
      AskNext(asked, tried, candidates, i);
      i := i + 1;
      if node in tried {
        AskedBefore(asked, tried, candidates, i - 1);
        continue;
      }
      tried, asked := tried + {node}, asked + [node];
      if !Refuses(get(node)) {
        assert FirstAt(candidates, get, Answers, i - 1);
      }
      match get(node)
      case NoReply =>
      case Status(_) =>
      case Broken(part) => return part, false, asked;
      case Body(content) => return content, true, asked;
    }
    assert candidates[..i] == candidates;
    sent, ok := [], false;
  }

  /** Go: the first candidate that answers 200 decides; its bytes go straight to the client, and
      a body that breaks off is an error, not a retry. */
  method StreamBlock(recorded: seq<Node>, ranked: seq<Node>, get: Node -> Reply)
    returns (sent: Bytes, ok: bool, asked: seq<Node>)
    ensures Distinct(asked)
    ensures ok <==> FirstAnswer(Candidates(recorded, ranked), get).Body?
    ensures ok <==> exists i ::
              FirstAt(Candidates(recorded, ranked), get, Answers, i) && get(Candidates(recorded, ranked)[i]).Body?
    ensures sent == match FirstAnswer(Candidates(recorded, ranked), get)
                    case Body(content) => content
                    case Broken(part) => part
                    case _ => []
    ensures forall i | FirstAt(recorded, get, Answers, i) :: Ends(get(recorded[i]), sent, ok)
    ensures (forall n | n in recorded :: Refuses(get(n))) ==>
              forall i | FirstAt(ranked, get, Answers, i) :: Ends(get(ranked[i]), sent, ok)
    ensures forall i | FirstAt(Candidates(recorded, ranked), get, Answers, i) ::
            asked == Once(Candidates(recorded, ranked)[..i + 1])
    ensures Refuses(FirstAnswer(Candidates(recorded, ranked), get)) ==> asked == Once(Candidates(recorded, ranked))
  {
    var candidates := BuildCandidates(recorded, ranked);
    sent, ok, asked := StreamFrom(candidates, get);
    FirstAnswerAt(candidates, get);
    ReadsInOrder(recorded, ranked, get);
    FirstAnswerAt(recorded, get);
    FirstAnswerAt(ranked, get);
  }
}
