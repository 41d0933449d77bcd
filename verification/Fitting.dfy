/** What `fitContext` (assistant/agent.ts) promises: the list that comes out, said without a loop. */
module Fitting {
  import opened Common
  import opened Messages

  type Digests = map<string, string>

  function Shrunk(m: Message, digests: Digests): Message {
    if m.Tool? && m.callId in digests && digests[m.callId] != "" then m.(text := digests[m.callId]) else m
  }

  /** The results at positions 1 to k - 1 in their one-line form. */
  function DigestUpTo(ms: seq<Message>, digests: Digests, k: nat): (r: seq<Message>)
    ensures |r| == |ms|
  {
    seq(|ms|, i requires 0 <= i < |ms| => if 1 <= i < k then Shrunk(ms[i], digests) else ms[i])
  }

  /** Where the history may be cut: in front of a question, at its start, or behind its end. */
  predicate Boundary(ms: seq<Message>, q: nat, j: nat)
    requires q < |ms|
  {
    1 <= j <= q && (j == 1 || j == q || ms[j].User?)
  }

  /** The list without the messages from 1 to j - 1. */
  function DropTo(ms: seq<Message>, j: nat): seq<Message>
    requires 1 <= j <= |ms|
  {
    [ms[0]] + ms[j..]
  }

  /** Digesting stopped at `k`: as late as needed, as early as possible. */
  ghost predicate DigestsStopAt(ms: seq<Message>, digests: Digests, weight: seq<Message> -> int, budget: int,
                                protectFrom: nat, k: nat)
  {
    && 1 <= k && (k == 1 || k <= protectFrom)
    && (forall i | 1 <= i < k :: weight(DigestUpTo(ms, digests, i)) > budget)
    && (k >= protectFrom || weight(DigestUpTo(ms, digests, k)) <= budget)
  }

  ghost predicate TooBigBefore(ms: seq<Message>, weight: seq<Message> -> int, budget: int, q: nat, j: nat)
    requires 1 <= q < |ms|
  {
    forall i: nat | Boundary(ms, q, i) && i < j :: weight(DropTo(ms, i)) > budget
  }

  /** No turn begins strictly between the two places. */
  predicate NoQuestion(ms: seq<Message>, from: nat, to: nat)
    requires to <= |ms|
  {
    forall k: nat | from < k < to :: !ms[k].User?
  }

  lemma NoQuestionMore(ms: seq<Message>, from: nat, to: nat)
    requires to < |ms| && NoQuestion(ms, from, to) && !ms[to].User?
    ensures NoQuestion(ms, from, to + 1)
  {
  }

  lemma TooBigStep(ms: seq<Message>, weight: seq<Message> -> int, budget: int, q: nat, from: nat, to: nat)
    requires 1 <= from <= to <= q < |ms| && TooBigBefore(ms, weight, budget, q, from)
    requires weight(DropTo(ms, from)) > budget
    requires NoQuestion(ms, from, to)
    ensures TooBigBefore(ms, weight, budget, q, to)
  {
  }

  /** Whole oldest turns went, up to `j`: the first cut that fits, or the whole history. */
  ghost predicate DropsStopAt(ms: seq<Message>, weight: seq<Message> -> int, budget: int, q: nat, j: nat)
    requires 1 <= q < |ms|
  {
    && Boundary(ms, q, j)
    && TooBigBefore(ms, weight, budget, q, j)
    && (j == q || weight(DropTo(ms, j)) <= budget)
  }

  ghost predicate Fitted(ms: seq<Message>, digests: Digests, weight: seq<Message> -> int, budget: int,
                         protectFrom: nat, q: nat, ms': seq<Message>, removed: nat)
    requires 1 <= q < |ms|
  {
    exists k: nat ::
      && DigestsStopAt(ms, digests, weight, budget, protectFrom, k)
      && DropsStopAt(DigestUpTo(ms, digests, k), weight, budget, q, removed + 1)
      && ms' == DropTo(DigestUpTo(ms, digests, k), removed + 1)
  }

  lemma DigestShape(ms: seq<Message>, digests: Digests, k: nat)
    ensures SameShape(ms, DigestUpTo(ms, digests, k))
  {
  }

  /** What a fitted list is, whatever made it stop there. */
  lemma FittedCut(ms: seq<Message>, digests: Digests, weight: seq<Message> -> int, budget: int,
                  protectFrom: nat, q: nat, ms': seq<Message>, removed: nat) returns (k: nat)
    requires 1 <= q < |ms|
    requires Fitted(ms, digests, weight, budget, protectFrom, q, ms', removed)
    ensures 1 <= k && (k == 1 || k <= protectFrom)
    ensures Boundary(DigestUpTo(ms, digests, k), q, removed + 1)
    ensures ms' == DropTo(DigestUpTo(ms, digests, k), removed + 1)
  {
    k :| && DigestsStopAt(ms, digests, weight, budget, protectFrom, k)
         && DropsStopAt(DigestUpTo(ms, digests, k), weight, budget, q, removed + 1)
         && ms' == DropTo(DigestUpTo(ms, digests, k), removed + 1);
  }

  /** The question and everything behind it stay where they are, counted from the end; older results among
      them may read as their digests. */
  lemma FittedPositions(ms: seq<Message>, digests: Digests, weight: seq<Message> -> int, budget: int,
                        protectFrom: nat, q: nat, ms': seq<Message>, removed: nat)
    requires 1 <= q < |ms|
    requires Fitted(ms, digests, weight, budget, protectFrom, q, ms', removed)
    ensures removed < q && |ms'| == |ms| - removed && ms'[0] == ms[0]
    ensures forall i | q <= i < |ms| && (!ms[i].Tool? || i >= protectFrom) :: ms'[i - removed] == ms[i]
    ensures forall i | q <= i < |ms| :: ms'[i - removed] in {ms[i], Shrunk(ms[i], digests)}
    ensures removed > 0 && q - removed > 1 ==> ms'[1].User?
  {
    var k := FittedCut(ms, digests, weight, budget, protectFrom, q, ms', removed);
    DropPositions(DigestUpTo(ms, digests, k), removed);
    DigestPositions(ms, digests, k, protectFrom);
  }

  lemma DropPositions(d: seq<Message>, removed: nat)
    requires removed + 1 <= |d|
    ensures var ms' := DropTo(d, removed + 1);
            |ms'| == |d| - removed && ms'[0] == d[0] && forall i | removed + 1 <= i < |d| :: ms'[i - removed] == d[i]
  {
  }

  lemma DigestPositions(ms: seq<Message>, digests: Digests, k: nat, protectFrom: nat)
    requires 1 <= k && (k == 1 || k <= protectFrom)
    ensures var d := DigestUpTo(ms, digests, k);
            && (forall i | 0 <= i < |ms| :: d[i] in {ms[i], Shrunk(ms[i], digests)} && (d[i].User? <==> ms[i].User?))
            && (forall i | 0 <= i < |ms| && (!ms[i].Tool? || i >= protectFrom) :: d[i] == ms[i])
            && (ms != [] ==> d[0] == ms[0])
  {
  }

  lemma DropSlices(d: seq<Message>, q: nat, removed: nat)
    requires removed < q < |d|
    ensures var ms' := DropTo(d, removed + 1);
            |ms'| == |d| - removed && ms'[q - removed..] == d[q..] && ms'[1..q - removed] == d[removed + 1..q]
  {
  }

  lemma DroppedKeeps(ms: seq<Message>, d: seq<Message>, q: nat, removed: nat)
    requires 1 <= q < |ms| && SameShape(ms, d) && Boundary(d, q, removed + 1)
    ensures WellFormed(ms[1..q]) ==> WellFormed(d[removed + 1..q])
    ensures WellFormed(ms[q..]) <==> WellFormed(d[q..])
    ensures SameShape(ms[q..], d[q..])
  {
    WellFormedShape(ms[q..], d[q..]);
    WellFormedShape(ms[1..q], d[1..q]);
    if WellFormed(ms[1..q]) { SuffixWellFormed(d, q, removed + 1); }
  }

  /** The history that is left is a run of whole turns, as well formed as before; so is the turn's own part. */
  lemma FittedKeeps(ms: seq<Message>, digests: Digests, weight: seq<Message> -> int, budget: int,
                    protectFrom: nat, q: nat, ms': seq<Message>, removed: nat)
    requires 1 <= q < |ms|
    requires Fitted(ms, digests, weight, budget, protectFrom, q, ms', removed)
    ensures removed < q && |ms'| == |ms| - removed
    ensures SameShape(ms[q..], ms'[q - removed..])
    ensures WellFormed(ms[1..q]) ==> WellFormed(ms'[1..q - removed])
    ensures WellFormed(ms[q..]) <==> WellFormed(ms'[q - removed..])
  {
    var k := FittedCut(ms, digests, weight, budget, protectFrom, q, ms', removed);
    var d := DigestUpTo(ms, digests, k);
    DigestShape(ms, digests, k);
    DropSlices(d, q, removed);
    DroppedKeeps(ms, d, q, removed);
  }

  lemma SuffixWellFormed(d: seq<Message>, q: nat, j: nat)
    requires q < |d| && Boundary(d, q, j) && WellFormed(d[1..q])
    ensures WellFormed(d[j..q])
  {
    if j == q {
      assert d[j..q] == [];
    } else {
      assert d[1..q][j - 1] == d[j] && d[1..q][j - 1..] == d[j..q];
      if j > 1 { WellFormedCut(d[1..q], j - 1); }
    }
  }

  lemma DigestStep(ms: seq<Message>, digests: Digests, i: nat)
    requires 1 <= i < |ms|
    ensures DigestUpTo(ms, digests, i)[i] == ms[i]
    ensures DigestUpTo(ms, digests, i + 1) == DigestUpTo(ms, digests, i)[i := Shrunk(ms[i], digests)]
  {
  }

  lemma DropStep(d: seq<Message>, j: nat)
    requires 1 <= j < |d|
    ensures DropTo(d, j + 1) == DropTo(d, j)[..1] + DropTo(d, j)[2..]
    ensures DropTo(d, j)[1] == d[j]
  {
  }

  lemma DropNone(d: seq<Message>)
    requires d != []
    ensures DropTo(d, 1) == d
  {
  }
}
