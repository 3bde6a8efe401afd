/**
 What `findset` of mpi/dgraph.cpp is meant to compute, without the matrix: a set of live
 variables, a correlation for every pair, and a greedy choice of weakly correlated ones.
 */
module Greedy {
  import opened Sequences
  import opened Division

  /** DGINVALIDENTRY, also the starting minimum of every search. */
  const INVALID := 1000.0
  const MAXVARLIST := 4096

  type Corr = (int, int) -> real

  function Abs(x: real): real { if x < 0.0 then -x else x }

  /** Symmetric, and no entry above 1 in magnitude, as correlations are. */
  ghost predicate IsCorr(c: Corr) { forall i, j :: IsCorrAt(c, i, j) }

  ghost predicate IsCorrAt(c: Corr, i: int, j: int) { c(i, j) == c(j, i) && Abs(c(i, j)) <= 1.0 }

  ghost function SumCorr(c: Corr, chosen: seq<int>, v: int): real {
    if chosen == [] then 0.0
    else SumCorr(c, chosen[..|chosen| - 1], v) + Abs(c(chosen[|chosen| - 1], v))
  }

  /** (i, j) is a live pair of least |corr|, and the lexicographically first of those. */
  ghost predicate IsFirstPair(c: Corr, live: set<int>, i: int, j: int) {
    && i in live && j in live && i < j
    && forall a, b | a in live && b in live && a < b ::
         Abs(c(i, j)) < Abs(c(a, b)) || (Abs(c(i, j)) == Abs(c(a, b)) && (i < a || (i == a && j <= b)))
  }

  ghost predicate Candidate(c: Corr, live: set<int>, chosen: seq<int>, v: int) {
    v in live && v !in chosen && SumCorr(c, chosen, v) < INVALID
  }

  /** v is a live unchosen variable of least total |corr| to the chosen ones, and the least
      index of those. */
  ghost predicate IsNextPick(c: Corr, live: set<int>, chosen: seq<int>, v: int) {
    && Candidate(c, live, chosen, v)
    && forall w | w in live && w !in chosen ::
         SumCorr(c, chosen, v) < SumCorr(c, chosen, w) || (SumCorr(c, chosen, v) == SumCorr(c, chosen, w) && v <= w)
  }

  ghost predicate IsGreedy(c: Corr, live: set<int>, s: seq<int>) {
    var n := |s| - 1;
    if n < 1 then false
    else if n == 1 then IsFirstPair(c, live, s[0], s[1])
    else IsGreedy(c, live, s[..n]) && IsNextPick(c, live, s[..n], s[n])
  }

  /** How many variables a request for n asks for in effect: the pair comes before any test of
      n, and a positive n always enters the loop that adds a third. */
  function Target(n: int): nat { if n <= 0 then 2 else if n <= 3 then 3 else n }

  datatype Answer = Answer(status: int, vlist: seq<int>)

  /** The answer to `findset(n)` on the live set `live`. */
  ghost predicate IsAnswer(c: Corr, live: set<int>, n: int, a: Answer) {
    if |live| < 2 then a == Answer(-1, [])
    else
      && IsGreedy(c, live, a.vlist)
      && |a.vlist| <= Target(n)
      && (if |a.vlist| == Target(n) then a.status == 0
          else a.status == -1 && forall v :: !Candidate(c, live, a.vlist, v))
  }

  /** `Exit` is the call of exit(0) on an oversized request. */
  datatype Outcome = Exit | Done(answer: Answer)

  /** The outcome of `findset(n)` on the live set `live`. */
  ghost predicate IsOutcome(c: Corr, live: set<int>, n: int, r: Outcome) {
    if n > MAXVARLIST then r == Exit else r.Done? && IsAnswer(c, live, n, r.answer)
  }

  /** The program exits exactly on requests for more than 4096 variables. */
  lemma ExitIff(c: Corr, live: set<int>, n: int, r: Outcome)
    requires IsOutcome(c, live, n, r)
    ensures r == Exit <==> n > 4096
  {
  }

  // ---------------------------------------------------------------- what the answer is

  lemma {:induction false} SumBound(c: Corr, chosen: seq<int>, v: int)
    requires IsCorr(c)
    ensures 0.0 <= SumCorr(c, chosen, v) <= |chosen| as real
  {
    if chosen == [] {
    } else {
      var n := |chosen| - 1;
      SumBound(c, chosen[..n], v);
      assert IsCorrAt(c, chosen[n], v);
      assert |chosen| as real == n as real + 1.0;
    }
  }

  /** The sum has one term for each chosen variable. */
  lemma {:induction false} SumSplit(c: Corr, a: seq<int>, b: seq<int>, v: int)
    ensures SumCorr(c, a + b, v) == SumCorr(c, a, v) + SumCorr(c, b, v)
  {
    if b == [] {
      assert a + b == a;
    } else {
      var n := |b| - 1;
      SumSplit(c, a, b[..n], v);
      assert (a + b)[..|a| + n] == a + b[..n];
    }
  }

  /** Its terms are the magnitudes of the correlations. */
  lemma SumOne(c: Corr, u: int, v: int)
    ensures SumCorr(c, [], v) == 0.0
    ensures SumCorr(c, [u], v) == if c(u, v) < 0.0 then -c(u, v) else c(u, v)
  {
    assert SumCorr(c, [u][..0], v) == 0.0;
  }

  lemma SumTwo(c: Corr, s: int, t: int, v: int)
    ensures SumCorr(c, [s, t], v)
            == (if c(s, v) < 0.0 then -c(s, v) else c(s, v)) + (if c(t, v) < 0.0 then -c(t, v) else c(t, v))
  {
    SumSplit(c, [s], [t], v);
    SumOne(c, s, v);
    SumOne(c, t, v);
    assert [s] + [t] == [s, t];
  }

  /** The first two items of an answer, in the code's own terms: a live pair whose correlation has
      the least magnitude of all live pairs, the first of those in the order of the search. */
  lemma FirstTwo(c: Corr, live: set<int>, n: int, a: Answer)
    requires IsAnswer(c, live, n, a) && |live| >= 2
    ensures |a.vlist| >= 2
    ensures var i, j := a.vlist[0], a.vlist[1];
            && i in live && j in live && i < j
            && forall x, y | x in live && y in live && x < y ::
                 var m := if c(i, j) < 0.0 then -c(i, j) else c(i, j);
                 var k := if c(x, y) < 0.0 then -c(x, y) else c(x, y);
                 m < k || (m == k && (i < x || (i == x && j <= y)))
  {
    GreedyPrefix(c, live, a.vlist, 2);
    assert IsFirstPair(c, live, a.vlist[..2][0], a.vlist[..2][1]);
  }

  /** The third item: the live variable other than these two with the least sum of the two
      magnitudes, and the first of those. */
  lemma ThirdItem(c: Corr, live: set<int>, n: int, a: Answer)
    requires IsAnswer(c, live, n, a) && |a.vlist| >= 3
    ensures var s, t, v := a.vlist[0], a.vlist[1], a.vlist[2];
            && v in live && v != s && v != t
            && forall w | w in live && w != s && w != t ::
                 var m := (if c(s, v) < 0.0 then -c(s, v) else c(s, v)) + (if c(t, v) < 0.0 then -c(t, v) else c(t, v));
                 var k := (if c(s, w) < 0.0 then -c(s, w) else c(s, w)) + (if c(t, w) < 0.0 then -c(t, w) else c(t, w));
                 m < k || (m == k && v <= w)
  {
    var s, t, v := a.vlist[0], a.vlist[1], a.vlist[2];
    GreedyPrefix(c, live, a.vlist, 2);
    assert a.vlist[..2] == [s, t];
    SumTwo(c, s, t, v);
    forall w | w in live && w != s && w != t
      ensures SumCorr(c, [s, t], v) < SumCorr(c, [s, t], w) || (SumCorr(c, [s, t], v) == SumCorr(c, [s, t], w) && v <= w)
      ensures SumCorr(c, [s, t], w)
              == (if c(s, w) < 0.0 then -c(s, w) else c(s, w)) + (if c(t, w) < 0.0 then -c(t, w) else c(t, w))
    {
      SumTwo(c, s, t, w);
    }
  }

  /** Every later item: least total to all items before it, and the first of those. */
  lemma LaterItem(c: Corr, live: set<int>, n: int, a: Answer, k: nat)
    requires IsAnswer(c, live, n, a) && 2 <= k < |a.vlist|
    ensures var chosen, v := a.vlist[..k], a.vlist[k];
            && v in live && v !in chosen && SumCorr(c, chosen, v) < 1000.0
            && forall w | w in live && w !in chosen ::
                 SumCorr(c, chosen, v) < SumCorr(c, chosen, w)
                 || (SumCorr(c, chosen, v) == SumCorr(c, chosen, w) && v <= w)
  {
    GreedyPrefix(c, live, a.vlist, k);
  }

  /** Greedy picks are live and distinct. */
  lemma {:induction false} GreedyDistinct(c: Corr, live: set<int>, s: seq<int>)
    requires IsGreedy(c, live, s)
    ensures SetOf(s) <= live && |SetOf(s)| == |s|
  {
    var n := |s| - 1;
    if n == 1 {
      assert SetOf(s) == {s[0], s[1]};
    } else {
      var t := s[..n];
      GreedyDistinct(c, live, t);
      assert s == t + [s[n]];
      SetOfAppend(t, s[n]);
    }
  }

  /** A greedy sequence starts with a greedy sequence of every length. */
  lemma {:induction false} GreedyPrefix(c: Corr, live: set<int>, s: seq<int>, k: nat)
    requires IsGreedy(c, live, s) && 2 <= k <= |s|
    ensures IsGreedy(c, live, s[..k])
    ensures k < |s| ==> IsNextPick(c, live, s[..k], s[k])
  {
    var n := |s| - 1;
    if k == |s| {
      assert s[..k] == s;
    } else if k == n {
    } else {
      GreedyPrefix(c, live, s[..n], k);
      assert s[..n][..k] == s[..k];
    }
  }

  /** There is one greedy sequence of each length. */
  lemma {:induction false} GreedyUnique(c: Corr, live: set<int>, s: seq<int>, t: seq<int>)
    requires IsGreedy(c, live, s) && IsGreedy(c, live, t) && |s| == |t|
    ensures s == t
  {
    var n := |s| - 1;
    if n > 1 {
      GreedyUnique(c, live, s[..n], t[..n]);
      NextPickUnique(c, live, s[..n], s[n], t[n]);
      assert s == s[..n] + [s[n]] && t == t[..n] + [t[n]];
    } else {
      assert s == [s[0], s[1]] && t == [t[0], t[1]];
    }
  }

  lemma NextPickUnique(c: Corr, live: set<int>, chosen: seq<int>, v: int, w: int)
    requires IsNextPick(c, live, chosen, v) && IsNextPick(c, live, chosen, w)
    ensures v == w
  {
  }

  /** `findset` is a function of the live set, the correlations and n. */
  lemma AnswerUnique(c: Corr, live: set<int>, n: int, a: Answer, b: Answer)
    requires IsAnswer(c, live, n, a) && IsAnswer(c, live, n, b)
    ensures a == b
  {
    if |live| >= 2 {
      if |a.vlist| <= |b.vlist| {
        ShorterIsEqual(c, live, n, a, b);
      } else {
        ShorterIsEqual(c, live, n, b, a);
      }
    }
  }

  lemma ShorterIsEqual(c: Corr, live: set<int>, n: int, a: Answer, b: Answer)
    requires IsAnswer(c, live, n, a) && IsAnswer(c, live, n, b) && |live| >= 2
    requires |a.vlist| <= |b.vlist|
    ensures a == b
  {
    var k := |a.vlist|;
    GreedyPrefix(c, live, b.vlist, k);
    GreedyUnique(c, live, a.vlist, b.vlist[..k]);
    assert b.vlist[..k] == a.vlist;
    assert k == |b.vlist| ==> b.vlist == a.vlist;
  }

  /** Whatever n is, the search goes on to 1000 variables as long as there are any. */
  lemma AnswerAtLeast(c: Corr, live: set<int>, n: int, a: Answer)
    requires IsCorr(c) && IsAnswer(c, live, n, a) && |live| >= 2
    ensures |a.vlist| >= Target(n) || |a.vlist| >= |live| || |a.vlist| >= 1000
  {
    GreedyDistinct(c, live, a.vlist);
    if |a.vlist| < Target(n) && |a.vlist| < |live| {
      var v := Missing(SetOf(a.vlist), live);
      SumBound(c, a.vlist, v);
      assert !Candidate(c, live, a.vlist, v);
    }
  }

  /** While at most 1000 are asked for, only the lack of variables can stop the search. */
  lemma AnswerSize(c: Corr, live: set<int>, n: int, a: Answer)
    requires IsCorr(c) && IsAnswer(c, live, n, a) && Target(n) <= 1000
    ensures SetOf(a.vlist) <= live && |SetOf(a.vlist)| == |a.vlist|
    ensures |a.vlist| == (if |live| < 2 then 0 else if |live| < Target(n) then |live| else Target(n))
    ensures a.status == (if |live| < Target(n) then -1 else 0)
  {
    if |live| < 2 {
      assert SetOf(a.vlist) == {};
    } else {
      GreedyDistinct(c, live, a.vlist);
      SubsetSize(SetOf(a.vlist), live);
      AnswerAtLeast(c, live, n, a);
    }
  }

  lemma Missing(x: set<int>, y: set<int>) returns (v: int)
    requires x <= y && |x| < |y|
    ensures v in y && v !in x
  {
    if w :| w in y && w !in x {
      v := w;
    } else {
      forall w | w in y ensures w in x {}
      SubsetSize(y, x);
    }
  }

  // ---------------------------------------------------------------- repeated requests

  /** The variables left after a sequence of answers. */
  ghost function LiveAfter(live: set<int>, answers: seq<Answer>): set<int> {
    var k := |answers| - 1;
    if k < 0 then live else LiveAfter(live, answers[..k]) - SetOf(answers[k].vlist)
  }

  /** `answers` is what repeated calls for n variables return. */
  ghost predicate IsDispatch(c: Corr, live: set<int>, n: int, answers: seq<Answer>) {
    var k := |answers| - 1;
    if k < 0 then true
    else IsDispatch(c, live, n, answers[..k]) && IsAnswer(c, LiveAfter(live, answers[..k]), n, answers[k])
  }

  /** What is left is what no answer holds. */
  lemma {:induction false} LeftIs(live: set<int>, answers: seq<Answer>, v: int)
    ensures v in LiveAfter(live, answers) <==> v in live && forall k | 0 <= k < |answers| :: v !in answers[k].vlist
  {
    if answers == [] {
    } else {
      var n := |answers| - 1;
      LeftIs(live, answers[..n], v);
      assert v in SetOf(answers[n].vlist) <==> v in answers[n].vlist;
      assert forall k | 0 <= k < n :: answers[..n][k] == answers[k];
    }
  }

  lemma DispatchAppend(c: Corr, live: set<int>, n: int, answers: seq<Answer>, a: Answer)
    requires IsDispatch(c, live, n, answers) && IsAnswer(c, LiveAfter(live, answers), n, a)
    ensures IsDispatch(c, live, n, answers + [a])
    ensures LiveAfter(live, answers + [a]) == LiveAfter(live, answers) - SetOf(a.vlist)
  {
    assert (answers + [a])[..|answers|] == answers;
  }

  lemma {:induction false} DispatchPrefix(c: Corr, live: set<int>, n: int, answers: seq<Answer>, k: nat)
    requires IsDispatch(c, live, n, answers) && k < |answers|
    ensures IsDispatch(c, live, n, answers[..k])
    ensures IsAnswer(c, LiveAfter(live, answers[..k]), n, answers[k])
  {
    var m := |answers| - 1;
    if k == m {
    } else {
      DispatchPrefix(c, live, n, answers[..m], k);
      assert answers[..m][..k] == answers[..k];
    }
  }

  /** Each full answer takes Target(n) variables away. */
  lemma {:induction false} DispatchLeft(c: Corr, live: set<int>, n: int, answers: seq<Answer>)
    requires IsCorr(c) && IsDispatch(c, live, n, answers) && Target(n) <= 1000
    requires |answers| <= |live| / Target(n)
    ensures |LiveAfter(live, answers)| == |live| - |answers| * Target(n)
  {
    if answers == [] {
    } else {
      var k := |answers| - 1;
      DispatchLeft(c, live, n, answers[..k]);
      Quotient(|live|, Target(n), k);
      var left := LiveAfter(live, answers[..k]);
      AnswerSize(c, left, n, answers[k]);
      assert |left - SetOf(answers[k].vlist)| == |left| - |SetOf(answers[k].vlist)|;
      assert |answers| * Target(n) == k * Target(n) + Target(n);
    }
  }

  /** Repeated requests for n on F live variables, F = |live|: F / Target(n) full answers, then
      one failure that takes what is left unless that is a single variable. */
  lemma DispatchSizes(c: Corr, live: set<int>, n: int, answers: seq<Answer>)
    requires IsCorr(c) && Target(n) <= 1000
    requires IsDispatch(c, live, n, answers) && |answers| == |live| / Target(n) + 1
    ensures var f := |live| / Target(n); var rem := |live| % Target(n);
            && (forall k | 0 <= k < f :: answers[k].status == 0 && |answers[k].vlist| == Target(n))
            && answers[f].status == -1
            && |answers[f].vlist| == (if rem == 1 then 0 else rem)
            && |LiveAfter(live, answers)| == (if rem == 1 then 1 else 0)
  {
    var f := |live| / Target(n);
    forall k | 0 <= k <= f
      ensures k < f ==> answers[k].status == 0 && |answers[k].vlist| == Target(n)
    {
      AnswerAt(c, live, n, answers, k);
    }
    AnswerAt(c, live, n, answers, f);
    var left := LiveAfter(live, answers[..f]);
    assert |left - SetOf(answers[f].vlist)| == |left| - |SetOf(answers[f].vlist)|;
  }

  lemma AnswerAt(c: Corr, live: set<int>, n: int, answers: seq<Answer>, k: nat)
    requires IsCorr(c) && Target(n) <= 1000
    requires IsDispatch(c, live, n, answers) && k < |answers| && k <= |live| / Target(n)
    ensures var left := LiveAfter(live, answers[..k]);
            && SetOf(answers[k].vlist) <= left && |SetOf(answers[k].vlist)| == |answers[k].vlist|
            && if k < |live| / Target(n)
               then answers[k].status == 0 && |answers[k].vlist| == Target(n)
               else |left| == |live| % Target(n) && answers[k].status == -1
                    && |answers[k].vlist| == (if |left| == 1 then 0 else |left|)
  {
    DispatchPrefix(c, live, n, answers, k);
    DispatchLeft(c, live, n, answers[..k]);
    Quotient(|live|, Target(n), k);
    AnswerSize(c, LiveAfter(live, answers[..k]), n, answers[k]);
  }

  /** Requests repeated until the first failure are f + 1 requests, f = F / Target(n). */
  lemma DispatchLength(c: Corr, live: set<int>, n: int, answers: seq<Answer>, f: nat)
    requires IsCorr(c) && Target(n) <= 1000 && IsDispatch(c, live, n, answers) && |answers| > 0
    requires forall k | 0 <= k < |answers| :: (answers[k].status != 0 <==> k == |answers| - 1)
    requires f == |live| / Target(n)
    ensures |answers| == f + 1
  {
    var k := if |answers| <= f then |answers| - 1 else f;
    AnswerAt(c, live, n, answers, k);
    assert answers[k].status != 0 <==> k == |answers| - 1;
  }

  /** Every answer is made of variables that were live and that no other answer holds. */
  lemma {:induction false} DispatchDisjoint(c: Corr, live: set<int>, n: int, answers: seq<Answer>, i: nat, j: nat)
    requires IsDispatch(c, live, n, answers) && i < j < |answers|
    ensures SetOf(answers[i].vlist) !! SetOf(answers[j].vlist)
    ensures SetOf(answers[j].vlist) <= live
  {
    DispatchPrefix(c, live, n, answers, j);
    if answers[j].vlist != [] { GreedyDistinct(c, LiveAfter(live, answers[..j]), answers[j].vlist); }
    LiveShrinks(live, answers[..j], i);
  }

  lemma {:induction false} LiveShrinks(live: set<int>, answers: seq<Answer>, i: nat)
    requires i < |answers|
    ensures LiveAfter(live, answers) <= live
    ensures LiveAfter(live, answers) !! SetOf(answers[i].vlist)
  {
    var k := |answers| - 1;
    if k == 0 {
    } else {
      LiveShrinks(live, answers[..k], if i < k then i else 0);
    }
  }

  // ---------------------------------------------------------------- when n is what you get

  ghost predicate Full(r: Outcome, n: int) { r.Done? && r.answer.status == 0 && |r.answer.vlist| == n }

  /** A request for n is honoured wherever n variables are live. */
  ghost predicate Honours(n: int) {
    forall c: Corr, live: set<int>, r: Outcome ::
      IsCorr(c) && |live| >= n && IsOutcome(c, live, n, r) ==> Full(r, n)
  }

  /** Exactly the requests for 3 to 1000 variables are honoured. */
  lemma HonouredIff(n: int)
    ensures Honours(n) <==> 3 <= n <= 1000
  {
    if 3 <= n <= 1000 {
      forall c: Corr, live: set<int>, r: Outcome | IsCorr(c) && |live| >= n && IsOutcome(c, live, n, r)
        ensures Full(r, n)
      {
        AnswerSize(c, live, n, r.answer);
      }
    } else {
      var live, r := NotHonoured(n);
      assert IsCorr(Ones()) && |live| >= n && IsOutcome(Ones(), live, n, r) && !Full(r, n);
    }
  }

  /** Fully correlated variables on which a request outside 3 .. 1000 is not honoured. */
  lemma NotHonoured(n: int) returns (live: set<int>, r: Outcome)
    requires n < 3 || n > 1000
    ensures IsCorr(Ones()) && |live| >= n && IsOutcome(Ones(), live, n, r) && !Full(r, n)
  {
    if n < 2 {
      live, r := if n == 1 then {0} else {}, Done(Answer(-1, []));
    } else if n == 2 {
      TwoLeft();
      live, r := {0, 1}, Done(Answer(-1, [0, 1]));
    } else if n <= MAXVARLIST {
      TooMany(n);
      live, r := SetOf(UpTo(n)), Done(Answer(-1, UpTo(1000)));
    } else {
      UpToIs(n);
      live, r := SetOf(UpTo(n)), Exit;
    }
  }

  /** Requests for fewer than three: none or a negative number is answered with a pair, one or two
      with three variables where there are three. */
  lemma SmallRequests(c: Corr, live: set<int>, n: int, a: Answer)
    requires IsCorr(c) && IsAnswer(c, live, n, a) && n < 3
    ensures n <= 0 && |live| >= 2 ==> |a.vlist| == 2 && a.status == 0
    ensures n >= 1 && |live| >= 3 ==> |a.vlist| == 3 && a.status == 0
    ensures n >= 1 && |live| == 2 ==> |a.vlist| == 2 && a.status == -1
  {
    AnswerSize(c, live, n, a);
  }

  /** Every pair fully correlated. */
  ghost function Ones(): Corr { (i: int, j: int) => 1.0 }

  /** With two variables left, a request for two returns both but reports failure. */
  lemma TwoLeft()
    ensures IsCorr(Ones()) && |{0, 1}| >= 2 && IsAnswer(Ones(), {0, 1}, 2, Answer(-1, [0, 1]))
  {
    assert IsFirstPair(Ones(), {0, 1}, 0, 1);
    assert IsGreedy(Ones(), {0, 1}, [0, 1]);
  }

  ghost function UpTo(n: nat): seq<int> { if n == 0 then [] else UpTo(n - 1) + [n - 1] }

  lemma {:induction false} UpToHas(n: nat)
    ensures |UpTo(n)| == n
    ensures forall v :: v in UpTo(n) <==> 0 <= v < n
  {
    if n == 0 {
    } else {
      UpToHas(n - 1);
    }
  }

  lemma {:induction false} UpToIs(n: nat)
    ensures |UpTo(n)| == n
    ensures forall v :: v in UpTo(n) <==> 0 <= v < n
    ensures |SetOf(UpTo(n))| == n && forall v :: v in SetOf(UpTo(n)) <==> 0 <= v < n
  {
    UpToHas(n);
    if n == 0 {
      assert SetOf(UpTo(0)) == {};
    } else {
      UpToIs(n - 1);
      SetOfAppend(UpTo(n - 1), n - 1);
    }
  }

  lemma {:induction false} OnesSum(s: seq<int>, v: int)
    ensures SumCorr(Ones(), s, v) == |s| as real
  {
    if s == [] {
    } else {
      var n := |s| - 1;
      OnesSum(s[..n], v);
      assert |s| as real == n as real + 1.0;
    }
  }

  lemma OnesNext(live: set<int>, k: nat)
    requires k in live && (forall w | w in live :: 0 <= w) && k < 1000
    ensures IsNextPick(Ones(), live, UpTo(k), k)
  {
    UpToIs(k);
    OnesSum(UpTo(k), k);
    forall w | w in live && w !in UpTo(k)
      ensures SumCorr(Ones(), UpTo(k), k) == SumCorr(Ones(), UpTo(k), w) && k <= w
    {
      OnesSum(UpTo(k), w);
    }
  }

  /** Among fully correlated variables the greedy order is the order of the indices. */
  lemma {:induction false} OnesGreedy(live: set<int>, k: nat)
    requires (forall w | w in live :: 0 <= w) && (forall w | 0 <= w < k :: w in live)
    requires 2 <= k <= 1000
    ensures IsGreedy(Ones(), live, UpTo(k))
  {
    var s := UpTo(k);
    UpToIs(k);
    if k == 2 {
      assert s == UpTo(1) + [1] == [0, 1];
      assert IsFirstPair(Ones(), live, 0, 1);
    } else {
      OnesGreedy(live, k - 1);
      OnesNext(live, k - 1);
      UpToIs(k - 1);
      assert s[..k - 1] == UpTo(k - 1) && s[k - 1] == k - 1;
    }
  }

  /** More than 1000 fully correlated variables: the sum of correlations reaches the sentinel
      and the search stops at 1000.  By `AnswerAtLeast` no input stops it earlier. */
  lemma TooMany(n: int)
    requires 1000 < n <= MAXVARLIST
    ensures var live := SetOf(UpTo(n));
            IsCorr(Ones()) && |live| >= n && IsOutcome(Ones(), live, n, Done(Answer(-1, UpTo(1000))))
  {
    UpToIs(n);
    UpToIs(1000);
    OnesGreedy(SetOf(UpTo(n)), 1000);
    forall v ensures !Candidate(Ones(), SetOf(UpTo(n)), UpTo(1000), v) { OnesSum(UpTo(1000), v); }
  }
}
