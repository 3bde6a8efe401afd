/**
 The correlation graph of mpi/dgraph.cpp: an adjacency matrix with a sentinel, overwritten in
 place by `findset` and refilled from its copy by `recoverdgraph`.
 */
module Dgraph {
  import opened Sequences
  import opened Greedy

  class CorrGraph {
    const features: nat
    const adj: array2<real>
    const adjcopy: array2<real>
    const workmem: array<real>

    /** The correlations the matrix was filled with, and the variables not yet handed out. */
    ghost var corr: Corr
    ghost var live: set<int>

    ghost predicate Shape()
      reads this
    {
      && adj.Length0 == adj.Length1 == adjcopy.Length0 == adjcopy.Length1 == workmem.Length == features
      && adj != adjcopy
      && IsCorr(corr)
      && forall v | v in live :: 0 <= v < features
    }

    ghost predicate Copied()
      requires Shape()
      reads this, adjcopy
    {
      forall i, j | 0 <= i < features && 0 <= j < features ::
        adjcopy[i, j] == if i != j then corr(i, j) else INVALID
    }

    /** The entries off the diagonal in the given rows and columns are the saved ones, and all
        others are invalid. */
    ghost predicate Cells(rows: set<int>, cols: set<int>)
      requires Shape()
      reads this, adj
    {
      forall i, j | 0 <= i < features && 0 <= j < features ::
        adj[i, j] == if i != j && i in rows && j in cols then corr(i, j) else INVALID
    }

    /** An entry is valid exactly when its row and its column are different live variables. */
    ghost predicate Valid()
      reads this, adj, adjcopy
    {
      Shape() && Copied() && Cells(live, live)
    }

    /** `initdgraph` */
    constructor (features: nat)
      ensures this.features == features && Shape() && live == {} && fresh(adj) && fresh(adjcopy) && fresh(workmem)
      ensures Cells({}, {})
    {
      this.features := features;
      adj := new real[features, features]((i, j) => INVALID);
      adjcopy := new real[features, features]((i, j) => 0.0);
      workmem := new real[features](i => 0.0);
      corr := (i, j) => 0.0;
      live := {};
    }

    /** `getcorrinfo`; `pair(i, j)` stands for the correlation of columns i and j. */
    method GetCorrInfo(pair: Corr)
      requires Shape() && live == {} && Cells({}, {})
      requires forall i, j | 0 <= i < j < features :: Abs(pair(i, j)) <= 1.0
      modifies this`corr, this`live, adj, adjcopy
      ensures Valid()
      ensures forall v :: v in live <==> 0 <= v < features
      ensures forall i, j | 0 <= i < j < features :: corr(i, j) == pair(i, j)
    {
      FillUpper(pair);
      FillLower(pair);
      CopyAll();
      corr := Symmetric(pair, features);
      live := SetOf(UpTo(features));
      UpToIs(features);
      SymmetricIsCorr(pair, features);
    }

    method FillUpper(pair: Corr)
      requires Shape() && Cells({}, {})
      modifies adj
      ensures forall a, b | 0 <= a < features && 0 <= b < features ::
                adj[a, b] == if a < b then pair(a, b) else INVALID
    {
      var i := 0;
      while i < features - 1
        invariant 0 <= i <= features
        invariant features > 0 ==> i <= features - 1
        invariant forall a, b | 0 <= a < features && 0 <= b < features ::
                    adj[a, b] == if a < b && a < i then pair(a, b) else INVALID
      {
        for j := i + 1 to features
          invariant forall a, b | 0 <= a < features && 0 <= b < features ::
                      adj[a, b] == if a < b && (a < i || (a == i && b < j)) then pair(a, b) else INVALID
        {
          adj[i, j] := pair(i, j);
        }
        i := i + 1;
      }
    }

    method FillLower(pair: Corr)
      requires Shape()
      requires forall a, b | 0 <= a < features && 0 <= b < features ::
                 adj[a, b] == if a < b then pair(a, b) else INVALID
      modifies adj
      ensures forall a, b | 0 <= a < features && 0 <= b < features ::
                adj[a, b] == if a < b then pair(a, b) else if b < a then pair(b, a) else INVALID
    {
      var i := 0;
      while i < features - 1
        invariant 0 <= i <= features
        invariant features > 0 ==> i <= features - 1
        invariant forall a, b | 0 <= a < features && 0 <= b < features ::
                    adj[a, b] == if a < b then pair(a, b) else if b < a && b < i then pair(b, a) else INVALID
      {
        for j := i + 1 to features
          invariant forall a, b | 0 <= a < features && 0 <= b < features ::
                      adj[a, b] == if a < b then pair(a, b)
                                   else if b < a && (b < i || (b == i && a < j)) then pair(b, a)
                                   else INVALID
        {
          adj[j, i] := adj[i, j];
        }
        adj[i, i] := INVALID;
        i := i + 1;
      }
    }

    method CopyAll()
      requires Shape()
      modifies adjcopy
      ensures forall a, b | 0 <= a < features && 0 <= b < features :: adjcopy[a, b] == adj[a, b]
    {
      for i := 0 to features
        invariant forall a, b | 0 <= a < i && 0 <= b < features :: adjcopy[a, b] == adj[a, b]
      {
        for j := 0 to features
          invariant forall a, b | 0 <= a < i && 0 <= b < features :: adjcopy[a, b] == adj[a, b]
          invariant forall b | 0 <= b < j :: adjcopy[i, b] == adj[i, b]
        {
          adjcopy[i, j] := adj[i, j];
        }
      }
    }

    /** `recoverdgraph`: every variable is live again and the matrix is as it was filled. */
    method Recover()
      requires Shape() && Copied()
      modifies this`live, adj
      ensures Valid() && corr == old(corr)
      ensures forall v :: v in live <==> 0 <= v < features
      ensures forall a, b | 0 <= a < features && 0 <= b < features :: adj[a, b] == adjcopy[a, b]
    {
      for i := 0 to features
        invariant forall a, b | 0 <= a < i && 0 <= b < features :: adj[a, b] == adjcopy[a, b]
      {
        for j := 0 to features
          invariant forall a, b | 0 <= a < i && 0 <= b < features :: adj[a, b] == adjcopy[a, b]
          invariant forall b | 0 <= b < j :: adj[i, b] == adjcopy[i, b]
        {
          adj[i, j] := adjcopy[i, j];
        }
      }
      live := SetOf(UpTo(features));
      UpToIs(features);
    }

    // ---------------------------------------------------------------- findset

    /** `diminishgraphcol`; what the column held before does not matter. */
    method DiminishCol(col: int, ghost rows: set<int>, ghost cols: set<int>)
      requires Shape() && 0 <= col < features
      requires forall i, j | 0 <= i < features && 0 <= j < features && j != col ::
                 adj[i, j] == if i != j && i in rows && j in cols then corr(i, j) else INVALID
      modifies adj
      ensures Cells(rows, cols - {col})
    {
      for row := 0 to features
        invariant forall i, j | 0 <= i < features && 0 <= j < features && j != col ::
                    adj[i, j] == if i != j && i in rows && j in cols then corr(i, j) else INVALID
        invariant forall i | 0 <= i < row :: adj[i, col] == INVALID
      {
        adj[row, col] := INVALID;
      }
    }

    /** `diminishgraphrow` */
    method DiminishRow(row: int, ghost rows: set<int>, ghost cols: set<int>)
      requires Shape() && Cells(rows, cols) && 0 <= row < features
      modifies adj
      ensures Cells(rows - {row}, cols)
    {
      for col := 0 to features
        invariant forall i, j | 0 <= i < features && 0 <= j < features ::
                    adj[i, j] == if i == row && j < col then INVALID
                                 else if i != j && i in rows && j in cols then corr(i, j) else INVALID
      {
        adj[row, col] := INVALID;
      }
    }

    /** The search for the first pair. */
    method FirstPair() returns (mi: int, mj: int, min: real)
      requires Valid()
      ensures if min == INVALID then forall a, b | a in live && b in live :: a == b
              else IsFirstPair(corr, live, mi, mj)
    {
      mi, mj, min := 0, 0, INVALID;
      var i := 0;
      while i < features - 1
        invariant 0 <= i <= features
        invariant features > 0 ==> i <= features - 1
        invariant BestBefore(corr, live, i, i + 1, mi, mj, min)
      {
        for j := i + 1 to features
          invariant BestBefore(corr, live, i, j, mi, mj, min)
        {
          assert IsCorrAt(corr, i, j);
          if adj[i, j] == INVALID {
          } else if Abs(adj[i, j]) < min {
            mi, mj, min := i, j, Abs(adj[i, j]);
          }
        }
        i := i + 1;
      }
    }

    /** The search for the next variable.  Only the row of the first item is scanned: with only
        columns invalidated so far, that row is valid exactly at the live unchosen variables. */
    method NextPick(vlist: seq<int>) returns (v: int, min: real)
      requires Shape() && Cells(live, live - SetOf(vlist))
      requires |vlist| >= 2 && forall k | 0 <= k < |vlist| :: vlist[k] in live
      modifies workmem
      ensures if min == INVALID then forall w :: !Candidate(corr, live, vlist, w)
              else IsNextPick(corr, live, vlist, v)
    {
      var t := vlist[0];
      for j := 0 to features
        invariant forall b | 0 <= b < j :: workmem[b] == INVALID
      {
        workmem[j] := INVALID;
      }
      for j := 0 to features
        invariant forall b | 0 <= b < features ::
                    workmem[b] == if b < j then Total(corr, live, vlist, b) else INVALID
      {
        assert IsCorrAt(corr, t, j);
        if adj[t, j] == INVALID {
        } else {
          var sum := RowSum(vlist, j);
          workmem[j] := sum;
        }
      }
      v, min := -1, INVALID;
      for j := 0 to features
        invariant min == INVALID || (0 <= v < j && min == workmem[v] < INVALID)
        invariant forall b | 0 <= b < j ::
                    workmem[b] >= min && (min < INVALID && workmem[b] == min ==> v <= b)
      {
        if min > workmem[j] {
          min, v := workmem[j], j;
        }
      }
      forall w | w in live && w !in vlist
        ensures min <= SumCorr(corr, vlist, w)
        ensures min < INVALID && SumCorr(corr, vlist, w) == min ==> v <= w
      {
        assert workmem[w] == Total(corr, live, vlist, w);
      }
    }

    /** The inner loop over the chosen rows. */
    method RowSum(vlist: seq<int>, j: int) returns (sum: real)
      requires Shape() && Cells(live, live - SetOf(vlist))
      requires 0 <= j < features && j in live && j !in vlist
      requires forall k | 0 <= k < |vlist| :: vlist[k] in live
      ensures sum == SumCorr(corr, vlist, j)
    {
      sum := 0.0;
      for k := 0 to |vlist|
        invariant sum == SumCorr(corr, vlist[..k], j)
      {
        var u := vlist[k];
        assert vlist[..k + 1][..k] == vlist[..k];
        sum := sum + Abs(adj[u, j]);
      }
      assert vlist[..|vlist|] == vlist;
    }

    /** `findset` */
    method FindSet(n: int) returns (r: Outcome)
      requires Valid()
      modifies this`live, adj, workmem
      ensures Valid() && corr == old(corr)
      ensures IsOutcome(corr, old(live), n, r)
      ensures r.Exit? ==> live == old(live)
      ensures r.Done? ==>
                && |r.answer.vlist| <= MAXVARLIST
                && live == old(live) - SetOf(r.answer.vlist)
                && forall v :: v in live <==> v in old(live) && v !in r.answer.vlist
    {
      if MAXVARLIST < n {
        return Exit;
      }
      var mi, mj, min := FirstPair();
      if min == INVALID {
        AtMostOne(live);
        return Done(Answer(-1, []));
      }
      PairSize(live, mi, mj);
      var answer := Choose(mi, mj, n);
      return Done(answer);
    }

    /** `findset` once the first pair is known. */
    method Choose(mi: int, mj: int, n: int) returns (answer: Answer)
      requires Valid() && IsFirstPair(corr, live, mi, mj) && |live| >= 2 && n <= MAXVARLIST
      modifies this`live, adj, workmem
      ensures Valid() && corr == old(corr)
      ensures IsAnswer(corr, old(live), n, answer) && |answer.vlist| <= MAXVARLIST
      ensures live == old(live) - SetOf(answer.vlist)
    {
      RemovePair(mi, mj);
      var vlist, status := Extend([mi, mj], n);
      Drop(vlist);
      return Answer(status, vlist);
    }

    /** The chosen variables are no longer live. */
    method Drop(vlist: seq<int>)
      requires Shape() && Copied() && Cells(live, live - SetOf(vlist)) && IsGreedy(corr, live, vlist)
      modifies this`live, adj
      ensures Valid() && live == old(live) - SetOf(vlist)
    {
      GreedyLive(corr, live, vlist);
      Retire(vlist);
      live := live - SetOf(vlist);
    }

    /** The columns of the first pair are invalidated. */
    method RemovePair(mi: int, mj: int)
      requires Shape() && Cells(live, live) && mi in live && mj in live && mi != mj
      modifies adj
      ensures Cells(live, live - SetOf([mi, mj]))
    {
      DiminishCol(mi, live, live);
      DiminishCol(mj, live, live - {mi});
      adj[mi, mj] := INVALID;
      assert live - SetOf([mi, mj]) == live - {mi} - {mj};
    }

    /** One iteration as mpi/dgraph.hpp describes it: sets are requested until the graph is
        depleted, then the graph is recovered. */
    method Iterate(n: int) returns (answers: seq<Answer>)
      requires Valid() && n <= MAXVARLIST
      modifies this`live, adj, workmem
      ensures IsDispatch(corr, old(live), n, answers)
      ensures |answers| > 0 && FailsLast(answers, true)
      ensures Valid() && corr == old(corr) && forall v :: v in live <==> 0 <= v < features
    {
      answers := [];
      var depleted := false;
      while !depleted
        invariant Valid() && corr == old(corr)
        invariant IsDispatch(corr, old(live), n, answers) && live == LiveAfter(old(live), answers)
        invariant (depleted ==> |answers| > 0) && FailsLast(answers, depleted)
        decreases !depleted, |live|
      {
        ghost var was := live;
        var r := FindSet(n);
        depleted := r.answer.status != 0;
        if !depleted { Shrinks(corr, was, n, r.answer); }
        FailsAppend(answers, r.answer);
        DispatchAppend(corr, old(live), n, answers, r.answer);
        answers := answers + [r.answer];
      }
      Recover();
    }

    /** The loop that extends the pair; `remain` is n throughout. */
    method Extend(pair: seq<int>, n: int) returns (vlist: seq<int>, status: int)
      requires Shape() && |pair| == 2 && IsGreedy(corr, live, pair) && Cells(live, live - SetOf(pair))
      modifies adj, workmem
      ensures IsGreedy(corr, live, vlist) && Cells(live, live - SetOf(vlist))
      ensures |vlist| <= Target(n)
      ensures if |vlist| == Target(n) then status == 0
              else status == -1 && forall v :: !Candidate(corr, live, vlist, v)
    {
      vlist, status := pair, 0;
      var remain := n;
      while remain > 0
        invariant remain == n && (|vlist| == 2 || |vlist| < n)
        invariant IsGreedy(corr, live, vlist) && Cells(live, live - SetOf(vlist))
        decreases |live| - |vlist|
      {
        GreedyLive(corr, live, vlist);
        var v, min := NextPick(vlist);
        if min == INVALID {
          status := -1;
          break;
        }
        adj[vlist[0], v] := INVALID;
        DiminishCol(v, live, live - SetOf(vlist));
        SetOfAppend(vlist, v);
        assert live - SetOf(vlist) - {v} == live - SetOf(vlist + [v]);
        assert (vlist + [v])[..|vlist|] == vlist;
        vlist := vlist + [v];
        GreedyLive(corr, live, vlist);
        if |vlist| >= n { break; }
      }
    }

    /** The final loop, which removes rows and columns of the chosen variables. */
    method Retire(vlist: seq<int>)
      requires Shape() && Cells(live, live - SetOf(vlist))
      requires forall k | 0 <= k < |vlist| :: vlist[k] in live
      modifies adj
      ensures Cells(live - SetOf(vlist), live - SetOf(vlist))
    {
      assert live - SetOf([]) == live;
      for k := 0 to |vlist|
        invariant Cells(live - SetOf(vlist[..k]), live - SetOf(vlist))
      {
        ghost var rows, cols := live - SetOf(vlist[..k]), live - SetOf(vlist);
        DiminishCol(vlist[k], rows, cols);
        DiminishRow(vlist[k], rows, cols - {vlist[k]});
        SetOfAppend(vlist[..k], vlist[k]);
        assert vlist[..k + 1] == vlist[..k] + [vlist[k]];
        assert cols - {vlist[k]} == cols;
        assert rows - {vlist[k]} == live - SetOf(vlist[..k + 1]);
      }
      assert vlist[..|vlist|] == vlist;
    }
  }

  /** No answer reports failure, except the last one if `last` holds. */
  ghost predicate FailsLast(answers: seq<Answer>, last: bool) {
    forall k | 0 <= k < |answers| :: (answers[k].status != 0 <==> last && k == |answers| - 1)
  }

  /** What one iteration over F live variables hands out when 3 to 1000 are asked for: F / n sets
      of n, then the F % n variables left over unless that is one; all sets disjoint, and all but
      at most one variable covered. */
  lemma IterationOutcome(c: Corr, live: set<int>, n: nat, answers: seq<Answer>, f: nat, rem: nat)
    requires IsCorr(c) && 3 <= n <= 1000 && IsDispatch(c, live, n, answers)
    requires |answers| > 0 && FailsLast(answers, true)
    requires f == |live| / n && rem == |live| % n
    ensures |answers| == f + 1
    ensures forall k | 0 <= k < f :: answers[k].status == 0 && |answers[k].vlist| == n
    ensures answers[f].status == -1 && |answers[f].vlist| == if rem == 1 then 0 else rem
    ensures AllDisjoint(answers)
    ensures |LiveAfter(live, answers)| == if rem == 1 then 1 else 0
  {
    DispatchLength(c, live, n, answers, f);
    DispatchSizes(c, live, n, answers);
    DisjointAnswers(c, live, n, answers);
  }

  ghost predicate AllDisjoint(answers: seq<Answer>) {
    forall i, j | 0 <= i < j < |answers| :: Apart(answers[i].vlist, answers[j].vlist)
  }

  predicate Apart(s: seq<int>, t: seq<int>) { forall k | 0 <= k < |s| :: s[k] !in t }

  lemma DisjointAnswers(c: Corr, live: set<int>, n: int, answers: seq<Answer>)
    requires IsDispatch(c, live, n, answers)
    ensures AllDisjoint(answers)
  {
    forall i, j | 0 <= i < j < |answers| ensures Apart(answers[i].vlist, answers[j].vlist) {
      DispatchDisjoint(c, live, n, answers, i, j);
      forall k | 0 <= k < |answers[i].vlist| ensures answers[i].vlist[k] !in answers[j].vlist {
        assert answers[i].vlist[k] in SetOf(answers[i].vlist);
      }
    }
  }

  lemma FailsAppend(answers: seq<Answer>, a: Answer)
    requires FailsLast(answers, false)
    ensures FailsLast(answers + [a], a.status != 0)
  {
  }

  /** What the search works with for variable b. */
  ghost function Total(c: Corr, live: set<int>, vlist: seq<int>, b: int): real {
    if b in live && b !in vlist then SumCorr(c, vlist, b) else INVALID
  }

  lemma AtMostOne(x: set<int>)
    requires forall a, b | a in x && b in x :: a == b
    ensures |x| < 2
  {
    if |x| >= 2 {
      var a := Missing({}, x);
      var b := Missing({a}, x);
    }
  }

  lemma PairSize(x: set<int>, a: int, b: int)
    requires a in x && b in x && a != b
    ensures |x| >= 2
  {
    SubsetSize({a, b}, x);
  }

  /** A successful answer leaves fewer variables. */
  lemma Shrinks(c: Corr, live: set<int>, n: int, a: Answer)
    requires IsAnswer(c, live, n, a) && a.status == 0
    ensures |live - SetOf(a.vlist)| < |live|
  {
    GreedyDistinct(c, live, a.vlist);
    assert |live - SetOf(a.vlist)| == |live| - |SetOf(a.vlist)|;
  }

  /** The matrix stays symmetric. */
  lemma ValidIsSymmetric(g: CorrGraph, i: int, j: int)
    requires g.Valid() && 0 <= i < g.features && 0 <= j < g.features
    ensures g.adj[i, j] == g.adj[j, i]
    ensures g.adj[i, j] == INVALID <==> i == j || i !in g.live || j !in g.live
  {
    assert IsCorrAt(g.corr, i, j);
  }

  lemma GreedyLive(c: Corr, live: set<int>, s: seq<int>)
    requires IsGreedy(c, live, s)
    ensures |s| <= |live| && forall k | 0 <= k < |s| :: s[k] in live
  {
    GreedyDistinct(c, live, s);
    SubsetSize(SetOf(s), live);
    forall k | 0 <= k < |s| ensures s[k] in live { assert s[k] in SetOf(s); }
  }

  /** (a, b) comes before (i, j) in the order of the search. */
  predicate Before(a: int, b: int, i: int, j: int) { a < i || (a == i && b < j) }

  /** (mi, mj) is the first of the least live pairs before (i, j), or there is none and `min`
      is still the sentinel. */
  ghost predicate BestBefore(c: Corr, live: set<int>, i: int, j: int, mi: int, mj: int, min: real) {
    && (min == INVALID ||
        (mi in live && mj in live && mi < mj && Before(mi, mj, i, j) && min == Abs(c(mi, mj)) <= 1.0))
    && forall a, b | a in live && b in live && a < b && Before(a, b, i, j) ::
         min != INVALID
         && (min < Abs(c(a, b)) || (min == Abs(c(a, b)) && (mi < a || (mi == a && mj <= b))))
  }

  /** The correlations `getcorrinfo` fills in: the upper triangle mirrored. */
  ghost function Symmetric(pair: Corr, n: nat): Corr {
    (i: int, j: int) =>
      if 0 <= i < j < n then pair(i, j) else if 0 <= j < i < n then pair(j, i) else 0.0
  }

  lemma SymmetricIsCorr(pair: Corr, n: nat)
    requires forall i, j | 0 <= i < j < n :: Abs(pair(i, j)) <= 1.0
    ensures IsCorr(Symmetric(pair, n))
  {
    forall i, j ensures IsCorrAt(Symmetric(pair, n), i, j) {}
  }
}
