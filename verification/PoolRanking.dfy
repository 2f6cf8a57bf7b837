/** The ranking of candidate pools and the in-place stable sort by it. */
module PoolRanking {
  datatype Pool = Pool(pool: string, chain: string, project: string, symbol: string, apy: real)

  /** Code-point order, which is the byte order of the UTF-8 encodings. */
  predicate StringLess(a: string, b: string) {
    if b == [] then false
    else if a == [] then true
    else if a[0] != b[0] then a[0] < b[0]
    else StringLess(a[1..], b[1..])
  }

  lemma {:induction false} StringLessTrichotomy(a: string, b: string)
    ensures !(StringLess(a, b) && StringLess(b, a))
    ensures StringLess(a, b) || StringLess(b, a) || a == b
    ensures a == b ==> !StringLess(a, b)
  {
    if a != [] && b != [] && a[0] == b[0] {
      StringLessTrichotomy(a[1..], b[1..]);
      assert a == [a[0]] + a[1..] && b == [b[0]] + b[1..];
    }
  }

  lemma {:induction false} StringLessTransitive(a: string, b: string, c: string)
    requires StringLess(a, b) && StringLess(b, c)
    ensures StringLess(a, c)
  {
    if a != [] && a[0] == b[0] && b[0] == c[0] {
      StringLessTransitive(a[1..], b[1..], c[1..]);
    }
  }

  /** Highest APY first, then chain, project, symbol and pool identifier. */
  predicate Before(l: Pool, r: Pool) {
    if l.apy != r.apy then l.apy > r.apy
    else if l.chain != r.chain then StringLess(l.chain, r.chain)
    else if l.project != r.project then StringLess(l.project, r.project)
    else if l.symbol != r.symbol then StringLess(l.symbol, r.symbol)
    else StringLess(l.pool, r.pool)
  }

  /** The ranking is a strict total order: it leaves no ties between different pools. */
  lemma BeforeIsTotal(a: Pool, b: Pool)
    ensures !(Before(a, b) && Before(b, a))
    ensures Before(a, b) || Before(b, a) || a == b
    ensures a == b ==> !Before(a, b)
  {
    StringLessTrichotomy(a.chain, b.chain);
    StringLessTrichotomy(a.project, b.project);
    StringLessTrichotomy(a.symbol, b.symbol);
    StringLessTrichotomy(a.pool, b.pool);
  }

  lemma BeforeIsTransitive(a: Pool, b: Pool, c: Pool)
    requires Before(a, b) && Before(b, c)
    ensures Before(a, c)
  {
    if a.apy == b.apy && b.apy == c.apy {
      if a.chain != b.chain && b.chain != c.chain {
        StringLessTransitive(a.chain, b.chain, c.chain);
        StringLessTrichotomy(a.chain, b.chain);
      } else if a.chain == b.chain == c.chain {
        if a.project != b.project && b.project != c.project {
          StringLessTransitive(a.project, b.project, c.project);
          StringLessTrichotomy(a.project, b.project);
        } else if a.project == b.project == c.project {
          if a.symbol != b.symbol && b.symbol != c.symbol {
            StringLessTransitive(a.symbol, b.symbol, c.symbol);
            StringLessTrichotomy(a.symbol, b.symbol);
          } else if a.symbol == b.symbol == c.symbol {
            StringLessTransitive(a.pool, b.pool, c.pool);
          }
        }
      }
    }
  }

  ghost predicate Ranked(ps: seq<Pool>) {
    forall i, j :: 0 <= i < j < |ps| ==> !Before(ps[j], ps[i])
  }

  /** The first of a ranked sequence is the top of everything in it. */
  lemma FirstIsTop(ps: seq<Pool>, x: Pool)
    requires Ranked(ps) && x in multiset(ps)
    ensures ps != [] && !Before(x, ps[0])
  {
    assert x in ps;
    var i :| 0 <= i < |ps| && ps[i] == x;
    if i == 0 {
      BeforeIsTotal(x, x);
    }
  }

  lemma DropFirst(ps: seq<Pool>)
    requires ps != []
    ensures multiset(ps[1..]) == multiset(ps) - multiset{ps[0]}
    ensures Ranked(ps) ==> Ranked(ps[1..])
  {
    assert ps == [ps[0]] + ps[1..];
  }

  lemma TopsAgree(a: seq<Pool>, b: seq<Pool>)
    requires Ranked(a) && Ranked(b) && multiset(a) == multiset(b) && a != []
    ensures b != [] && a[0] == b[0]
  {
    assert a[0] in multiset(a);
    FirstIsTop(b, a[0]);
    assert b[0] in multiset(b);
    FirstIsTop(a, b[0]);
    BeforeIsTotal(a[0], b[0]);
  }

  /** Sorting leaves nothing open: two ranked arrangements of the same pools are the same sequence. */
  lemma {:induction false} RankedIsUnique(a: seq<Pool>, b: seq<Pool>)
    requires Ranked(a) && Ranked(b) && multiset(a) == multiset(b)
    ensures a == b
  {
    if a == [] {
      assert |multiset(b)| == 0;
    } else {
      TopsAgree(a, b);
      DropFirst(a);
      DropFirst(b);
      RankedIsUnique(a[1..], b[1..]);
      assert a == [a[0]] + a[1..] && b == [b[0]] + b[1..];
    }
  }

  /** Insert behind every pool that does not rank after `p`, as a stable insertion sort does. */
  function Insert(p: Pool, ps: seq<Pool>): seq<Pool> {
    if ps == [] then [p]
    else if Before(p, ps[|ps| - 1]) then Insert(p, ps[..|ps| - 1]) + [ps[|ps| - 1]]
    else ps + [p]
  }

  function Sorted(ps: seq<Pool>): seq<Pool> {
    if ps == [] then [] else Insert(ps[|ps| - 1], Sorted(ps[..|ps| - 1]))
  }

  lemma {:induction false} InsertRanks(p: Pool, ps: seq<Pool>)
    ensures multiset(Insert(p, ps)) == multiset(ps) + multiset{p}
    ensures Ranked(ps) ==> Ranked(Insert(p, ps))
  {
    if ps != [] {
      var front, last := ps[..|ps| - 1], ps[|ps| - 1];
      assert ps == front + [last];
      if Before(p, last) {
        InsertRanks(p, front);
        InsertBeforeLast(p, front, last);
      } else {
        InsertLast(p, ps);
      }
    }
  }

  /** Sorting arranges the same pools by rank. */
  lemma {:induction false} SortedRanks(ps: seq<Pool>)
    ensures Ranked(Sorted(ps)) && multiset(Sorted(ps)) == multiset(ps)
  {
    if ps != [] {
      SortedRanks(ps[..|ps| - 1]);
      InsertRanks(ps[|ps| - 1], Sorted(ps[..|ps| - 1]));
      assert ps == ps[..|ps| - 1] + [ps[|ps| - 1]];
    }
  }

  lemma InsertBeforeLast(p: Pool, front: seq<Pool>, last: Pool)
    requires Before(p, last)
    ensures Ranked(front + [last]) ==>
              Ranked(front)
              && forall r: seq<Pool> :: Ranked(r) && multiset(r) == multiset(front) + multiset{p} ==> Ranked(r + [last])
  {
    var ps := front + [last];
    if Ranked(ps) {
      assert forall i, j :: 0 <= i < j < |front| ==> front[i] == ps[i] && front[j] == ps[j];
      forall r: seq<Pool> | Ranked(r) && multiset(r) == multiset(front) + multiset{p}
        ensures Ranked(r + [last])
      {
        forall i | 0 <= i < |r|
          ensures !Before(last, r[i])
        {
          assert r[i] in multiset(r);
          if r[i] == p {
            BeforeIsTotal(p, last);
          } else {
            assert r[i] in front;
            var k :| 0 <= k < |front| && front[k] == r[i];
            assert ps[k] == r[i] && ps[|front|] == last;
          }
        }
      }
    }
  }

  lemma InsertLast(p: Pool, ps: seq<Pool>)
    requires ps != [] && !Before(p, ps[|ps| - 1])
    ensures Ranked(ps) ==> Ranked(ps + [p])
  {
    if Ranked(ps) {
      var last := ps[|ps| - 1];
      forall i | 0 <= i < |ps|
        ensures !Before(p, ps[i])
      {
        if Before(p, ps[i]) {
          BeforeIsTotal(last, ps[i]);
          BeforeIsTotal(p, last);
          if last != p && last != ps[i] {
            BeforeIsTransitive(ps[i], last, p);
            BeforeIsTotal(p, ps[i]);
          }
          assert false;
        }
      }
    }
  }

  /** One step of the walk: it goes past a pool that ranks after the inserted one, and stops at any other. */
  lemma WalkStep(p: Pool, front: seq<Pool>, last: Pool, moved: seq<Pool>)
    ensures Before(p, last) ==> Insert(p, front + [last]) + moved == Insert(p, front) + ([last] + moved)
    ensures !Before(p, last) ==> Insert(p, front + [last]) == front + [last] + [p]
  {
    assert (front + [last])[..|front|] == front;
  }

  lemma Exchange(before: seq<Pool>, front: seq<Pool>, last: Pool, p: Pool, rest: seq<Pool>)
    requires before == (front + [last]) + ([p] + rest)
    ensures before[|front|] == last && before[|front| + 1] == p
    ensures before[|front| + 1 := last][|front| := p] == front + ([p] + ([last] + rest))
  {
  }

  /** Move the pool at `i` forward to its place among the ranked pools before it. */
  method InsertAt(pools: array<Pool>, i: nat, ghost ps: seq<Pool>, ghost tail: seq<Pool>)
    requires i < pools.Length && i == |ps| && pools[..] == ps + ([pools[i]] + tail)
    modifies pools
    ensures pools[..] == Insert(old(pools[i]), ps) + tail
  {
    var j: nat := i;
    ghost var p, front, moved := pools[i], ps, [];
    while j > 0 && Before(pools[j], pools[j - 1])
      invariant |front| == j < pools.Length
      invariant pools[..] == front + ([p] + (moved + tail))
      invariant Insert(p, ps) == Insert(p, front) + moved
      decreases j
    {
      ghost var rest, last := moved + tail, front[j - 1];
      ghost var before := pools[..];
      assert front == front[..j - 1] + [last];
      Exchange(before, front[..j - 1], last, p, rest);
      WalkStep(p, front[..j - 1], last, moved);
      pools[j], pools[j - 1] := pools[j - 1], pools[j];
      assert pools[..] == before[j := last][j - 1 := p];
      front, moved := front[..j - 1], [last] + moved;
      assert [last] + rest == moved + tail;
      j := j - 1;
    }
    if j > 0 {
      assert front == front[..j - 1] + [front[j - 1]];
      Exchange(pools[..], front[..j - 1], front[j - 1], p, moved + tail);
      WalkStep(p, front[..j - 1], front[j - 1], []);
    }
    assert front + ([p] + (moved + tail)) == front + [p] + moved + tail;
  }

  lemma SortNext(was: seq<Pool>, i: nat)
    requires i < |was|
    ensures Sorted(was[..i + 1]) == Insert(was[i], Sorted(was[..i]))
    ensures |Sorted(was[..i])| == i
    ensures Sorted(was[..i]) + was[i..] == Sorted(was[..i]) + ([was[i]] + was[i + 1..])
  {
    assert was[..i + 1][..i] == was[..i];
    SortedRanks(was[..i]);
    assert |multiset(Sorted(was[..i]))| == |multiset(was[..i])|;
  }

  /** The in-place stable sort of the candidates. */
  method SortPools(pools: array<Pool>)
    modifies pools
    ensures pools[..] == Sorted(old(pools[..]))
  {
    ghost var was := pools[..];
    for i := 0 to pools.Length
      invariant pools[..] == Sorted(was[..i]) + was[i..]
    {
      SortNext(was, i);
      ghost var ps := Sorted(was[..i]);
      assert pools[..][i] == was[i];
      InsertAt(pools, i, ps, was[i + 1..]);
    }
    assert was[..pools.Length] == was && was[pools.Length..] == [];
  }
}
