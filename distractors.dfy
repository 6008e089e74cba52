/** The choice of the wrong answers for a question in `displayQuestion`: the
    question's symbol is filtered out of the level's kanji list and three of
    the remaining symbols are picked. */
module Distractors {
  import opened RandomSelector

  /** The number of wrong answers offered with each question (app.js:85). */
  const DistractorCount: nat := 3

  /** `pool.filter(kanji => kanji !== q)`: every element of `pool` except the
      occurrences of `q`, in their original order. */
  function FilterOut<T(==)>(pool: seq<T>, q: T): (r: seq<T>)
    ensures multiset(r) == multiset(pool)[q := 0]
    ensures |r| <= |pool|
  {
    if |pool| == 0 then []
    else
      assert pool == [pool[0]] + pool[1..];
      if pool[0] == q then FilterOut(pool[1..], q)
      else [pool[0]] + FilterOut(pool[1..], q)
  }

  /** The elements that survive the filter are exactly those different from `q`. */
  lemma FilterOutMembers<T>(pool: seq<T>, q: T)
    ensures q !in FilterOut(pool, q)
    ensures forall x :: x in FilterOut(pool, q) ==> x in pool && x != q
    ensures forall x :: x in pool && x != q ==> x in FilterOut(pool, q)
  {
    var r := FilterOut(pool, q);
    assert multiset(r)[q] == 0;
    forall x ensures x in r <==> x in pool && x != q {
      assert x in r <==> x in multiset(r);
      assert x in pool <==> x in multiset(pool);
    }
  }

  lemma {:induction false} FilterOutKeepsDistinct<T>(pool: seq<T>, q: T)
    requires Distinct(pool)
    ensures Distinct(FilterOut(pool, q))
  {
    if |pool| > 0 {
      FilterOutKeepsDistinct(pool[1..], q);
      FilterOutMembers(pool[1..], q);
      assert pool[0] !in pool[1..];
    }
  }

  /** The symbols whose meanings are shown as wrong answers for question
      `q`. None of them is the question's own symbol; there are `min(3, n)`
      of them, `n` being the number of pool entries other than the
      question; and all come from the pool. */
  function PickDistractors<T(==)>(pool: seq<T>, q: T, draws: Draws): (r: seq<T>)
    requires |pool| <= |draws|
    ensures q !in r
    ensures |r| == Min(DistractorCount, |FilterOut(pool, q)|)
    ensures forall x :: x in r ==> x in pool
  {
    var f := FilterOut(pool, q);
    FilterOutMembers(pool, q);
    PickDrawsWithoutReplacement(f, DistractorCount, draws);
    Pick(f, DistractorCount, draws)
  }

  /** From a pool without duplicates, the distractors are pairwise distinct. */
  lemma DistractorsDistinct<T>(pool: seq<T>, q: T, draws: Draws)
    requires |pool| <= |draws| && Distinct(pool)
    ensures Distinct(PickDistractors(pool, q, draws))
  {
    FilterOutKeepsDistinct(pool, q);
    PickDrawsWithoutReplacement(FilterOut(pool, q), DistractorCount, draws);
  }
}
