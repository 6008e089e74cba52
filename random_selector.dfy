/** The random selection utilities of the quiz: the in-place Fisher–Yates
    shuffle (`shuffleArray`) and "pick n" (`getRandomElements`), which takes a
    prefix of the shuffled array.

    `Math.random` is replaced by an oracle: a sequence `draws` whose entry
    `draws[i]` is the index `j` in `[0, i]` that
    `Math.floor(Math.random() * (i + 1))` produced when the backward walk was
    at position `i`. Every result the source can produce is the result for
    some such sequence. */
module RandomSelector {

  /** The indices a random source may choose: at step `i`, some `j` with `0 <= j <= i`. */
  type Draws = js: seq<nat> | forall i :: 0 <= i < |js| ==> js[i] <= i

  function Min(a: int, b: int): int
  {
    if a <= b then a else b
  }

  /** No element occurs twice. */
  predicate Distinct<T(==)>(s: seq<T>)
  {
    forall p, q :: 0 <= p < q < |s| ==> s[p] != s[q]
  }

  /** `s` with the elements at positions `i` and `j` exchanged. */
  function Swap<T>(s: seq<T>, i: nat, j: nat): (r: seq<T>)
    requires i < |s| && j < |s|
    ensures |r| == |s|
  {
    s[i := s[j]][j := s[i]]
  }

  /** The sequence after the backward walk has made its swaps at the
      positions `i`, `i - 1`, ..., `1`, in that order. */
  function FisherYates<T>(s: seq<T>, draws: Draws, i: int): (r: seq<T>)
    requires i < |s| <= |draws|
    ensures |r| == |s|
    decreases i
  {
    if i <= 0 then s else FisherYates(Swap(s, i, draws[i]), draws, i - 1)
  }

  /** What `shuffleArray` leaves in an array that held `s`: a permutation
      of `s`. */
  function Shuffled<T>(s: seq<T>, draws: Draws): (r: seq<T>)
    requires |s| <= |draws|
    ensures |r| == |s|
    ensures multiset(r) == multiset(s)
  {
    FisherYatesPermutes(s, draws, |s| - 1);
    FisherYates(s, draws, |s| - 1)
  }

  /** What `getRandomElements(arr, n)` returns for an array that held `s`:
      the first `n` elements of the shuffled array (`slice(0, n)` stops at
      the end of a shorter array), so `min(n, |s|)` elements taken from `s`
      without replacement. */
  function Pick<T>(s: seq<T>, n: nat, draws: Draws): (r: seq<T>)
    requires |s| <= |draws|
    ensures |r| == Min(n, |s|)
    ensures multiset(r) <= multiset(s)
  {
    PrefixMultiset(Shuffled(s, draws), Min(n, |s|));
    Shuffled(s, draws)[..Min(n, |s|)]
  }

  lemma SwapPermutes<T>(s: seq<T>, i: nat, j: nat)
    requires i < |s| && j < |s|
    ensures multiset(Swap(s, i, j)) == multiset(s)
  {
  }

  lemma SwapKeepsDistinct<T>(s: seq<T>, i: nat, j: nat)
    requires i < |s| && j < |s| && Distinct(s)
    ensures Distinct(Swap(s, i, j))
  {
    var t := Swap(s, i, j);
    forall p, q | 0 <= p < q < |t| ensures t[p] != t[q] {
      var p' := if p == i then j else if p == j then i else p;
      var q' := if q == i then j else if q == j then i else q;
      assert t[p] == s[p'] && t[q] == s[q'] && p' != q';
    }
  }

  /** Each swap only exchanges two elements, so the walk yields a
      permutation of its input, for every choice of the indices. */
  lemma {:induction false} FisherYatesPermutes<T>(s: seq<T>, draws: Draws, i: int)
    requires i < |s| <= |draws|
    ensures multiset(FisherYates(s, draws, i)) == multiset(s)
    decreases i
  {
    if i > 0 {
      SwapPermutes(s, i, draws[i]);
      FisherYatesPermutes(Swap(s, i, draws[i]), draws, i - 1);
    }
  }

  lemma {:induction false} FisherYatesKeepsDistinct<T>(s: seq<T>, draws: Draws, i: int)
    requires i < |s| <= |draws| && Distinct(s)
    ensures Distinct(FisherYates(s, draws, i))
    decreases i
  {
    if i > 0 {
      SwapKeepsDistinct(s, i, draws[i]);
      FisherYatesKeepsDistinct(Swap(s, i, draws[i]), draws, i - 1);
    }
  }

  lemma FisherYatesStep<T>(s: seq<T>, draws: Draws, i: nat)
    requires 0 < i < |s| <= |draws|
    ensures FisherYates(s, draws, i) == FisherYates(Swap(s, i, draws[i]), draws, i - 1)
  {
  }

  lemma PrefixMultiset<T>(t: seq<T>, k: nat)
    requires k <= |t|
    ensures multiset(t[..k]) <= multiset(t)
  {
    assert t == t[..k] + t[k..];
  }

  /** "Pick n" draws without replacement: exactly `min(n, |s|)` elements,
      each taken from `s` no more often than it occurs there, and so pairwise
      distinct when `s` is. */
  lemma PickDrawsWithoutReplacement<T>(s: seq<T>, n: nat, draws: Draws)
    requires |s| <= |draws|
    ensures |Pick(s, n, draws)| == Min(n, |s|)
    ensures multiset(Pick(s, n, draws)) <= multiset(s)
    ensures forall x :: x in Pick(s, n, draws) ==> x in s
    ensures Distinct(s) ==> Distinct(Pick(s, n, draws))
  {
    var r := Pick(s, n, draws);
    forall x | x in r ensures x in s {
      assert x in multiset(r);
    }
    if Distinct(s) {
      FisherYatesKeepsDistinct(s, draws, |s| - 1);
    }
  }

  /** `shuffleArray`: walks from the last position down to 1 and swaps each
      position with one drawn from `[0, i]`. */
  method Shuffle<T>(a: array<T>, draws: Draws)
    requires a.Length <= |draws|
    modifies a
    ensures a[..] == Shuffled(old(a[..]), draws)
    ensures multiset(a[..]) == multiset(old(a[..]))
  {
    var i := a.Length - 1;
    while i > 0
      invariant -1 <= i < a.Length
      invariant FisherYates(a[..], draws, i) == Shuffled(old(a[..]), draws)
    {
      var j := draws[i];
      ghost var before := a[..];
      var t := a[i];
      a[i] := a[j];
      a[j] := t;
      assert a[..] == Swap(before, i, j);
      FisherYatesStep(before, draws, i);
      i := i - 1;
    }
  }

  /** `getRandomElements`: shuffles the caller's array in place and returns a
      copy of its first `n` elements. */
  method GetRandomElements<T>(a: array<T>, n: nat, draws: Draws) returns (r: seq<T>)
    requires a.Length <= |draws|
    modifies a
    ensures a[..] == Shuffled(old(a[..]), draws)
    ensures r == Pick(old(a[..]), n, draws)
    ensures |r| == Min(n, a.Length) && multiset(r) <= multiset(old(a[..]))
  {
    Shuffle(a, draws);
    r := a[..Min(n, a.Length)];
    PickDrawsWithoutReplacement(old(a[..]), n, draws);
  }
}
