/** The final result of a quiz: the percentage of correct answers and the
    message band chosen by `handleResultMessage`. */
module ResultReporter {
  import opened Wrappers

  /** The four messages of `handleResultMessage`, lowest band first. */
  datatype Band = Encourage | Motivate | Praise | Excellent

  /** The text of each band, without its trailing emoji. */
  function Message(b: Band): string
  {
    match b
    case Encourage => "Don't give up!"
    case Motivate => "Keep going!"
    case Praise => "You're crushing it!"
    case Excellent => "You're a pro!"
  }

  lemma MessagesDistinct(b1: Band, b2: Band)
    ensures Message(b1) == Message(b2) <==> b1 == b2
  {
  }

  /** `(correct / total * 100).toFixed(0)` on exact rationals: the nearest
      integer to `100 * correct / total`, halves rounded up. A total of zero
      yields `NaN`, modelled as `None`. */
  function Percent(correct: nat, total: nat): (p: Option<int>)
    ensures p.Some? <==> total > 0
    ensures p.Some? ==> 2 * total * p.value <= 200 * correct + total < 2 * total * (p.value + 1)
    ensures p.Some? && correct <= total ==> 0 <= p.value <= 100
  {
    if total == 0 then None
    else
      var n, d := 200 * correct + total, 2 * total;
      DivisionBounds(n, d);
      if correct <= total then
        QuotientAtMost(n, d, 101);
        Some(n / d)
      else
        Some(n / d)
  }

  lemma DivisionBounds(n: nat, d: nat)
    requires d > 0
    ensures d * (n / d) <= n < d * (n / d + 1)
  {
    assert n == d * (n / d) + n % d;
  }

  lemma QuotientAtMost(n: nat, d: nat, k: nat)
    requires d > 0 && n < d * k
    ensures 0 <= n / d < k
  {
    DivisionBounds(n, d);
    if n / d >= k {
      MultiplyMonotone(d, k, n / d);
    }
  }

  lemma MultiplyMonotone(d: nat, a: nat, b: nat)
    requires a <= b
    ensures d * a <= d * b
  {
  }

  /** `handleResultMessage`: the band of a score. Each band is closed below
      and open above, except the last, which ends at 100 inclusive; a score
      above 100 has no message (the function returns `undefined`), while a
      negative one falls into the lowest band. */
  function ResultMessage(score: int): (b: Option<Band>)
    ensures b == Some(Encourage) <==> score < 50
    ensures b == Some(Motivate) <==> 50 <= score < 75
    ensures b == Some(Praise) <==> 75 <= score < 90
    ensures b == Some(Excellent) <==> 90 <= score <= 100
    ensures b == None <==> score > 100
  {
    if score < 50 then Some(Encourage)
    else if score < 75 then Some(Motivate)
    else if score < 90 then Some(Praise)
    else if score <= 100 then Some(Excellent)
    else None
  }

  /** The position of a band, lowest first. */
  function Rank(b: Band): nat
  {
    match b
    case Encourage => 0
    case Motivate => 1
    case Praise => 2
    case Excellent => 3
  }

  /** Every score up to 100 has a message, and a higher score never gets a
      lower band. */
  lemma HigherScoreNoLowerBand(s1: int, s2: int)
    requires s1 <= s2 <= 100
    ensures ResultMessage(s1).Some? && ResultMessage(s2).Some?
    ensures Rank(ResultMessage(s1).value) <= Rank(ResultMessage(s2).value)
  {
  }

  /** More correct answers out of the same total never lower the percentage. */
  lemma PercentMonotone(c1: nat, c2: nat, total: nat)
    requires c1 <= c2 && total > 0
    ensures Percent(c1, total).value <= Percent(c2, total).value
  {
    var n1, n2, d := 200 * c1 + total, 200 * c2 + total, 2 * total;
    DivisionBounds(n1, d);
    DivisionBounds(n2, d);
    QuotientAtMost(n1, d, n2 / d + 1);
  }

  /** The score and the message of the results section. */
  datatype Summary = Summary(score: Option<int>, message: Option<Band>)

  /** What `finishQuiz` shows: a message exactly when there is a score of
      at most 100, and then the message of that score's band. */
  function Report(correct: nat, total: nat): (r: Summary)
    ensures r.score == Percent(correct, total)
    ensures r.message.Some? <==> r.score.Some? && r.score.value <= 100
    ensures r.message.Some? ==> r.message == ResultMessage(r.score.value)
  {
    var p := Percent(correct, total);
    Summary(p, if p.Some? then ResultMessage(p.value) else None)
  }

  /** Whenever there are questions and no more correct answers than
      questions, the report has a score in `[0, 100]` and a message. */
  lemma ReportComplete(correct: nat, total: nat)
    requires 0 < total && correct <= total
    ensures Report(correct, total).score.Some?
    ensures 0 <= Report(correct, total).score.value <= 100
    ensures Report(correct, total).message.Some?
  {
  }

  /** The worked examples of the scoring: a 25-question quiz. */
  lemma PercentExamples()
    ensures Percent(0, 25) == Some(0)
    ensures Percent(25, 25) == Some(100)
    ensures Percent(13, 25) == Some(52)
    ensures Report(12, 25).message == Some(Encourage)
    ensures Report(13, 25).message == Some(Motivate)
    ensures Report(22, 25).message == Some(Praise)
    ensures Report(23, 25).message == Some(Excellent)
  {
  }
}
