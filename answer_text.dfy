/** The text of an answer option and the test of a clicked option.

    An option is shown as its meanings array converted to a string
    (`Array.prototype.toString`, which joins with ","), with every "," then
    replaced by ", ". A click is judged by replacing every ", " in the
    button's text with "," and comparing the result with the meanings array
    of the correct answer, which `==` converts to the same comma-joined
    string. */
module AnswerText {
  import opened Wrappers

  /** `String.prototype.replaceAll` with a non-empty search string: scans left
      to right and replaces each non-overlapping occurrence of `pat`.
      A string without an occurrence comes back unchanged, and the result
      is no shorter (no longer) than `s` when `rep` is no shorter (no
      longer) than `pat`. */
  function ReplaceAll(s: string, pat: string, rep: string): (r: string)
    requires |pat| > 0
    ensures !Occurs(s, pat) ==> r == s
    ensures |rep| >= |pat| ==> |r| >= |s|
    ensures |rep| <= |pat| ==> |r| <= |s|
    decreases |s|
  {
    if |s| < |pat| then s
    else if s[..|pat|] == pat then
      assert MatchAt(s, pat, 0);
      rep + ReplaceAll(s[|pat|..], pat, rep)
    else
      OccursInTail(s, pat);
      [s[0]] + ReplaceAll(s[1..], pat, rep)
  }

  /** `pat` occurs somewhere in `s`. */
  ghost predicate Occurs(s: string, pat: string)
  {
    exists k: nat :: MatchAt(s, pat, k)
  }

  /** `pat` occurs in `s` at position `k`. */
  predicate MatchAt(s: string, pat: string, k: nat)
  {
    k + |pat| <= |s| && s[k..k + |pat|] == pat
  }

  lemma OccursInTail(s: string, pat: string)
    requires |s| > 0
    ensures Occurs(s[1..], pat) ==> Occurs(s, pat)
  {
    if Occurs(s[1..], pat) {
      var k: nat :| MatchAt(s[1..], pat, k);
      assert s[k + 1..k + 1 + |pat|] == s[1..][k..k + |pat|];
      assert MatchAt(s, pat, k + 1);
    }
  }

  /** What a button shows for a given option string: `replaceAll(',', ', ')`.
      It never shortens the string, and a string without commas is shown
      as it is. */
  function Spread(s: string): (r: string)
    ensures |r| >= |s|
    ensures ',' !in s ==> r == s
  {
    CommaOccurs(s);
    ReplaceAll(s, ",", ", ")
  }

  lemma CommaOccurs(s: string)
    ensures Occurs(s, ",") ==> ',' in s
  {
    if Occurs(s, ",") {
      var k: nat :| MatchAt(s, ",", k);
      assert s[k] == s[k..k + 1][0];
    }
  }

  /** How a button's text is normalised before comparison: `replaceAll(', ', ',')`.
      It never lengthens the string, and a string without ", " is left as
      it is. */
  function Normalise(s: string): (r: string)
    ensures |r| <= |s|
    ensures !Occurs(s, ", ") ==> r == s
  {
    ReplaceAll(s, ", ", ",")
  }

  /** The number of occurrences of `c` in `s`. */
  function Count(s: string, c: char): nat
  {
    if |s| == 0 then 0 else (if s[0] == c then 1 else 0) + Count(s[1..], c)
  }

  lemma {:induction false} CountConcat(a: string, b: string, c: char)
    ensures Count(a + b, c) == Count(a, c) + Count(b, c)
    decreases |a|
  {
    if |a| == 0 {
      assert a + b == b;
    } else {
      assert (a + b)[0] == a[0];
      assert (a + b)[1..] == a[1..] + b;
      CountConcat(a[1..], b, c);
    }
  }

  lemma {:induction false} CountAbsent(s: string, c: char)
    ensures c !in s ==> Count(s, c) == 0
    decreases |s|
  {
    if |s| > 0 && c !in s {
      CountAbsent(s[1..], c);
    }
  }

  /** `Array.prototype.toString` on an array of strings: the elements joined
      by ",". When no element holds a comma, the joined text holds exactly
      one comma per gap between elements. */
  function Join(parts: seq<string>): (r: string)
    ensures |parts| > 0 && (forall k :: 0 <= k < |parts| ==> ',' !in parts[k]) ==> Count(r, ',') == |parts| - 1
  {
    if |parts| == 0 then ""
    else if |parts| == 1 then
      CountAbsent(parts[0], ',');
      parts[0]
    else
      var rest := Join(parts[1..]);
      CountAbsent(parts[0], ',');
      CountConcat(parts[0], ",", ',');
      CountConcat(parts[0] + ",", rest, ',');
      parts[0] + "," + rest
  }

  /** The text a button shows for an option with these meanings. */
  function OptionText(meanings: seq<string>): string
  {
    Spread(Join(meanings))
  }

  /** The comparison of `checkUserAnswer`: normalised text against the
      correct meanings, coerced to their comma-joined string. The text a
      button shows for the correct meanings always passes it. */
  predicate IsCorrect(text: string, correct: seq<string>)
    ensures text == OptionText(correct) ==> IsCorrect(text, correct)
  {
    NormaliseSpread(Join(correct));
    Normalise(text) == Join(correct)
  }

  /** Normalising undoes spreading, for every string: no ", " that the
      display introduced can be confused with text already there. */
  lemma {:induction false} NormaliseSpread(s: string)
    ensures Normalise(Spread(s)) == s
    decreases |s|
  {
    if |s| > 0 {
      NormaliseSpread(s[1..]);
      var rest := Spread(s[1..]);
      if s[0] == ',' {
        assert Spread(s) == ", " + rest;
        assert (", " + rest)[..2] == ", ";
        assert (", " + rest)[2..] == rest;
      } else {
        assert Spread(s) == [s[0]] + rest;
        var t := [s[0]] + rest;
        if |t| >= 2 {
          assert t[..2] != ", " by { assert t[0] == s[0]; }
          assert t[1..] == rest;
        } else {
          assert |s| == 1 && s == [s[0]];
        }
      }
    }
  }

  /** A button showing some option is judged correct exactly when that
      option's comma-joined meanings equal those of the correct answer. */
  lemma OptionJudgedCorrectIff(shown: seq<string>, correct: seq<string>)
    ensures IsCorrect(OptionText(shown), correct) <==> Join(shown) == Join(correct)
  {
    NormaliseSpread(Join(shown));
  }

  /** `Array.from(optionBtns).find(...)` in `checkUserAnswer`: the first
      button, from position `from` on, whose text is judged correct. */
  function FindCorrectOption(texts: seq<string>, correct: seq<string>, from: nat): (r: Option<nat>)
    requires from <= |texts|
    ensures r.Some? ==> from <= r.value < |texts| && IsCorrect(texts[r.value], correct)
    ensures r.Some? ==> forall k :: from <= k < r.value ==> !IsCorrect(texts[k], correct)
    ensures r.None? <==> forall k :: from <= k < |texts| ==> !IsCorrect(texts[k], correct)
    decreases |texts| - from
  {
    if from == |texts| then None
    else if IsCorrect(texts[from], correct) then Some(from)
    else FindCorrectOption(texts, correct, from + 1)
  }
}
