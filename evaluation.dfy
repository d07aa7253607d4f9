/** The simulated authentication pass and the bookkeeping of its results.

    Authentication maps every test file to a result.  The prediction for a file
    is its own speaker or, on a random draw, the speaker of a randomly indexed
    enrollment file; the random numbers are supplied as one `Draw` per test
    file.  Indexing an empty enrollment list yields `undefined`, and reading its
    speaker throws, which aborts the whole pass: `Evaluate` is then `None`. */
module Evaluation {
  import opened Records
  import Roster

  /** The random choices made for one test file: keep the true speaker
      (`Math.random() > 0.3`), or take the speaker of the enrollment file at
      `index` (`Math.floor(Math.random() * enrollmentFiles.length)`). */
  datatype Draw = KeepTrue | Mispredict(index: nat)

  /** The indices `Math.floor(Math.random() * n)` can produce: below `n`, and
      0 when `n` is 0. */
  predicate DrawsFit(draws: seq<Draw>, enrolled: nat)
    ensures DrawsFit(draws, enrolled) && enrolled > 0 ==>
      forall i :: 0 <= i < |draws| && draws[i].Mispredict? ==> draws[i].index < enrolled
    ensures (forall i :: 0 <= i < |draws| ==> draws[i] == KeepTrue) ==> DrawsFit(draws, enrolled)
  {
    forall i :: 0 <= i < |draws| && draws[i].Mispredict? ==>
      draws[i].index < enrolled || draws[i].index == 0
  }

  /** `Math.floor(u * n)` for a value `u` of `Math.random()`: an index below
      `n`, or 0 when `n` is 0, so every such draw fits. */
  function FloorIndex(u: real, n: nat): (k: nat)
    requires 0.0 <= u < 1.0
    ensures n > 0 ==> k < n
    ensures n == 0 ==> k == 0
    ensures DrawsFit([Mispredict(k)], n)
  {
    ScaleBelow(u, n as real);
    (u * (n as real)).Floor
  }

  lemma ScaleBelow(u: real, m: real)
    requires 0.0 <= u < 1.0 && 0.0 <= m
    ensures 0.0 <= u * m <= m
    ensures m > 0.0 ==> u * m < m
  {
    assert m - u * m == (1.0 - u) * m;
  }

  /** The predicted speaker for one test file, or `None` when the lookup of
      the enrollment file throws. */
  function Predict(trueSpeaker: string, enrollment: seq<AudioFile>, draw: Draw): (p: Option<string>)
    ensures p.None? <==> draw.Mispredict? && draw.index >= |enrollment|
    ensures p.Some? ==> p.value == trueSpeaker || p.value in Roster.Speakers(enrollment)
  {
    match draw
    case KeepTrue => Some(trueSpeaker)
    case Mispredict(k) =>
      if k < |enrollment| then Some(enrollment[k].speaker) else None
  }

  /** `testFiles.map(...)`: one result per test file, in order, or `None`
      when any prediction throws. */
  function Evaluate(tests: seq<AudioFile>, enrollment: seq<AudioFile>, draws: seq<Draw>): (r: Option<seq<AuthResult>>)
    requires |draws| == |tests|
    ensures r.None? <==> exists i :: 0 <= i < |tests| && Predict(tests[i].speaker, enrollment, draws[i]).None?
    ensures r.Some? ==> |r.value| == |tests|
    ensures r.Some? ==> forall i :: 0 <= i < |tests| ==>
      && r.value[i].fileName == tests[i].name
      && r.value[i].trueSpeaker == tests[i].speaker
      && Predict(tests[i].speaker, enrollment, draws[i]) == Some(r.value[i].predictedSpeaker)
      && (r.value[i].isCorrect <==> r.value[i].trueSpeaker == r.value[i].predictedSpeaker)
  {
    if tests == [] then Some([])
    else
      match Predict(tests[0].speaker, enrollment, draws[0])
      case None => None
      case Some(predicted) =>
        match Evaluate(tests[1..], enrollment, draws[1..])
        case None => None
        case Some(rest) =>
          Some([AuthResult(tests[0].name, tests[0].speaker, predicted, tests[0].speaker == predicted)] + rest)
  }

  /** The pass completes exactly when some enrollment file is left or every
      draw keeps the true speaker. */
  lemma EvaluateCompletesIff(tests: seq<AudioFile>, enrollment: seq<AudioFile>, draws: seq<Draw>)
    requires |draws| == |tests| && DrawsFit(draws, |enrollment|)
    ensures Evaluate(tests, enrollment, draws).Some? <==>
      |enrollment| > 0 || forall i :: 0 <= i < |draws| ==> draws[i] == KeepTrue
  {
    if |enrollment| == 0 && exists i :: 0 <= i < |draws| && draws[i] != KeepTrue {
      var i :| 0 <= i < |draws| && draws[i] != KeepTrue;
      assert Predict(tests[i].speaker, enrollment, draws[i]).None?;
    }
  }

  /** Every prediction is the true speaker or the speaker of an enrollment
      file, and a result is marked correct exactly when the two agree. */
  lemma EvaluatePredictions(tests: seq<AudioFile>, enrollment: seq<AudioFile>, draws: seq<Draw>, i: nat)
    requires |draws| == |tests| && Evaluate(tests, enrollment, draws).Some? && i < |tests|
    ensures var res := Evaluate(tests, enrollment, draws).value[i];
      && (res.predictedSpeaker == res.trueSpeaker || res.predictedSpeaker in Roster.Speakers(enrollment))
      && (res.isCorrect <==> res.predictedSpeaker == tests[i].speaker)
  {
  }

  /** `results.filter(r => r.isCorrect).length`. */
  function CorrectCount(results: seq<AuthResult>): (n: nat)
    ensures n <= |results|
  {
    if results == [] then 0
    else (if results[0].isCorrect then 1 else 0) + CorrectCount(results[1..])
  }

  /** The count is full exactly when every result is correct. */
  lemma {:induction false} CorrectCountAll(results: seq<AuthResult>)
    ensures CorrectCount(results) == |results| <==> forall i :: 0 <= i < |results| ==> results[i].isCorrect
  {
    if results != [] {
      CorrectCountAll(results[1..]);
      if forall i :: 0 <= i < |results[1..]| ==> results[1..][i].isCorrect {
        if results[0].isCorrect {
          forall i | 0 <= i < |results| ensures results[i].isCorrect {
            if i > 0 { assert results[i] == results[1..][i - 1]; }
          }
        }
      } else {
        var j :| 0 <= j < |results[1..]| && !results[1..][j].isCorrect;
        assert !results[j + 1].isCorrect;
      }
    }
  }

  /** The count is zero exactly when no result is correct. */
  lemma {:induction false} CorrectCountNone(results: seq<AuthResult>)
    ensures CorrectCount(results) == 0 <==> forall i :: 0 <= i < |results| ==> !results[i].isCorrect
  {
    if results != [] {
      CorrectCountNone(results[1..]);
      if forall i :: 0 <= i < |results[1..]| ==> !results[1..][i].isCorrect {
        if !results[0].isCorrect {
          forall i | 0 <= i < |results| ensures !results[i].isCorrect {
            if i > 0 { assert results[i] == results[1..][i - 1]; }
          }
        }
      } else {
        var j :| 0 <= j < |results[1..]| && results[1..][j].isCorrect;
        assert results[j + 1].isCorrect;
      }
    }
  }

  /** The counts of two batches add up. */
  lemma {:induction false} CorrectCountAppend(a: seq<AuthResult>, b: seq<AuthResult>)
    ensures CorrectCount(a + b) == CorrectCount(a) + CorrectCount(b)
  {
    if a == [] {
      assert a + b == b;
    } else {
      assert (a + b)[1..] == a[1..] + b;
      CorrectCountAppend(a[1..], b);
    }
  }

  /** The overall accuracy, in percent, of a non-empty batch (the panel that
      shows it is rendered only when results exist). */
  function AccuracyPercent(results: seq<AuthResult>): (pct: real)
    requires |results| > 0
    ensures 0.0 <= pct <= 100.0
    ensures pct == 100.0 <==> forall i :: 0 <= i < |results| ==> results[i].isCorrect
    ensures pct == 0.0 <==> forall i :: 0 <= i < |results| ==> !results[i].isCorrect
  {
    CorrectCountAll(results);
    CorrectCountNone(results);
    var correct := CorrectCount(results) as real;
    var total := |results| as real;
    RatioBounds(correct, total);
    (correct / total) * 100.0
  }

  lemma RatioBounds(c: real, t: real)
    requires 0.0 <= c <= t && t > 0.0
    ensures 0.0 <= c / t <= 1.0
    ensures c / t == 1.0 <==> c == t
    ensures c / t == 0.0 <==> c == 0.0
  {
    var q := c / t;
    assert q * t == c;
  }
}
