/**
 * How the move-evaluation card presents a score: the badge colour
 * (`getEvaluationColor`) and the badge text (`getEvaluationText`).
 * Scores are exact reals; the thresholds 3, 1.5, 0.5 and their negations
 * are exact in binary floating point too, so the comparisons agree.
 */
module EvaluationDisplay {
  import opened Strings
  import opened Uci

  /** The card's `evaluation` prop, typed `number | string`. */
  datatype Score = Number(value: real) | Text(text: string)

  /** Badge colours of the numeric bands, from worst to best. */
  const BandColors: seq<string> :=
    ["bg-red-400", "bg-orange-400", "bg-orange-300", "bg-gray-400", "bg-green-300", "bg-green-400", "bg-green-500"]

  /** The band boundaries, ascending; a boundary value belongs to the band below it. */
  const Thresholds: seq<real> := [-3.0, -1.5, -0.5, 0.5, 1.5, 3.0]

  /** The number of thresholds in `ts` that `e` strictly exceeds. */
  function Band(e: real, ts: seq<real>): (b: nat)
    ensures b <= |ts|
  {
    if ts == [] then 0 else (if e > ts[0] then 1 else 0) + Band(e, ts[1..])
  }

  lemma {:induction false} BandMonotone(e1: real, e2: real, ts: seq<real>)
    requires e1 <= e2
    ensures Band(e1, ts) <= Band(e2, ts)
  {
    if ts != [] {
      BandMonotone(e1, e2, ts[1..]);
    }
  }

  /** The band of `e` among the card's thresholds, counted from the top of the list down. */
  lemma BandOfThresholds(e: real)
    ensures Band(e, Thresholds) ==
      if e > 3.0 then 6 else if e > 1.5 then 5 else if e > 0.5 then 4
      else if e > -0.5 then 3 else if e > -1.5 then 2 else if e > -3.0 then 1 else 0
  {
    var t6 := Thresholds;
    var t5, t4, t3, t2, t1 := t6[1..], t6[2..], t6[3..], t6[4..], t6[5..];
    assert t1 == [3.0] && t1[1..] == [];
    assert t2[1..] == t1 && t3[1..] == t2 && t4[1..] == t3 && t5[1..] == t4 && t6[1..] == t5;
    assert Band(e, t1) == if e > 3.0 then 1 else 0;
    assert Band(e, t2) == (if e > 1.5 then 1 else 0) + Band(e, t1);
    assert Band(e, t3) == (if e > 0.5 then 1 else 0) + Band(e, t2);
    assert Band(e, t4) == (if e > -0.5 then 1 else 0) + Band(e, t3);
    assert Band(e, t5) == (if e > -1.5 then 1 else 0) + Band(e, t4);
    assert Band(e, t6) == (if e > -3.0 then 1 else 0) + Band(e, t5);
  }

  /** `getEvaluationColor()` */
  function EvaluationColor(evaluation: Score, unit: string): (color: string)
    ensures color == "bg-red-500" <==> unit == "mate"
    ensures unit != "mate" && evaluation.Text? ==> color == "bg-gray-400"
    ensures unit != "mate" && evaluation.Number? ==> color == BandColors[Band(evaluation.value, Thresholds)]
  {
    if unit == "mate" then "bg-red-500"
    else
      match evaluation
      case Number(e) =>
        BandOfThresholds(e);
        if e > 3.0 then "bg-green-500"
        else if e > 1.5 then "bg-green-400"
        else if e > 0.5 then "bg-green-300"
        else if e > -0.5 then "bg-gray-400"
        else if e > -1.5 then "bg-orange-300"
        else if e > -3.0 then "bg-orange-400"
        else "bg-red-400"
      case Text(_) => "bg-gray-400"
  }

  /** A lower numeric score never gets a better band. */
  lemma ColorMonotone(e1: real, e2: real, unit: string)
    requires unit != "mate" && e1 <= e2
    ensures Band(e1, Thresholds) <= Band(e2, Thresholds)
    ensures EvaluationColor(Number(e1), unit) == BandColors[Band(e1, Thresholds)]
    ensures EvaluationColor(Number(e2), unit) == BandColors[Band(e2, Thresholds)]
  {
    BandMonotone(e1, e2, Thresholds);
  }

  /** Each boundary value falls into the band below it. */
  lemma ColorAtBoundaries(unit: string)
    requires unit != "mate"
    ensures EvaluationColor(Number(3.0), unit) == "bg-green-400"
    ensures EvaluationColor(Number(1.5), unit) == "bg-green-300"
    ensures EvaluationColor(Number(0.5), unit) == "bg-gray-400"
    ensures EvaluationColor(Number(-0.5), unit) == "bg-orange-300"
    ensures EvaluationColor(Number(-1.5), unit) == "bg-orange-400"
    ensures EvaluationColor(Number(-3.0), unit) == "bg-red-400"
  {
  }

  /** The badge text, before numbers are rendered: `Mate in <moves>`, or
      the score with two decimals after an optional `+`. */
  datatype EvalText = MateIn(moves: real) | Pawns(plusSign: bool, value: real)

  /** `getEvaluationText()` for a numeric evaluation. */
  function EvaluationText(evaluation: real, unit: string): (t: EvalText)
    ensures t.MateIn? <==> unit == "mate"
    ensures t.MateIn? ==> t.moves >= 0.0 && (t.moves == evaluation || t.moves == -evaluation)
    ensures t.Pawns? ==> t.value == evaluation && (t.plusSign <==> evaluation > 0.0)
  {
    if unit == "mate" then MateIn(if evaluation < 0.0 then -evaluation else evaluation)
    else Pawns(evaluation > 0.0, evaluation)
  }

  /** The mate text does not say which side mates. */
  lemma MateTextDropsSign(e: real)
    ensures EvaluationText(e, "mate") == EvaluationText(-e, "mate")
  {
  }

  /** End to end: a `score mate n` line is shown red as `Mate in |n|`. */
  lemma MateLineDisplay(pre: string, n: int, post: string)
    requires !Contains(pre + MateKey + Show(n) + post, "score cp")
    requires !Contains(pre, MateKey)
    requires post == [] || !IsDigit(post[0])
    ensures var e := ParseEvaluation(pre + MateKey + Show(n) + post);
      && EvaluationText(e.score, e.unit) == MateIn(if n < 0 then -n as real else n as real)
      && EvaluationColor(Number(e.score), e.unit) == "bg-red-500"
  {
    ParseMate(pre, n, post);
  }

  /** End to end: `score cp 300` is exactly 3 pawns, which is not above 3. */
  lemma CentipawnLineDisplay(pre: string, post: string)
    requires !Contains(pre, CpKey)
    requires post == [] || !IsDigit(post[0])
    ensures var e := ParseEvaluation(pre + CpKey + Show(300) + post);
      && EvaluationText(e.score, e.unit) == Pawns(true, 3.0)
      && EvaluationColor(Number(e.score), e.unit) == "bg-green-400"
  {
    ParseCentipawns(pre, 300, post);
  }
}
