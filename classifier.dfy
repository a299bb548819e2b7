/**
 * The expression classifier (`pickEmoji`): four candidate scores computed
 * from fixed blendshapes, gated by their thresholds and compared against a
 * running best that starts at `neutral` with the baseline score.
 */
module Classifier {
  import opened Wrappers
  import opened Tables

  /** `get`: the score stored under `k`, unclamped, or 0 when `k` is missing. */
  function Get(m: map<string, real>, k: string): (v: real)
    ensures k in m ==> v == m[k]
    ensures k !in m ==> v == 0.0
  {
    if k in m then m[k] else 0.0
  }

  /** `Math.max` on two scores. */
  function Max(a: real, b: real): (r: real)
    ensures r >= a && r >= b
    ensures r == a || r == b
  {
    if a >= b then a else b
  }

  /** The candidate scores of the four non-neutral labels (`expressionScores`). */
  datatype Scores = Scores(smile: real, surprise: real, frown: real, cheeky: real)

  /** The blendshape names the formulas read; no other key affects the result. */
  const ReadKeys: set<string> := {
    "mouthSmileLeft", "mouthSmileRight", "jawOpen", "mouthPucker",
    "mouthFrownLeft", "mouthFrownRight", "cheekPuffLeft", "cheekPuffRight", "tongueOut"
  }

  /** The four fixed formulas over the blendshape map. */
  function ExpressionScores(m: map<string, real>): Scores
  {
    Scores(
      smile := Max(Get(m, "mouthSmileLeft"), Get(m, "mouthSmileRight")),
      surprise := Get(m, "jawOpen") * 0.9 + Get(m, "mouthPucker") * 0.4,
      frown := Max(Get(m, "mouthFrownLeft"), Get(m, "mouthFrownRight")),
      cheeky := Max(Get(m, "cheekPuffLeft"), Get(m, "cheekPuffRight")) + Get(m, "tongueOut"))
  }

  /** The candidate score of a non-neutral label. */
  function ScoreOf(s: Scores, l: Label): real
    requires IsCandidate(l)
  {
    match l
    case Smile => s.smile
    case Surprise => s.surprise
    case Frown => s.frown
    case Cheeky => s.cheeky
  }

  /** A candidate qualifies when its score is strictly above its own threshold. */
  predicate Qualifies(s: Scores, l: Label)
    requires IsCandidate(l)
  {
    ScoreOf(s, l) > Threshold(l)
  }

  /** The running best of the selection loop: `best` and `bestScore`. */
  datatype Choice = Choice(best: Label, bestScore: real)

  /**
   * One step of the selection loop: the running best changes to `l` with
   * its own score exactly when that score is strictly above both `l`'s
   * threshold and the running best score, and stays otherwise; the best
   * score never drops.
   */
  function Consider(acc: Choice, s: Scores, l: Label): (r: Choice)
    requires IsCandidate(l)
    ensures r.bestScore >= acc.bestScore
    ensures r == acc || (r == Choice(l, ScoreOf(s, l)) && Qualifies(s, l) && ScoreOf(s, l) > acc.bestScore)
    ensures Qualifies(s, l) && ScoreOf(s, l) > acc.bestScore ==> r == Choice(l, ScoreOf(s, l))
  {
    var score := ScoreOf(s, l);
    if score > Threshold(l) && score > acc.bestScore then Choice(l, score) else acc
  }

  /**
   * The running best after the first `k` candidates of `Order`: neutral
   * with the baseline score, or a qualifying candidate among those `k`
   * carrying its own score, and never below the baseline.
   */
  function SelectUpTo(s: Scores, k: nat): (c: Choice)
    requires k <= |Order|
    ensures c.bestScore >= Baseline
    ensures c.best == Neutral ==> c.bestScore == Baseline
    ensures c.best != Neutral ==> Rank(c.best) < k && Qualifies(s, c.best) && c.bestScore == ScoreOf(s, c.best)
  {
    if k == 0 then Choice(Neutral, Baseline)
    else Consider(SelectUpTo(s, k - 1), s, Order[k - 1])
  }

  /** The label the selection ends with: neutral or a candidate that clears its own threshold. */
  function Classify(s: Scores): (l: Label)
    ensures l != Neutral ==> Qualifies(s, l)
  {
    SelectUpTo(s, |Order|).best
  }

  /**
   * The label `pickEmoji` shows for an optional map: absent gives `neutral`;
   * a non-neutral label clears its own threshold on the map's scores.
   */
  function Emotion(blend: Option<map<string, real>>): (l: Label)
    ensures blend.None? ==> l == Neutral
    ensures l != Neutral ==> blend.Some? && Qualifies(ExpressionScores(blend.value), l)
  {
    match blend
    case None => Neutral
    case Some(m) => Classify(ExpressionScores(m))
  }

  /**
   * What "the best label among the first k candidates" means: `neutral` when
   * none of them qualifies; otherwise a qualifying candidate whose score no
   * qualifying candidate exceeds and every earlier qualifying candidate falls
   * strictly short of.
   */
  ghost predicate BestAmong(s: Scores, k: nat, l: Label)
    requires k <= |Order|
  {
    if l == Neutral then
      forall i | 0 <= i < k :: !Qualifies(s, Order[i])
    else
      && Rank(l) < k
      && Qualifies(s, l)
      && (forall i | 0 <= i < k && Qualifies(s, Order[i]) :: ScoreOf(s, Order[i]) <= ScoreOf(s, l))
      && (forall i | 0 <= i < Rank(l) && Qualifies(s, Order[i]) :: ScoreOf(s, Order[i]) < ScoreOf(s, l))
  }

  /** The best label among all four candidates. */
  ghost predicate IsBest(s: Scores, l: Label)
  {
    BestAmong(s, |Order|, l)
  }

  /** The running best after k candidates is the best among them, with its own score. */
  lemma {:induction false} SelectUpToIsBest(s: Scores, k: nat)
    requires k <= |Order|
    ensures BestAmong(s, k, SelectUpTo(s, k).best)
    ensures SelectUpTo(s, k).bestScore
              == if SelectUpTo(s, k).best == Neutral then Baseline else ScoreOf(s, SelectUpTo(s, k).best)
  {
    if k > 0 {
      SelectUpToIsBest(s, k - 1);
      var prev := SelectUpTo(s, k - 1);
      var c := Order[k - 1];
      assert Rank(c) == k - 1;
      if prev.best != Neutral {
        assert Rank(prev.best) < k - 1;
      }
    }
  }

  /** The selection picks the best label: the argmax with the earliest candidate winning ties. */
  lemma ClassifyIsBest(s: Scores)
    ensures IsBest(s, Classify(s))
  {
    SelectUpToIsBest(s, |Order|);
  }

  /** At most one label is the best, so `IsBest` determines the result. */
  lemma BestUnique(s: Scores, a: Label, b: Label)
    requires IsBest(s, a) && IsBest(s, b)
    ensures a == b
  {
  }

  /** `neutral` exactly when no candidate clears its own threshold. */
  lemma NeutralIffNoneQualifies(s: Scores)
    ensures Classify(s) == Neutral <==> forall l | l in Order :: !Qualifies(s, l)
  {
    ClassifyIsBest(s);
    if Classify(s) != Neutral {
      assert Order[Rank(Classify(s))] == Classify(s);
    } else {
      forall l | l in Order ensures !Qualifies(s, l) {
        assert Order[Rank(l)] == l;
      }
    }
  }

  /**
   * A non-neutral result clears its own threshold and the baseline; the
   * second follows from the first, since every threshold is above 0.15.
   */
  lemma NonNeutralClearsBars(s: Scores)
    requires Classify(s) != Neutral
    ensures ScoreOf(s, Classify(s)) > Threshold(Classify(s))
    ensures ScoreOf(s, Classify(s)) > Baseline
  {
  }

  /** The empty map reads 0 everywhere, so no candidate qualifies. */
  lemma EmptyMapIsNeutral()
    ensures ExpressionScores(map[]) == Scores(0.0, 0.0, 0.0, 0.0)
    ensures Emotion(Some(map[])) == Neutral
  {
  }

  /** Two maps that agree on the keys the formulas read get the same label. */
  lemma ClassifyReadsOnlyFormulaKeys(m1: map<string, real>, m2: map<string, real>)
    requires forall k | k in ReadKeys :: Get(m1, k) == Get(m2, k)
    ensures Emotion(Some(m1)) == Emotion(Some(m2))
  {
  }

  /** Scores are not clamped: any smile score above 0.25, even above 1, shows a smile. */
  lemma UnclampedSmile(v: real)
    requires v > 0.25
    ensures Emotion(Some(map["mouthSmileLeft" := v])) == Smile
  {
    var s := ExpressionScores(map["mouthSmileLeft" := v]);
    assert s == Scores(v, 0.0, 0.0, 0.0);
    assert IsBest(s, Smile);
    ClassifyIsBest(s);
    BestUnique(s, Smile, Classify(s));
  }

  /** On an exact tie between two qualifying candidates the later one never wins. */
  lemma EarlierWinsTie(s: Scores, a: Label, b: Label)
    requires IsCandidate(a) && IsCandidate(b) && Rank(a) < Rank(b)
    requires Qualifies(s, a) && Qualifies(s, b) && ScoreOf(s, a) == ScoreOf(s, b)
    ensures Classify(s) != b
  {
    ClassifyIsBest(s);
    assert Order[Rank(a)] == a;
  }

  /** A candidate that qualifies and strictly beats every other qualifying candidate wins. */
  lemma StrictMaximumWins(s: Scores, a: Label)
    requires IsCandidate(a) && Qualifies(s, a)
    requires forall l | l in Order && l != a && Qualifies(s, l) :: ScoreOf(s, l) < ScoreOf(s, a)
    ensures Classify(s) == a
  {
    ClassifyIsBest(s);
    assert Order[Rank(a)] == a;
  }

  /** Smile and frown both at 0.3: smile is adopted first and frown does not displace it. */
  lemma SmileBeatsEqualFrown()
    ensures Emotion(Some(map["mouthSmileLeft" := 0.3, "mouthFrownLeft" := 0.3])) == Smile
  {
    var s := ExpressionScores(map["mouthSmileLeft" := 0.3, "mouthFrownLeft" := 0.3]);
    assert s == Scores(0.3, 0.0, 0.3, 0.0);
    ClassifyIsBest(s);
    assert Order[0] == Smile && Order[2] == Frown;
  }

  /** A jaw opening of 0.3 with a pucker of 0.1 scores 0.31 for surprise, above 0.28. */
  lemma JawAndPuckerIsSurprise()
    ensures Emotion(Some(map["jawOpen" := 0.3, "mouthPucker" := 0.1])) == Surprise
  {
    var s := ExpressionScores(map["jawOpen" := 0.3, "mouthPucker" := 0.1]);
    assert s == Scores(0.0, 0.31, 0.0, 0.0);
    StrictMaximumWins(s, Surprise);
  }

  /** A cheek puff of 0.1 with a tongue-out of 0.1 scores 0.2, not above 0.22. */
  lemma SmallCheekyIsNeutral()
    ensures Emotion(Some(map["cheekPuffLeft" := 0.1, "tongueOut" := 0.1])) == Neutral
  {
  }

  /**
   * `pickEmoji`: an absent map gives the neutral glyph; otherwise the
   * candidates are walked in order, each adopted when its score is strictly
   * above both its threshold and the running best. The first ensures, that
   * the glyph is one of the table's five, is a corollary of the second.
   */
  method PickEmoji(blend: Option<map<string, real>>) returns (glyph: string)
    ensures glyph in EmojiSet.Values
    ensures glyph == Glyph(Emotion(blend))
    ensures blend.None? ==> glyph == Glyph(Neutral)
    ensures blend.Some? ==> LabelOf(glyph).Some? && IsBest(ExpressionScores(blend.value), LabelOf(glyph).value)
  {
    if blend.None? {
      return Glyph(Neutral);
    }
    var s := ExpressionScores(blend.value);
    var best, bestScore := Neutral, Baseline;
    for i := 0 to |Order|
      invariant Choice(best, bestScore) == SelectUpTo(s, i)
    {
      var name := Order[i];
      var score := ScoreOf(s, name);
      var th := EmotionThresholds[name];
      if score > th && score > bestScore {
        best, bestScore := name, score;
      }
    }
    glyph := Glyph(best);
    ClassifyIsBest(s);
    GlyphRoundTrip(best);
  }
}
