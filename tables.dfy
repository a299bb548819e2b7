/**
 * The two constant tables of the classifier: the glyph shown for each
 * expression label (EMOJI_SET) and the activation threshold of each
 * non-neutral label (EMOTION_THRESHOLDS), plus the neutral baseline score.
 */
module Tables {
  import opened Wrappers

  /** The closed set of expression labels. */
  datatype Label = Neutral | Smile | Surprise | Frown | Cheeky

  /** A label that has a candidate score and a threshold of its own. */
  predicate IsCandidate(l: Label) {
    l != Neutral
  }

  /** The glyph table; the glyphs are written as Unicode code points. */
  const EmojiSet: map<Label, string> := map[
    Neutral  := "\U{1F610}",
    Smile    := "\U{1F642}",
    Surprise := "\U{1F62E}",
    Frown    := "\U{1F621}",
    Cheeky   := "\U{1F61C}"
  ]

  /** The threshold table: one entry per non-neutral label. */
  const EmotionThresholds: map<Label, real> := map[
    Smile    := 0.25,
    Surprise := 0.28,
    Frown    := 0.2,
    Cheeky   := 0.22
  ]

  /** The score the running best starts from, carried by `neutral`. */
  const Baseline: real := 0.15

  /** The order in which the candidates are considered. */
  const Order: seq<Label> := [Smile, Surprise, Frown, Cheeky]

  /** Every label has a glyph; the glyph table lookup. */
  function Glyph(l: Label): (g: string)
    ensures l in EmojiSet && g == EmojiSet[l]
    ensures g in EmojiSet.Values
  {
    match l
    case Neutral => EmojiSet[Neutral]
    case Smile => EmojiSet[Smile]
    case Surprise => EmojiSet[Surprise]
    case Frown => EmojiSet[Frown]
    case Cheeky => EmojiSet[Cheeky]
  }

  /** The threshold table lookup; only candidates have a threshold. */
  function Threshold(l: Label): (t: real)
    requires IsCandidate(l)
    ensures l in EmotionThresholds && t == EmotionThresholds[l]
    ensures t > Baseline
  {
    match l
    case Smile => EmotionThresholds[Smile]
    case Surprise => EmotionThresholds[Surprise]
    case Frown => EmotionThresholds[Frown]
    case Cheeky => EmotionThresholds[Cheeky]
  }

  /** Position of a candidate in `Order`. */
  function Rank(l: Label): (i: nat)
    requires IsCandidate(l)
    ensures i < |Order| && Order[i] == l
  {
    match l
    case Smile => 0
    case Surprise => 1
    case Frown => 2
    case Cheeky => 3
  }

  /** Reading a glyph back as the label it stands for. */
  function LabelOf(g: string): (r: Option<Label>)
    ensures r.Some? <==> g in EmojiSet.Values
    ensures r.Some? ==> Glyph(r.value) == g
  {
    if g == EmojiSet[Neutral] then Some(Neutral)
    else if g == EmojiSet[Smile] then Some(Smile)
    else if g == EmojiSet[Surprise] then Some(Surprise)
    else if g == EmojiSet[Frown] then Some(Frown)
    else if g == EmojiSet[Cheeky] then Some(Cheeky)
    else None
  }

  /** Every label has exactly one glyph and distinct labels have distinct glyphs. */
  lemma GlyphRoundTrip(l: Label)
    ensures LabelOf(Glyph(l)) == Some(l)
  {
  }

  /** The tables cover exactly the labels: all five glyphs, the four candidates' thresholds. */
  lemma TablesComplete()
    ensures EmojiSet.Keys == {Neutral, Smile, Surprise, Frown, Cheeky}
    ensures EmotionThresholds.Keys == set l | l in Order
    ensures forall l: Label :: IsCandidate(l) <==> l in EmotionThresholds
    ensures |EmojiSet.Values| == 5
  {
    var a, b, c, d, e := Glyph(Neutral), Glyph(Smile), Glyph(Surprise), Glyph(Frown), Glyph(Cheeky);
    assert EmojiSet.Values == {a, b, c, d, e} by {
      forall g | g in EmojiSet.Values ensures g in {a, b, c, d, e} {
        var l :| l in EmojiSet && EmojiSet[l] == g;
      }
    }
    assert a != b && a != c && a != d && a != e && b != c && b != d && b != e && c != d && c != e && d != e;
  }
}
