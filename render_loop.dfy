/**
 * The data flow of one render-loop cycle (`loop`): take the first detected
 * face's blendshapes, normalize them, classify the map, and draw the glyph.
 * The camera, the model's inference, the clock and the canvas are outside
 * the model; `running` and `ready` (a video and a landmarker exist) and the
 * outcome of the current frame's detection call are parameters.
 */
module RenderLoop {
  import opened Wrappers
  import opened Tables
  import opened Normalizer
  import opened Classifier

  /** The model's detection result for one frame: one blendshape result per face. */
  datatype DetectionResult = DetectionResult(faceBlendshapes: Option<seq<Classifications>>)

  /**
   * The outcome of `detectForVideo` for the current frame: it either throws
   * or returns a (possibly absent) detection result.
   */
  datatype Detection = Threw | Returned(res: Option<DetectionResult>)

  /**
   * What one cycle does: the glyph it draws, if any, whether it schedules the
   * next cycle, and whether it ends by propagating the detection's exception.
   */
  datatype Tick = Tick(drawn: Option<string>, rescheduled: bool, threw: bool)

  /** `res?.faceBlendshapes?.[0]`: the first face's result; further faces are ignored. */
  function FirstFace(res: Option<DetectionResult>): (f: Option<Classifications>)
    ensures f.Some? <==> res.Some? && res.value.faceBlendshapes.Some? && |res.value.faceBlendshapes.value| > 0
    ensures f.Some? ==> f.value == res.value.faceBlendshapes.value[0]
  {
    match res
    case None => None
    case Some(r) =>
      match r.faceBlendshapes
      case None => None
      case Some(faces) => if |faces| == 0 then None else Some(faces[0])
  }

  /**
   * The label shown for one face's result, normalized then classified; a
   * non-neutral label clears its own threshold on the normalized map.
   */
  function FaceEmotion(face: Option<Classifications>): (l: Label)
    ensures l != Neutral ==> Qualifies(ExpressionScores(LastWrites(Entries(face))), l)
  {
    Emotion(Some(LastWrites(Entries(face))))
  }

  /** A frame without a first face, or whose first face has no categories, shows neutral. */
  lemma NoCategoriesIsNeutral(res: Option<DetectionResult>)
    requires Entries(FirstFace(res)) == []
    ensures FaceEmotion(FirstFace(res)) == Neutral
  {
  }

  /** Faces after the first do not affect what is shown. */
  lemma OnlyFirstFaceMatters(f: Classifications, rest1: seq<Classifications>, rest2: seq<Classifications>)
    ensures FaceEmotion(FirstFace(Some(DetectionResult(Some([f] + rest1)))))
         == FaceEmotion(FirstFace(Some(DetectionResult(Some([f] + rest2)))))
    ensures FaceEmotion(FirstFace(Some(DetectionResult(Some([f] + rest1))))) == FaceEmotion(Some(f))
  {
  }

  /**
   * One cycle of `loop`: nothing happens once `running` is false; otherwise,
   * when a video and a landmarker are ready, the frame is detected and its
   * first face normalized and classified and its glyph drawn. A detection
   * that throws ends the cycle at once: no glyph is drawn and the next cycle
   * is not scheduled, while `running` stays as it was. Otherwise the next
   * cycle is scheduled. The last ensures, that a drawn glyph is one of the
   * table's five, is a corollary of the one before it.
   */
  method Loop(running: bool, ready: bool, detection: Detection) returns (tick: Tick)
    ensures tick.threw <==> running && ready && detection.Threw?
    ensures tick.rescheduled <==> running && !tick.threw
    ensures tick.drawn.Some? <==> running && ready && detection.Returned?
    ensures tick.drawn.Some? ==> tick.drawn.value == Glyph(FaceEmotion(FirstFace(detection.res)))
    ensures tick.drawn.Some? ==> tick.drawn.value in EmojiSet.Values
  {
    if !running {
      return Tick(None, false, false);
    }
    var drawn: Option<string> := None;
    if ready {
      if detection.Threw? {
        return Tick(None, false, true);
      }
      var blend := BlendMap(FirstFace(detection.res));
      var glyph := PickEmoji(Some(blend));
      drawn := Some(glyph);
    }
    tick := Tick(drawn, true, false);
  }
}
