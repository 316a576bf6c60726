/**
 * The emotion rules behind the smart bulb: a priority rule that names the mood of a line of
 * dialogue from its sentiment scores and whether it has an exclamation mark, and the colour and
 * brightness the bulb shows for a mood. The scores (compound in [-1, 1], positive and negative
 * shares in [0, 1]) come from the sentiment analyser and are inputs here.
 */
module EmotionBulb {

  /** The three sentiment scores the rule reads. */
  datatype Scores = Scores(compound: real, pos: real, neg: real)

  /** The five moods `get_emotion` can return. */
  predicate IsEmotion(e: string) {
    e == "excited" || e == "angry" || e == "happy" || e == "sad" || e == "serious"
  }

  /**
   * `get_emotion`: an exclamation with a positive share above 0.3 is excited, one with a
   * negative share above 0.3 angry; otherwise a compound score of at least 0.6 is happy, of at
   * most -0.4 sad, and anything else serious.
   */
  function GetEmotion(text: string, scores: Scores): (r: string)
    ensures IsEmotion(r)
  {
    if scores.pos > 0.3 && '!' in text then "excited"
    else if scores.neg > 0.3 && '!' in text then "angry"
    else if scores.compound >= 0.6 then "happy"
    else if scores.compound <= -0.4 then "sad"
    else "serious"
  }

  /** The rules are tried in the order excited, angry, happy, sad, serious; each mood holds exactly when it is the first that applies. */
  lemma EmotionPriority(text: string, s: Scores)
    ensures var r := GetEmotion(text, s); var bang := '!' in text;
      && (r == "excited" <==> bang && s.pos > 0.3)
      && (r == "angry" <==> bang && s.pos <= 0.3 && s.neg > 0.3)
      && (r == "happy" <==> !(bang && (s.pos > 0.3 || s.neg > 0.3)) && s.compound >= 0.6)
      && (r == "sad" <==> !(bang && (s.pos > 0.3 || s.neg > 0.3)) && s.compound <= -0.4)
      && (r == "serious" <==> !(bang && (s.pos > 0.3 || s.neg > 0.3)) && -0.4 < s.compound < 0.6)
  {
  }

  /** Without an exclamation mark the mood follows the compound score alone. */
  lemma NoExclamationNoExcitement(text: string, s: Scores)
    requires '!' !in text
    ensures GetEmotion(text, s) != "excited" && GetEmotion(text, s) != "angry"
    ensures GetEmotion(text, s) == GetEmotion(text, Scores(s.compound, 0.0, 0.0))
  {
  }

  /** With an exclamation mark and a positive share above 0.3 the mood is excited, whatever the negative share. */
  lemma ExclamationPositiveIsExcited(text: string, s: Scores, neg: real)
    requires '!' in text && s.pos > 0.3
    ensures GetEmotion(text, s) == "excited" && GetEmotion(text, s.(neg := neg)) == "excited"
  {
  }

  // ---------------------------------------------------------------------------------------------
  // Colour

  /** The bulb setting: red, green, blue and brightness. */
  datatype Setting = Setting(r: int, g: int, b: int, brightness: int)

  /** `abs(x)`. */
  function Abs(x: real): (r: real)
    ensures r >= 0.0 && (r == x || r == -x)
  {
    if x >= 0.0 then x else -x
  }

  /** `min(255, max(150, int(150 + abs(intensity) * 105)))`; `int` of a non-negative number is its floor. */
  function Brightness(intensity: real): (r: int)
    ensures 150 <= r <= 255
    ensures intensity == 0.0 ==> r == 150
  {
    var raw := (150.0 + Abs(intensity) * 105.0).Floor;
    var atLeast := if 150 >= raw then 150 else raw;
    if 255 <= atLeast then 255 else atLeast
  }

  /** Brightness depends on the size of the intensity only, and grows with it. */
  lemma BrightnessMonotone(x: real, y: real)
    requires Abs(x) <= Abs(y)
    ensures Brightness(x) <= Brightness(y)
    ensures Brightness(x) == Brightness(-x)
  {
    var a := 150.0 + Abs(x) * 105.0;
    var b := 150.0 + Abs(y) * 105.0;
    FloorMonotone(a, b);
  }

  lemma FloorMonotone(a: real, b: real)
    requires a <= b
    ensures a.Floor <= b.Floor
  {
    assert a.Floor as real <= a <= b < (b.Floor + 1) as real;
  }

  /** A full-size intensity (|i| = 1) gives full brightness, 255. */
  lemma FullIntensityIsFullBrightness(intensity: real)
    requires Abs(intensity) >= 1.0
    ensures Brightness(intensity) == 255
  {
    var raw := 150.0 + Abs(intensity) * 105.0;
    assert raw >= 255.0;
    FloorMonotone(255.0, raw);
  }

  /** `color_map.get(emotion, (255, 255, 255))`. */
  function Colour(emotion: string): (rgb: (int, int, int))
    ensures !IsEmotion(emotion) ==> rgb == (255, 255, 255)
    ensures IsEmotion(emotion) ==> rgb != (255, 255, 255)
  {
    match emotion
    case "happy" => (255, 255, 0)
    case "sad" => (0, 0, 255)
    case "excited" => (255, 165, 0)
    case "angry" => (255, 0, 0)
    case "serious" => (128, 128, 128)
    case _ => (255, 255, 255)
  }

  /** `get_emotion_color`: the mood's colour at the brightness of the intensity. */
  function GetEmotionColor(emotion: string, intensity: real): (s: Setting)
    ensures (s.r, s.g, s.b) == Colour(emotion)
    ensures s.brightness == Brightness(intensity)
    ensures 0 <= s.r <= 255 && 0 <= s.g <= 255 && 0 <= s.b <= 255 && 150 <= s.brightness <= 255
  {
    var rgb := Colour(emotion);
    Setting(rgb.0, rgb.1, rgb.2, Brightness(intensity))
  }

  /** The five moods have five different colours, so the bulb tells them apart. */
  lemma ColoursDistinct(e1: string, e2: string)
    requires IsEmotion(e1) && IsEmotion(e2) && e1 != e2
    ensures Colour(e1) != Colour(e2)
  {
  }
}
