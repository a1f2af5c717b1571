/**
 * The emotion list shared by the empathetic-response prompts: each
 * `{"emotion": ..., "intensity": ...}` dict rendered as `name (x.x)`,
 * 0.7 standing in for a missing intensity, joined with ", ".
 */
module Prompts {
  import opened Wrappers
  import Strings
  import Format

  /** One emotion dict; the `intensity` key may be absent. */
  datatype EmotionItem = EmotionItem(emotion: string, intensity: Option<real>)

  /** The instruction every prompt opens with. */
  const SystemMessage: string := "You are a compassionate mental health professional. Generate an empathetic psychological response to the following journal entry, considering the identified emotions and their intensities."

  /** The label after which every prompt expects the reply. */
  const ResponseTag: string := "Empathetic Response:"

  /** No proper suffix of the label is also its prefix, so its occurrences never overlap. */
  lemma ResponseTagApart()
    ensures Strings.NoSelfOverlap(ResponseTag)
  {
    var t := ResponseTag;
    assert t == ['E', 'm', 'p', 'a', 't', 'h', 'e', 't', 'i', 'c', ' ', 'R', 'e', 's', 'p', 'o', 'n', 's', 'e', ':'];
    Strings.NoSelfOverlapByHead(t);
  }

  /** `e.get('intensity', 0.7)`. */
  function IntensityOf(e: EmotionItem): (x: real)
    ensures e.intensity.Some? ==> x == e.intensity.value
    ensures e.intensity.None? ==> x == 0.7
  {
    match e.intensity
    case None => 0.7
    case Some(x) => x
  }

  /** `f"{e['emotion']} ({e.get('intensity', 0.7):.1f})"`. */
  function RenderEmotion(e: EmotionItem): (r: string)
    ensures Strings.StartsWith(r, e.emotion) && Strings.EndsWith(r, ")")
  {
    var r := e.emotion + " (" + Format.Fixed(IntensityOf(e), 1) + ")";
    assert r[..|e.emotion|] == e.emotion;
    r
  }

  function Rendered(es: seq<EmotionItem>): (r: seq<string>)
    ensures |r| == |es| && forall k :: 0 <= k < |es| ==> r[k] == RenderEmotion(es[k])
  {
    seq(|es|, k requires 0 <= k < |es| => RenderEmotion(es[k]))
  }

  /** `", ".join(...)` over the rendered emotions. */
  function EmotionsText(es: seq<EmotionItem>): string {
    Strings.Join(Rendered(es), ", ")
  }

  /** A missing intensity is written as 0.7. */
  lemma RenderDefault(name: string)
    ensures RenderEmotion(EmotionItem(name, None)) == name + " (0.7)"
  {
    assert Format.ScaledRound(0.7, 1) == 7;
    assert Format.DigitsN(7, 1) == "7";
    assert Format.Magnitude(7, 1) == "0.7";
  }

  /** No rendered emotion holds a comma when its name holds none. */
  lemma RenderNoComma(e: EmotionItem)
    requires ',' !in e.emotion
    ensures ',' !in RenderEmotion(e)
  {
    var f := Format.Fixed(IntensityOf(e), 1);
    Format.FixedChars(IntensityOf(e), 1);
    assert ',' !in f;
  }

  /** With comma-free names the list splits back into the rendered emotions, in order. */
  lemma EmotionsTextSplit(es: seq<EmotionItem>)
    requires |es| >= 1 && forall k :: 0 <= k < |es| ==> ',' !in es[k].emotion
    ensures Strings.Split(EmotionsText(es), ", ") == Rendered(es)
  {
    var sep := ", ";
    Strings.NoSelfOverlapByHead(sep);
    forall k | 0 <= k < |es| ensures !Strings.Contains(Rendered(es)[k], sep) {
      RenderNoComma(es[k]);
      Strings.NoHeadNoContains(Rendered(es)[k], sep);
    }
    Strings.SplitJoin(Rendered(es), sep);
  }
}
