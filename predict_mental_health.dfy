/**
 * The prediction script of the empathetic-response model: parsing the
 * `emotion:intensity` list of the command line, the extraction of the reply from the decoded output, and the defaults of
 * `main`. Generation and decoding are one parameter, from the prompt to
 * the decoded text. Its `format_prompt` is the same text as the training
 * script's, and is `TrainMentalHealthModel.FormatPrompt` here.
 */
module PredictMentalHealth {
  import opened Wrappers
  import Seqs
  import Strings
  import Format
  import Prompts
  import Train = TrainMentalHealthModel
  import Test = TestMentalHealthModel

  // ----- parse_emotions ------------------------------------------------------

  /** The intensity given to an emotion without a readable one. */
  const DefaultIntensity: real := 0.7

  /** `max(0.0, min(1.0, x))`. */
  function Clamp(x: real): (r: real)
    ensures 0.0 <= r <= 1.0
    ensures 0.0 <= x <= 1.0 ==> r == x
    ensures x < 0.0 ==> r == 0.0
    ensures x > 1.0 ==> r == 1.0
  {
    if 1.0 < x then 1.0 else if x < 0.0 then 0.0 else x
  }

  /** `float(text)`, with the bare `except` turning a failure into 0.7. */
  function IntensityOr(text: string): (x: real)
  {
    match Format.ParseFloat(text)
    case Some(v) => v
    case None => DefaultIntensity
  }

  /**
   * One comma-separated piece: stripped, split at its first ':' into a
   * name and an intensity, or all name with intensity 0.7.
   */
  function ParseItem(piece: string): (e: Prompts.EmotionItem)
    ensures e.intensity.Some? && 0.0 <= e.intensity.value <= 1.0
    ensures Strings.Stripped(e.emotion)
  {
    var item := Strings.Strip(piece);
    match Strings.IndexOf(item, ":")
    case None => Prompts.EmotionItem(Strings.Strip(item), Some(Clamp(DefaultIntensity)))
    case Some(i) => Prompts.EmotionItem(Strings.Strip(item[..i]), Some(Clamp(IntensityOr(item[i + 1..]))))
  }

  /** The entries `parse_emotions` returns for `s`. */
  function ParsedEmotions(s: string): (r: seq<Prompts.EmotionItem>)
  {
    if s == "" then [] else Seqs.Mapped(Strings.Split(s, ","), ParseItem)
  }

  /**
   * `parse_emotions`: [] for the empty string; otherwise exactly one entry
   * per comma-separated piece, in order, even for an empty piece.
   */
  method ParseEmotions(s: string) returns (es: seq<Prompts.EmotionItem>)
    ensures es == ParsedEmotions(s)
    ensures s == "" ==> es == []
    ensures s != "" ==> |es| == |Strings.Split(s, ",")|
  {
    es := [];
    if s == "" {
      return;
    }
    var pieces := Strings.Split(s, ",");
    var i := 0;
    while i < |pieces|
      invariant 0 <= i <= |pieces|
      invariant es == Seqs.Mapped(pieces[..i], ParseItem)
    {
      Seqs.MappedSnoc(pieces, ParseItem, i);
      es := es + [ParseItem(pieces[i])];
      i := i + 1;
    }
    assert pieces[..i] == pieces;
  }

  /** The piece at index `k` gives the entry at index `k`. */
  lemma ParsedAt(s: string, k: nat)
    requires s != "" && k < |Strings.Split(s, ",")|
    ensures k < |ParsedEmotions(s)| && ParsedEmotions(s)[k] == ParseItem(Strings.Split(s, ",")[k])
  {
    Seqs.MappedAt(Strings.Split(s, ","), ParseItem, k);
  }

  /** A stripped piece whose first ':' is at `i`. */
  lemma ParseItemAt(piece: string, i: nat)
    requires Strings.Stripped(piece) && Strings.IndexOf(piece, ":") == Some(i)
    ensures ParseItem(piece) == Prompts.EmotionItem(Strings.Strip(piece[..i]), Some(Clamp(IntensityOr(piece[i + 1..]))))
  {
    Strings.StripStripped(piece);
  }

  /** A piece without ':' is all name, at intensity 0.7. */
  lemma ParseBareName(name: string)
    requires ':' !in name
    ensures ParseItem(name) == Prompts.EmotionItem(Strings.Strip(name), Some(DefaultIntensity))
  {
    var item := Strings.Strip(name);
    var a, b := Strings.StripBounds(name);
    assert ':' !in item by {
      forall j | 0 <= j < |item| ensures item[j] != ':' {
        assert item[j] == name[a + j];
      }
    }
    Strings.NoHeadNoContains(item, ":");
    Strings.StripIdempotent(name);
  }

  /**
   * A piece `name:value` splits at its first ':' only: the value, colons
   * and all, is read by `float`, and an unreadable one gives 0.7.
   */
  lemma ParsePair(name: string, value: string)
    requires ':' !in name
    requires (name == [] || !Strings.IsSpace(name[0])) && (value == [] || !Strings.IsSpace(value[|value| - 1]))
    ensures ParseItem(name + ":" + value) == Prompts.EmotionItem(Strings.Strip(name), Some(Clamp(IntensityOr(value))))
  {
    FirstColon(name, value);
    StrippedAroundColon(name, value);
    ParseColonAt(name, value);
  }

  lemma ParseColonAt(name: string, value: string)
    requires Strings.Stripped(name + ":" + value) && Strings.IndexOf(name + ":" + value, ":") == Some(|name|)
    ensures ParseItem(name + ":" + value) == Prompts.EmotionItem(Strings.Strip(name), Some(Clamp(IntensityOr(value))))
  {
    Strings.CutAround(name, ":", value);
    ParseItemAt(name + ":" + value, |name|);
  }

  lemma StrippedAroundColon(name: string, value: string)
    requires (name == [] || !Strings.IsSpace(name[0])) && (value == [] || !Strings.IsSpace(value[|value| - 1]))
    ensures Strings.Stripped(name + ":" + value)
  {
    var s := name + ":" + value;
    assert !Strings.IsSpace(':');
    assert s[0] == if name == [] then ':' else name[0];
    assert s[|s| - 1] == if value == [] then ':' else value[|value| - 1];
  }

  /** The first ':' of `name:value` is the one after the name. */
  lemma FirstColon(name: string, value: string)
    requires ':' !in name
    ensures Strings.IndexOf(name + ":" + value, ":") == Some(|name|)
  {
    var s := name + ":" + value;
    assert s[|name|..|name| + 1] == ":";
    forall j | 0 <= j < |name| ensures !Strings.OccursAt(s, ":", j) {
      assert s[j..j + 1][0] == name[j];
    }
    Strings.IndexOfFirst(s, ":", |name|);
  }

  /** `name:value` pieces joined with commas parse back piece by piece. */
  lemma ParseJoined(pieces: seq<string>)
    requires |pieces| >= 1 && forall k :: 0 <= k < |pieces| ==> ',' !in pieces[k]
    requires Strings.Join(pieces, ",") != ""
    ensures ParsedEmotions(Strings.Join(pieces, ",")) == Seqs.Mapped(pieces, ParseItem)
  {
    var sep := ",";
    Strings.NoSelfOverlapByHead(sep);
    forall k | 0 <= k < |pieces| ensures !Strings.Contains(pieces[k], sep) {
      Strings.NoHeadNoContains(pieces[k], sep);
    }
    Strings.SplitJoin(pieces, sep);
  }

  // ----- the reply in the decoded output ---------------------------------------

  /**
   * The extraction in `generate_response` as written: the stripped text after
   * the last "Empathetic Response:", else the text with the prompt removed.
   */
  function ExtractResponseAsWritten(text: string, prompt: string): (r: string)
    ensures Strings.Stripped(r)
  {
    if Strings.Contains(text, Prompts.ResponseTag) then Strings.Strip(Strings.LastPiece(text, Prompts.ResponseTag))
    else Strings.Strip(Test.RemovePrompt(text, prompt))
  }

  /**
   * The prompt ends "Empathetic Response: [/INST]", so an output that echoes
   * it yields the reply with "[/INST]" still in front.
   */
  lemma InstLeftInReply(head: string, reply: string, prompt: string)
    requires !Strings.Contains(reply, Prompts.ResponseTag)
    ensures ExtractResponseAsWritten(head + Prompts.ResponseTag + Train.InstClose + reply, prompt)
      == Strings.Strip(Train.InstClose + reply)
    ensures Strings.StartsWith(ExtractResponseAsWritten(head + Prompts.ResponseTag + Train.InstClose + reply, prompt), "[/INST]")
  {
    var b := Train.InstClose + reply;
    var s := head + Prompts.ResponseTag + b;
    assert s == head + Prompts.ResponseTag + Train.InstClose + reply;
    assert Train.InstClose == [' ', '[', '/', 'I', 'N', 'S', 'T', ']'];
    Strings.NotContainsPrefix(Train.InstClose, reply, Prompts.ResponseTag);
    assert s[|head|..|head| + |Prompts.ResponseTag|] == Prompts.ResponseTag;
    Strings.ContainsAt(s, Prompts.ResponseTag, |head|);
    Prompts.ResponseTagApart();
    Strings.LastPieceAfter(head, Prompts.ResponseTag, b);
    InstStrip(reply);
  }

  lemma InstStrip(reply: string)
    ensures Strings.StartsWith(Strings.Strip(Train.InstClose + reply), "[/INST]")
  {
    var s := Train.InstClose + reply;
    var t := s[1..];
    assert s == [' '] + t && t == "[/INST]" + reply;
    assert Strings.IsSpace(s[0]) && !Strings.IsSpace(t[0]);
    assert Strings.TrimStart(s) == Strings.TrimStart(t);
    Strings.TrimStartOfNonSpace(t);
    Strings.TrimEndKeeps(t, 6);
    var u := Strings.TrimEnd(t);
    assert u == t[..|u|];
    assert u[..7] == t[..7] == "[/INST]";
  }

  /** The marker that ends every prompt. */
  const ReplyMarker: string := Prompts.ResponseTag + Train.InstClose

  lemma ReplyMarkerApart()
    ensures Strings.NoSelfOverlap(ReplyMarker)
  {
    var t := ReplyMarker;
    assert t == ['E', 'm', 'p', 'a', 't', 'h', 'e', 't', 'i', 'c', ' ', 'R', 'e', 's', 'p', 'o', 'n', 's', 'e', ':',
                 ' ', '[', '/', 'I', 'N', 'S', 'T', ']'];
    Strings.NoSelfOverlapByHead(t);
  }

  /**
   * The extraction as intended: what follows the last full
   * "Empathetic Response: [/INST]", and otherwise the extraction as written.
   */
  function ExtractReply(text: string, prompt: string): (r: string)
    ensures Strings.Stripped(r)
  {
    if Strings.Contains(text, ReplyMarker) then Strings.Strip(Strings.LastPiece(text, ReplyMarker))
    else ExtractResponseAsWritten(text, prompt)
  }

  /** Whatever precedes the last marker is dropped, and the reply alone remains. */
  lemma ExtractReplyAfterMarker(head: string, reply: string, prompt: string)
    requires !Strings.Contains(reply, ReplyMarker)
    ensures ExtractReply(head + ReplyMarker + reply, prompt) == Strings.Strip(reply)
  {
    var s := head + ReplyMarker + reply;
    assert s[|head|..|head| + |ReplyMarker|] == ReplyMarker;
    Strings.ContainsAt(s, ReplyMarker, |head|);
    ReplyMarkerApart();
    Strings.LastPieceAfter(head, ReplyMarker, reply);
  }

  /** Round trip with the prompt builder: an output echoing the prompt before the reply yields the stripped reply. */
  lemma ExtractReplyRoundTrip(entry: string, es: seq<Prompts.EmotionItem>, reply: string)
    requires !Strings.Contains(reply, ReplyMarker)
    ensures ExtractReply(Train.FormatPrompt(entry, es) + reply, Train.FormatPrompt(entry, es)) == Strings.Strip(reply)
  {
    var p := Train.FormatPrompt(entry, es);
    assert Strings.EndsWith(p, ReplyMarker);
    var head := p[..|p| - |ReplyMarker|];
    assert p == head + ReplyMarker;
    ExtractReplyAfterMarker(head, reply, p);
  }

  /** The same echo through the extraction as written keeps "[/INST]" in front of the reply. */
  lemma EchoKeepsInst(entry: string, es: seq<Prompts.EmotionItem>, reply: string)
    requires !Strings.Contains(reply, Prompts.ResponseTag)
    ensures Strings.StartsWith(ExtractResponseAsWritten(Train.FormatPrompt(entry, es) + reply, Train.FormatPrompt(entry, es)), "[/INST]")
  {
    var p := Train.FormatPrompt(entry, es);
    assert Strings.EndsWith(p, ReplyMarker);
    var head := p[..|p| - |ReplyMarker|];
    assert p + reply == head + Prompts.ResponseTag + Train.InstClose + reply;
    InstLeftInReply(head, reply, p);
  }

  // ----- main ------------------------------------------------------------------

  datatype RunError = FileNotFound | NoJournalEntry

  /** The `emotions` value of the JSON file: absent, a list, a string, or anything else. */
  datatype EmotionsField = NoEmotions | EmotionList(items: seq<Prompts.EmotionItem>) | EmotionText(text: string) | OtherEmotions

  /** The `--file` argument: a path that does not exist, or the loaded entry and emotions. */
  datatype JournalFile = FileMissing | FileData(journalEntry: string, emotions: EmotionsField)

  /** The command line; an absent `--text` or `--emotions` is the empty string, which Python treats alike. */
  datatype Args = Args(file: Option<JournalFile>, text: string, emotions: string)

  /** What the interactive mode reads: the lines up to end of input, then the emotions line. */
  datatype Console = Console(lines: seq<string>, emotionsLine: string)

  datatype Request = Request(entry: string, emotions: seq<Prompts.EmotionItem>)

  /** The journal entry from the arguments: `--text` over the file's `journal_entry`. */
  function ArgEntry(args: Args): (e: Option<string>)
    ensures args.text != "" ==> e == Some(args.text)
    ensures args.text == "" && args.file.Some? && args.file.value.FileData? ==> e == Some(args.file.value.journalEntry)
    ensures args.text == "" && args.file.None? ==> e.None?
  {
    if args.text != "" then Some(args.text)
    else match args.file
      case Some(FileData(entry, _)) => Some(entry)
      case _ => None
  }

  /** The emotions from the arguments: `--emotions` over the file's list or string. */
  function ArgEmotions(args: Args): (es: seq<Prompts.EmotionItem>)
    ensures args.emotions != "" ==> es == ParsedEmotions(args.emotions) && es != []
    ensures args.emotions == "" && args.file.None? ==> es == []
  {
    if args.emotions != "" then ParsedEmotions(args.emotions)
    else match args.file
      case Some(FileData(_, EmotionList(items))) => items
      case Some(FileData(_, EmotionText(text))) => ParsedEmotions(text)
      case _ => []
  }

  /** No entry, an empty one, or one of whitespace only. */
  predicate Blank(entry: Option<string>) {
    entry.None? || Strings.AllSpace(entry.value)
  }

  /**
   * `main` up to the blank-entry check: a missing file stops it; a blank
   * entry switches to the console, which supplies the entry and, only if
   * none were given, the emotions.
   */
  function Resolve(args: Args, console: Console): (r: Result<Request, RunError>)
    ensures r.Err? <==> args.file == Some(FileMissing)
    ensures r.Err? ==> r.error == FileNotFound
    ensures r.Ok? && !Blank(ArgEntry(args)) ==> r.value.entry == ArgEntry(args).value
    ensures r.Ok? && Blank(ArgEntry(args)) ==> r.value.entry == Strings.Join(console.lines, "\n")
    ensures r.Ok? && ArgEmotions(args) != [] ==> r.value.emotions == ArgEmotions(args)
    ensures r.Ok? && args.emotions != "" ==> r.value.emotions == ParsedEmotions(args.emotions)
  {
    if args.file == Some(FileMissing) then Err(FileNotFound)
    else
      var entry := ArgEntry(args);
      var es := ArgEmotions(args);
      if Blank(entry) then
        Ok(Request(Strings.Join(console.lines, "\n"), if es == [] then ParsedEmotions(Strings.Strip(console.emotionsLine)) else es))
      else Ok(Request(entry.value, es))
  }

  /** The emotion used when none is given. */
  const DefaultEmotions: seq<Prompts.EmotionItem> := [Prompts.EmotionItem("neutral", Some(0.5))]

  function EmotionsOrDefault(es: seq<Prompts.EmotionItem>): (r: seq<Prompts.EmotionItem>)
    ensures r != []
    ensures es != [] ==> r == es
    ensures es == [] ==> r == [Prompts.EmotionItem("neutral", Some(0.5))]
  {
    if es == [] then DefaultEmotions else es
  }

  /**
   * `main` after the input is resolved: an entry that is empty or all
   * whitespace aborts; otherwise the reply to the entry and the given
   * emotions, or "neutral" at 0.5 when none are given.
   */
  function Respond(req: Request, generate: string -> string): (r: Result<string, RunError>)
    ensures r.Err? <==> Strings.AllSpace(req.entry)
    ensures r.Err? ==> r.error == NoJournalEntry
    ensures r.Ok? ==> var p := Train.FormatPrompt(req.entry, EmotionsOrDefault(req.emotions)); r.value == ExtractReply(generate(p), p)
  {
    Strings.StripEmptyIff(req.entry);
    if req.entry == "" || Strings.Strip(req.entry) == "" then Err(NoJournalEntry)
    else
      var p := Train.FormatPrompt(req.entry, EmotionsOrDefault(req.emotions));
      Ok(ExtractReply(generate(p), p))
  }

  /**
   * The whole of `main`: when the output echoes the prompt before a reply
   * free of the marker, the printed response is that reply, stripped.
   */
  lemma MainEchoRoundTrip(args: Args, console: Console, reply: string, generate: string -> string)
    requires Resolve(args, console).Ok?
    requires !Strings.AllSpace(Resolve(args, console).value.entry)
    requires !Strings.Contains(reply, ReplyMarker)
    requires forall p :: generate(p) == p + reply
    ensures Respond(Resolve(args, console).value, generate) == Ok(Strings.Strip(reply))
  {
    var req := Resolve(args, console).value;
    ExtractReplyRoundTrip(req.entry, EmotionsOrDefault(req.emotions), reply);
  }

  /** With no emotions given, the prompt names "neutral" at 0.5. */
  lemma DefaultEmotionShown()
    ensures Prompts.EmotionsText(EmotionsOrDefault([])) == "neutral (0.5)"
  {
    assert Format.ScaledRound(0.5, 1) == 5;
    assert Format.DigitsN(5, 1) == "5";
    assert Format.Magnitude(5, 1) == "0.5";
    assert Prompts.RenderEmotion(DefaultEmotions[0]) == "neutral (0.5)";
    assert Prompts.Rendered(DefaultEmotions) == ["neutral (0.5)"];
  }
}
