/**
 * Turning raw EmpatheticDialogues conversations into (journal entry,
 * emotion, first empathetic response) rows: the text cleaner, the search
 * for the first acceptable reply by another speaker, the length filter and
 * the de-duplication on (entry, emotion).
 */
module ProcessEmpatheticDialogues {
  import opened Wrappers
  import Strings
  import Frames
  import Dialogues

  // ----- clean_text ---------------------------------------------------------

  /** `pd.isna(text) or text == 'nan'`. */
  predicate IsMissing(c: Frames.Cell) {
    c.NaN? || c.NoneCell? || (c.Str? && c.s == "nan")
  }

  /** The dataset's placeholder tokens and their punctuation, in replacement order. */
  const Placeholders: seq<(string, string)> := [
    ("_comma_", ","), ("_period_", "."), ("_exclamation_", "!"), ("_question_", "?"),
    ("_apostrophe_", "'"), ("_colon_", ":"), ("_semicolon_", ";"), ("_newline_", "\n")]

  predicate Patterns(ps: seq<(string, string)>) {
    forall k :: 0 <= k < |ps| ==> |ps[k].0| > 0
  }

  /** The `replace` calls in order. */
  function ReplaceAll(s: string, ps: seq<(string, string)>): (r: string)
    requires Patterns(ps)
    decreases |ps|
  {
    if ps == [] then s else ReplaceAll(Strings.Replace(s, ps[0].0, ps[0].1), ps[1..])
  }

  /** Text without an underscore holds no placeholder, so the replacements leave it alone. */
  lemma {:induction false} ReplaceAllNoUnderscore(s: string, ps: seq<(string, string)>)
    requires Patterns(ps) && forall k :: 0 <= k < |ps| ==> '_' in ps[k].0
    requires '_' !in s
    ensures ReplaceAll(s, ps) == s
    decreases |ps|
  {
    if ps != [] {
      var p := ps[0].0;
      Strings.ContainsIff(s, p);
      Strings.ReplaceAbsent(s, p, ps[0].1);
      ReplaceAllNoUnderscore(s, ps[1..]);
    }
  }

  /** The position of the first `>` in `t`. */
  function Close(t: string): (r: Option<nat>)
    ensures r.Some? ==> r.value < |t| && t[r.value] == '>'
    ensures r.Some? ==> forall j :: 0 <= j < r.value ==> t[j] != '>'
    ensures r.None? <==> forall j :: 0 <= j < |t| ==> t[j] != '>'
  {
    if t == [] then None
    else if t[0] == '>' then Some(0)
    else match Close(t[1..])
      case None => None
      case Some(k) => Some(k + 1)
  }

  /**
   * `re.sub(r'<[^>]+>', '', s)`: a `<` followed by at least one character
   * other than `>` and then a `>` is removed, leftmost first.
   */
  function RemoveTags(s: string): (r: string)
    ensures |r| <= |s|
    decreases |s|
  {
    if s == [] then []
    else if s[0] == '<' && Close(s[1..]).Some? && Close(s[1..]).value > 0 then
      RemoveTags(s[Close(s[1..]).value + 2..])
    else [s[0]] + RemoveTags(s[1..])
  }

  /** No `<...>` tag left: each `<` has no `>` after it, or one right after it. */
  predicate Tagless(s: string)
    decreases |s|
  {
    s == [] || ((s[0] == '<' ==> Close(s[1..]).None? || Close(s[1..]) == Some(0)) && Tagless(s[1..]))
  }

  /** Removing tags only drops characters. */
  lemma {:induction false} RemoveTagsChars(s: string)
    ensures forall k :: 0 <= k < |RemoveTags(s)| ==> RemoveTags(s)[k] in s
    decreases |s|
  {
    if s != [] {
      if s[0] == '<' && Close(s[1..]).Some? && Close(s[1..]).value > 0 {
        var rest := s[Close(s[1..]).value + 2..];
        RemoveTagsChars(rest);
        forall k | 0 <= k < |RemoveTags(s)| ensures RemoveTags(s)[k] in s {
          var m :| 0 <= m < |rest| && rest[m] == RemoveTags(s)[k];
          assert s[Close(s[1..]).value + 2 + m] == rest[m];
        }
      } else {
        RemoveTagsChars(s[1..]);
        forall k | 0 <= k < |RemoveTags(s)| ensures RemoveTags(s)[k] in s {
          if k > 0 {
            var m :| 0 <= m < |s| - 1 && s[1..][m] == RemoveTags(s)[k];
            assert s[m + 1] == s[1..][m];
          }
        }
      }
    }
  }

  /** What is left after removing tags holds no tag. */
  lemma {:induction false} RemoveTagsTagless(s: string)
    ensures Tagless(RemoveTags(s))
    decreases |s|
  {
    if s != [] {
      if s[0] == '<' && Close(s[1..]).Some? && Close(s[1..]).value > 0 {
        RemoveTagsTagless(s[Close(s[1..]).value + 2..]);
      } else {
        var rest := RemoveTags(s[1..]);
        RemoveTagsTagless(s[1..]);
        assert ([s[0]] + rest)[1..] == rest;
        if s[0] == '<' {
          if Close(s[1..]).None? {
            RemoveTagsChars(s[1..]);
            forall j | 0 <= j < |rest| ensures rest[j] != '>' {
              var m :| 0 <= m < |s| - 1 && s[1..][m] == rest[j];
            }
          } else {
            assert s[1] == '>';
            assert rest == [s[1]] + RemoveTags(s[2..]) by {
              assert s[1..][1..] == s[2..];
            }
          }
        }
      }
    }
  }

  /** Text without tags comes back unchanged. */
  lemma {:induction false} TaglessUnchanged(s: string)
    requires Tagless(s)
    ensures RemoveTags(s) == s
    decreases |s|
  {
    if s != [] {
      TaglessUnchanged(s[1..]);
      assert s == [s[0]] + s[1..];
    }
  }

  /** Tag removal changes a text exactly when it holds a tag. */
  lemma RemoveTagsIdentity(s: string)
    ensures RemoveTags(s) == s <==> Tagless(s)
  {
    RemoveTagsTagless(s);
    if Tagless(s) {
      TaglessUnchanged(s);
    }
  }

  /** Tag removal brings in no new kind of whitespace. */
  lemma RemoveTagsPlain(s: string)
    requires Strings.OnlyPlainSpaces(s)
    ensures Strings.OnlyPlainSpaces(RemoveTags(s))
  {
    var r := RemoveTags(s);
    RemoveTagsChars(s);
    forall k | 0 <= k < |r| && Strings.IsSpace(r[k]) ensures r[k] == ' ' {
      var m :| 0 <= m < |s| && s[m] == r[k];
    }
  }

  /** The cleaning steps after the missing-value check. */
  function CleanString(s: string): (r: string)
    ensures Strings.Stripped(r)
    ensures Strings.OnlyPlainSpaces(r)
  {
    PlaceholderPatterns();
    var collapsed := Strings.CollapseSpaces(ReplaceAll(Strings.Strip(s), Placeholders));
    RemoveTagsPlain(collapsed);
    Strings.OnlyPlainSpacesStrip(RemoveTags(collapsed));
    Strings.Strip(RemoveTags(collapsed))
  }

  /**
   * `clean_text`: strip, the placeholder replacements, the `\s+` collapse,
   * tag removal and a final strip; a missing value or 'nan' is "". Every
   * whitespace character left is a plain space, so even `_newline_` ends up
   * as a space.
   */
  function CleanText(c: Frames.Cell): (r: string)
    ensures IsMissing(c) ==> r == ""
    ensures Strings.Stripped(r)
    ensures Strings.OnlyPlainSpaces(r)
  {
    if IsMissing(c) then "" else CleanString(Frames.CellText(c))
  }

  /**
   * Whitespace is collapsed before tags are removed, so removing a tag
   * between two spaces leaves a double space.
   */
  lemma TagLeavesDoubleSpace()
    ensures CleanString("a <b> c") == "a  c"
  {
    calc {
      CleanString("a <b> c");
      { ExampleCleanPlain(); }
      Strings.Strip(RemoveTags("a <b> c"));
      { RemoveTagsExample(); }
      Strings.Strip("a  c");
      { ExampleResultStripped(); }
      "a  c";
    }
  }

  lemma ExampleCleanPlain()
    ensures CleanString("a <b> c") == Strings.Strip(RemoveTags("a <b> c"))
  {
    ExampleStripped();
    ExampleSingleSpaced();
    ExamplePlain();
    CleanStringPlain("a <b> c");
  }

  lemma ExampleResultStripped()
    ensures Strings.Strip("a  c") == "a  c"
  {
    assert "a  c"[0] == 'a' && "a  c"[3] == 'c';
    Strings.StripStripped("a  c");
  }

  lemma ExampleStripped()
    ensures Strings.Stripped("a <b> c")
  {
    assert "a <b> c" == ['a', ' ', '<', 'b', '>', ' ', 'c'];
  }

  lemma ExampleSingleSpaced()
    ensures Strings.NoDoubleSpace("a <b> c")
  {
    var s := "a <b> c";
    assert s == ['a', ' ', '<', 'b', '>', ' ', 'c'];
    forall i | 0 <= i < |s| - 1 ensures !(Strings.IsSpace(s[i]) && Strings.IsSpace(s[i + 1])) {
      assert i == 0 || i == 1 || i == 2 || i == 3 || i == 4 || i == 5;
    }
  }

  lemma ExamplePlain()
    ensures Strings.OnlyPlainSpaces("a <b> c") && '_' !in "a <b> c"
  {
    var s := "a <b> c";
    assert s == ['a', ' ', '<', 'b', '>', ' ', 'c'];
    forall i | 0 <= i < |s| && Strings.IsSpace(s[i]) ensures s[i] == ' ' {
      assert i == 0 || i == 1 || i == 2 || i == 3 || i == 4 || i == 5 || i == 6;
    }
  }

  /** On a stripped text with single plain spaces and no placeholder, only tag removal and the final strip act. */
  lemma CleanStringPlain(s: string)
    requires Strings.Stripped(s) && Strings.NoDoubleSpace(s) && Strings.OnlyPlainSpaces(s) && '_' !in s
    ensures CleanString(s) == Strings.Strip(RemoveTags(s))
  {
    Strings.StripStripped(s);
    PlaceholdersUnderscored();
    ReplaceAllNoUnderscore(s, Placeholders);
    Strings.CollapseFixed(s);
  }

  lemma PlaceholderPatterns()
    ensures Patterns(Placeholders)
  {
    var ps := Placeholders;
    assert ps[0].0[0] == ps[1].0[0] == ps[2].0[0] == ps[3].0[0] == '_';
    assert ps[4].0[0] == ps[5].0[0] == ps[6].0[0] == ps[7].0[0] == '_';
  }

  lemma PlaceholdersUnderscored()
    ensures Patterns(Placeholders) && forall k :: 0 <= k < |Placeholders| ==> '_' in Placeholders[k].0
  {
  }

  lemma RemoveTagsExample()
    ensures RemoveTags("a <b> c") == "a  c"
  {
    var tail: string := [' ', 'c'];
    var tag: string := ['<', 'b', '>'] + tail;
    RemoveTagsPlainChar(' ', ['c']);
    RemoveTagsPlainChar('c', []);
    assert Close(tag[1..]) == Some(1) by {
      assert tag[1..][0] == 'b' && tag[1..][1] == '>';
    }
    assert tag[3..] == tail;
    RemoveTagsPlainChar(' ', tag);
    RemoveTagsPlainChar('a', [' '] + tag);
    assert "a <b> c" == ['a'] + ([' '] + tag);
    assert "a  c" == ['a'] + ([' '] + tail);
  }

  lemma RemoveTagsPlainChar(c: char, t: string)
    requires c != '<'
    ensures RemoveTags([c] + t) == [c] + RemoveTags(t)
  {
    assert ([c] + t)[1..] == t;
  }

  // ----- the first empathetic response ------------------------------------

  /** One output row. */
  datatype Processed = Processed(journalEntry: string, emotion: string, response: string, convId: string, utteranceIdx: int)

  /** A reply, once cleaned, is kept when it is longer than 10 characters and is no greeting. */
  predicate Acceptable(response: string) {
    var l := Strings.Lower(response);
    response != [] && |response| > 10
    && !(Strings.StartsWith(l, "hi") || Strings.StartsWith(l, "hello") || Strings.StartsWith(l, "hey"))
  }

  function AcceptMask(rows: seq<Dialogues.Utterance>): (m: seq<bool>)
    ensures |m| == |rows| && forall k :: 0 <= k < |rows| ==> m[k] == Acceptable(CleanText(rows[k].utterance))
  {
    seq(|rows|, k requires 0 <= k < |rows| => Acceptable(CleanText(rows[k].utterance)))
  }

  /**
   * The scan for a reply from position `k` on, with `speaker` the speaker
   * of the latest opening row seen so far (`None` before the first); an
   * opening row updates it and is never a reply itself.
   */
  function PickFrom(rows: seq<Dialogues.Utterance>, ok: seq<bool>, k: nat, speaker: Option<int>): (r: Option<nat>)
    requires |ok| == |rows| && k <= |rows|
    ensures r.Some? ==> k <= r.value < |rows|
    decreases |rows| - k
  {
    if k == |rows| then None
    else if rows[k].utteranceIdx == 1 then PickFrom(rows, ok, k + 1, Some(rows[k].speakerIdx))
    else if speaker != Some(rows[k].speakerIdx) && ok[k] then Some(k)
    else PickFrom(rows, ok, k + 1, speaker)
  }

  /** The speaker of the latest opening row before position `k`. */
  function SpeakerBefore(rows: seq<Dialogues.Utterance>, k: nat): Option<int>
    requires k <= |rows|
  {
    if k == 0 then None
    else if rows[k - 1].utteranceIdx == 1 then Some(rows[k - 1].speakerIdx)
    else SpeakerBefore(rows, k - 1)
  }

  /** Row `k` is a candidate reply that passes the checks. */
  predicate Qualifies(rows: seq<Dialogues.Utterance>, ok: seq<bool>, k: nat)
    requires |ok| == |rows| && k < |rows|
  {
    rows[k].utteranceIdx != 1 && SpeakerBefore(rows, k) != Some(rows[k].speakerIdx) && ok[k]
  }

  /** The scan finds the first qualifying row; failing candidates do not end it. */
  lemma {:induction false} PickFromFirst(rows: seq<Dialogues.Utterance>, ok: seq<bool>, k: nat)
    requires |ok| == |rows| && k <= |rows|
    ensures var r := PickFrom(rows, ok, k, SpeakerBefore(rows, k));
      (r.Some? ==> Qualifies(rows, ok, r.value) && forall j :: k <= j < r.value ==> !Qualifies(rows, ok, j))
      && (r.None? ==> forall j :: k <= j < |rows| ==> !Qualifies(rows, ok, j))
    decreases |rows| - k
  {
    if k < |rows| {
      PickFromFirst(rows, ok, k + 1);
    }
  }

  /** The reply chosen for a conversation, if any. */
  function Reply(rows: seq<Dialogues.Utterance>): (r: Option<nat>)
    ensures r.Some? ==> r.value < |rows| && Qualifies(rows, AcceptMask(rows), r.value)
    ensures r.Some? ==> forall j :: 0 <= j < r.value ==> !Qualifies(rows, AcceptMask(rows), j)
    ensures r.None? ==> forall j :: 0 <= j < |rows| ==> !Qualifies(rows, AcceptMask(rows), j)
  {
    PickFromFirst(rows, AcceptMask(rows), 0);
    PickFrom(rows, AcceptMask(rows), 0, None)
  }

  /** The row a conversation contributes, or none. */
  function Respond(g: Dialogues.Group): (r: Option<Processed>)
    ensures r.Some? ==> r.value.convId == g.convId
  {
    match Dialogues.Opening(g.rows)
    case None => None
    case Some(o) =>
      var entry := CleanText(g.rows[o].prompt);
      var emotion := CleanText(g.rows[o].context);
      if entry == [] || emotion == [] then None
      else match Reply(g.rows)
        case None => None
        case Some(k) => Some(Processed(entry, emotion, CleanText(g.rows[k].utterance), g.convId, g.rows[k].utteranceIdx))
  }

  /** A contributed row has a non-empty entry and emotion and a reply that passes the checks. */
  lemma RespondFacts(g: Dialogues.Group)
    ensures Respond(g).Some? ==> Respond(g).value.journalEntry != [] && Respond(g).value.emotion != []
    ensures Respond(g).Some? ==> Acceptable(Respond(g).value.response)
  {
    var r := Respond(g);
    if r.Some? {
      var o := Dialogues.Opening(g.rows).value;
      var k := Reply(g.rows).value;
      assert r.value == Processed(CleanText(g.rows[o].prompt), CleanText(g.rows[o].context),
                                  CleanText(g.rows[k].utterance), g.convId, g.rows[k].utteranceIdx);
      assert AcceptMask(g.rows)[k];
    }
  }

  function OutIds(ps: seq<Processed>): (r: seq<string>)
    ensures |r| == |ps| && forall k :: 0 <= k < |ps| ==> r[k] == ps[k].convId
  {
    seq(|ps|, k requires 0 <= k < |ps| => ps[k].convId)
  }

  /** What each conversation would contribute on its own. */
  function Responses(groups: seq<Dialogues.Group>): (r: seq<Option<Processed>>)
    ensures |r| == |groups| && forall k :: 0 <= k < |groups| ==> r[k] == Respond(groups[k])
  {
    seq(|groups|, k requires 0 <= k < |groups| => Respond(groups[k]))
  }

  /** The outer loop over the contributions: a conversation whose id was already used is skipped. */
  function Collect(groups: seq<Dialogues.Group>, outs: seq<Option<Processed>>): (r: seq<Processed>)
    requires |outs| == |groups|
  {
    if groups == [] then []
    else
      var prev := Collect(groups[..|groups| - 1], outs[..|outs| - 1]);
      if groups[|groups| - 1].convId in OutIds(prev) then prev
      else match outs[|outs| - 1]
        case None => prev
        case Some(p) => prev + [p]
  }

  /** `extract_first_empathetic_response`. */
  function ExtractSpec(groups: seq<Dialogues.Group>): seq<Processed> {
    Collect(groups, Responses(groups))
  }

  predicate DistinctIds(ps: seq<Processed>) {
    forall i, j :: 0 <= i < j < |ps| ==> ps[i].convId != ps[j].convId
  }

  /** Every collected row is one conversation's contribution, with that conversation's id. */
  lemma {:induction false} CollectSources(groups: seq<Dialogues.Group>, outs: seq<Option<Processed>>, k: nat)
    requires |outs| == |groups|
    requires forall i :: 0 <= i < |groups| && outs[i].Some? ==> outs[i].value.convId == groups[i].convId
    requires k < |Collect(groups, outs)|
    ensures exists i :: 0 <= i < |groups| && outs[i] == Some(Collect(groups, outs)[k])
  {
    var n := |groups| - 1;
    if k < |Collect(groups[..n], outs[..n])| {
      CollectSources(groups[..n], outs[..n], k);
      var i :| 0 <= i < n && outs[..n][i] == Some(Collect(groups[..n], outs[..n])[k]);
      assert outs[i] == outs[..n][i];
    } else {
      assert outs[n] == Some(Collect(groups, outs)[k]);
    }
  }

  /** At most one collected row per conversation id. */
  lemma {:induction false} CollectDistinct(groups: seq<Dialogues.Group>, outs: seq<Option<Processed>>)
    requires |outs| == |groups|
    requires forall i :: 0 <= i < |groups| && outs[i].Some? ==> outs[i].value.convId == groups[i].convId
    ensures DistinctIds(Collect(groups, outs))
  {
    if groups != [] {
      var n := |groups| - 1;
      CollectDistinct(groups[..n], outs[..n]);
    }
  }

  /** `seen` makes at most one output row per conversation id. */
  lemma ExtractDistinct(groups: seq<Dialogues.Group>)
    ensures DistinctIds(ExtractSpec(groups))
  {
    CollectDistinct(groups, Responses(groups));
  }

  /**
   * Each output row is the contribution of one conversation, so its entry
   * and emotion are non-empty and its reply passes the checks.
   */
  lemma ExtractSources(groups: seq<Dialogues.Group>, k: nat)
    requires k < |ExtractSpec(groups)|
    ensures exists g :: g in groups && Respond(g) == Some(ExtractSpec(groups)[k])
    ensures var p := ExtractSpec(groups)[k]; p.journalEntry != [] && p.emotion != [] && Acceptable(p.response)
  {
    CollectSources(groups, Responses(groups), k);
    var i :| 0 <= i < |groups| && Responses(groups)[i] == Some(ExtractSpec(groups)[k]);
    assert groups[i] in groups;
    RespondFacts(groups[i]);
  }

  /** The second loop: `continue` on opening rows, `break` at the first accepted reply. */
  method FindReply(rows: seq<Dialogues.Utterance>) returns (k: Option<nat>)
    ensures k == Reply(rows)
  {
    ghost var ok := AcceptMask(rows);
    var speaker: Option<int> := None;
    var i := 0;
    while i < |rows|
      invariant 0 <= i <= |rows|
      invariant PickFrom(rows, ok, i, speaker) == PickFrom(rows, ok, 0, None)
    {
      if rows[i].utteranceIdx == 1 {
        speaker := Some(rows[i].speakerIdx);
        i := i + 1;
        continue;
      }
      if speaker != Some(rows[i].speakerIdx) {
        var response := CleanText(rows[i].utterance);
        if Acceptable(response) {
          return Some(i);
        }
      }
      i := i + 1;
    }
    return None;
  }

  /** One conversation: the opening row, its cleaned prompt and context, then the reply scan. */
  method RespondTo(g: Dialogues.Group) returns (r: Option<Processed>)
    ensures r == Respond(g)
  {
    var o := Dialogues.Opening(g.rows);
    if o.None? {
      return None;
    }
    var entry := CleanText(g.rows[o.value].prompt);
    var emotion := CleanText(g.rows[o.value].context);
    if entry == [] || emotion == [] {
      return None;
    }
    var k := FindReply(g.rows);
    if k.None? {
      return None;
    }
    r := Some(Processed(entry, emotion, CleanText(g.rows[k.value].utterance), g.convId, g.rows[k.value].utteranceIdx));
  }

  /** One more conversation: skipped when its id is taken, else its contribution, if any, is appended. */
  lemma CollectSnoc(groups: seq<Dialogues.Group>, outs: seq<Option<Processed>>, i: nat)
    requires |outs| == |groups| && i < |groups|
    ensures var prev := Collect(groups[..i], outs[..i]);
      Collect(groups[..i + 1], outs[..i + 1])
      == if groups[i].convId in OutIds(prev) || outs[i].None? then prev else prev + [outs[i].value]
  {
    assert groups[..i + 1][..i] == groups[..i] && outs[..i + 1][..i] == outs[..i];
  }

  /** The `seen` set after collecting `ps`. */
  function IdSet(ps: seq<Processed>): (r: set<string>)
    ensures forall id :: id in r <==> id in OutIds(ps)
  {
    set k | 0 <= k < |ps| :: ps[k].convId
  }

  lemma IdSetSnoc(ps: seq<Processed>, p: Processed)
    ensures IdSet(ps + [p]) == IdSet(ps) + {p.convId}
  {
    assert OutIds(ps + [p]) == OutIds(ps) + [p.convId];
  }

  method ExtractFirstEmpatheticResponse(groups: seq<Dialogues.Group>) returns (out: seq<Processed>)
    ensures out == ExtractSpec(groups)
  {
    out := [];
    var seen: set<string> := {};
    var i := 0;
    ghost var outs := Responses(groups);
    while i < |groups|
      invariant 0 <= i <= |groups|
      invariant out == Collect(groups[..i], outs[..i])
      invariant seen == IdSet(out)
    {
      var g := groups[i];
      CollectSnoc(groups, outs, i);
      if g.convId in seen {
        i := i + 1;
        continue;
      }
      var p := RespondTo(g);
      assert p == outs[i];
      if p.Some? {
        IdSetSnoc(out, p.value);
        out := out + [p.value];
        seen := seen + {g.convId};
      }
      i := i + 1;
    }
    assert groups[..i] == groups && outs[..i] == outs;
  }

  // ----- process_dataset ----------------------------------------------------

  /** The length filter on entry and response. */
  predicate LengthOk(p: Processed) {
    10 < |p.journalEntry| < 2000 && 10 < |p.response| < 1000
  }

  function LengthMask(ps: seq<Processed>): (m: seq<bool>)
    ensures |m| == |ps| && forall k :: 0 <= k < |ps| ==> m[k] == LengthOk(ps[k])
  {
    seq(|ps|, k requires 0 <= k < |ps| => LengthOk(ps[k]))
  }

  function Key(p: Processed): (string, string) {
    (p.journalEntry, p.emotion)
  }

  function Keys(ps: seq<Processed>): (r: seq<(string, string)>)
    ensures |r| == |ps| && forall k :: 0 <= k < |ps| ==> r[k] == Key(ps[k])
  {
    seq(|ps|, k requires 0 <= k < |ps| => Key(ps[k]))
  }

  /** Row `k` is the first with its (entry, emotion) pair. */
  function FirstOfKey(ps: seq<Processed>): (m: seq<bool>)
    ensures |m| == |ps| && forall k :: 0 <= k < |ps| ==> m[k] == (Key(ps[k]) !in Keys(ps[..k]))
  {
    seq(|ps|, k requires 0 <= k < |ps| => Key(ps[k]) !in Keys(ps[..k]))
  }

  /** `drop_duplicates(subset=['journal_entry', 'emotion'])`, keeping the first. */
  function DropDuplicates(ps: seq<Processed>): (r: seq<Processed>)
    ensures |r| <= |ps|
  {
    Frames.Select(ps, FirstOfKey(ps))
  }

  /** `process_dataset`: `file` is the split's CSV, `None` when it does not exist. */
  function ProcessDataset(file: Option<seq<Dialogues.Utterance>>): (r: seq<Processed>)
  {
    match file
    case None => []
    case Some(rows) =>
      var ps := ExtractSpec(Dialogues.GroupBy(rows));
      if ps == [] then [] else DropDuplicates(Frames.Select(ps, LengthMask(ps)))
  }

  /**
   * Surviving rows pass the length bounds, no two share an (entry, emotion)
   * pair or a conversation id, and a missing file gives no rows.
   */
  lemma ProcessDatasetFacts(file: Option<seq<Dialogues.Utterance>>)
    ensures file.None? ==> ProcessDataset(file) == []
    ensures forall k :: 0 <= k < |ProcessDataset(file)| ==> LengthOk(ProcessDataset(file)[k])
    ensures forall i, j :: 0 <= i < j < |ProcessDataset(file)| ==> Key(ProcessDataset(file)[i]) != Key(ProcessDataset(file)[j])
    ensures DistinctIds(ProcessDataset(file))
  {
    if file.Some? {
      var ps := ExtractSpec(Dialogues.GroupBy(file.value));
      ExtractDistinct(Dialogues.GroupBy(file.value));
      if ps != [] {
        LengthFilterFacts(ps);
        DropDuplicatesFacts(Frames.Select(ps, LengthMask(ps)));
      }
    }
  }

  /** The length filter keeps distinct ids, and what it keeps passes it. */
  lemma LengthFilterFacts(ps: seq<Processed>)
    requires DistinctIds(ps)
    ensures var kept := Frames.Select(ps, LengthMask(ps));
      DistinctIds(kept) && forall k :: 0 <= k < |kept| ==> LengthOk(kept[k])
  {
    var kept := Frames.Select(ps, LengthMask(ps));
    var idx := Frames.SelectIndices(ps, LengthMask(ps));
    forall i, j | 0 <= i < j < |kept| ensures kept[i].convId != kept[j].convId {
      assert ps[idx[i]].convId != ps[idx[j]].convId;
    }
  }

  /** De-duplication leaves distinct keys and keeps distinct ids and the length bounds. */
  lemma DropDuplicatesFacts(kept: seq<Processed>)
    requires DistinctIds(kept) && forall k :: 0 <= k < |kept| ==> LengthOk(kept[k])
    ensures var out := DropDuplicates(kept);
      && (forall k :: 0 <= k < |out| ==> LengthOk(out[k]))
      && (forall i, j :: 0 <= i < j < |out| ==> Key(out[i]) != Key(out[j]))
      && DistinctIds(out)
  {
    var out := DropDuplicates(kept);
    var idx := Frames.SelectIndices(kept, FirstOfKey(kept));
    forall i, j | 0 <= i < j < |out| ensures Key(out[i]) != Key(out[j]) && out[i].convId != out[j].convId {
      var a, b := idx[i], idx[j];
      assert Key(kept[a]) == Keys(kept[..b])[a];
    }
  }

  /** Every (entry, emotion) pair of the length-filtered rows survives de-duplication, with its first row. */
  lemma DropDuplicatesKeepsFirst(ps: seq<Processed>, p: Processed)
    ensures p in DropDuplicates(ps) <==> exists k :: 0 <= k < |ps| && ps[k] == p && Key(p) !in Keys(ps[..k])
  {
    Frames.SelectMembers(ps, FirstOfKey(ps), p);
  }
}
