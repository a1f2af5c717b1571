/**
 * Label engineering for the DepressionEmo corpus: emotion-name
 * normalisation through an alias table, binary label rows over a chosen
 * vocabulary, and the per-split entry filter.
 */
module PrepareDepressionEmo {
  import opened Wrappers
  import Strings

  /** The eight standard depression emotions, in the order every script uses. */
  const StandardEmotions: seq<string> :=
    ["sadness", "emptiness", "hopelessness", "loneliness", "anger", "guilt", "shame", "fear"]

  /** No emotion is listed twice. */
  lemma StandardDistinct()
    ensures forall i, j :: 0 <= i < j < |StandardEmotions| ==> StandardEmotions[i] != StandardEmotions[j]
  {
  }

  const AdditionalEmotions: seq<string> :=
    ["worthlessness", "suicide intent", "brain dysfunction (forget)", "cognitive_dysfunction"]

  const AllEmotions: seq<string> := StandardEmotions + AdditionalEmotions

  /** The alias table: spelling variants and their canonical names. */
  const EmotionMapping: map<string, string> := map[
    "suicide intent" := SuicideIntent,
    "brain dysfunction (forget)" := BrainDysfunction,
    "cognitive_dysfunction" := BrainDysfunction,
    "cognitive dysfunction" := BrainDysfunction
  ]

  const SuicideIntent: string := "suicide_intent"
  const BrainDysfunction: string := "brain_dysfunction"

  /** The names the alias table maps onto. */
  const CanonicalNames: seq<string> := [SuicideIntent, BrainDysfunction]

  /**
   * `normalize_emotion_name`: lower-case, strip, then replace an alias by
   * its canonical name. The result is never an alias and is already
   * lower-case and stripped.
   */
  function NormalizeEmotionName(emotion: string): (r: string)
    ensures r !in EmotionMapping
    ensures Strings.Stripped(r) && Strings.Lower(r) == r
    ensures Strings.Strip(Strings.Lower(emotion)) in EmotionMapping ==>
      r in CanonicalNames && r == EmotionMapping[Strings.Strip(Strings.Lower(emotion))]
    ensures Strings.Strip(Strings.Lower(emotion)) !in EmotionMapping ==> r == Strings.Strip(Strings.Lower(emotion))
  {
    var key := Strings.Strip(Strings.Lower(emotion));
    if key in EmotionMapping then
      AliasTarget(key);
      EmotionMapping[key]
    else
      LowerStripped(emotion);
      key
  }

  /** An alias maps onto a canonical name, which is no alias and is lower-case and stripped. */
  lemma AliasTarget(key: string)
    requires key in EmotionMapping
    ensures var v := EmotionMapping[key];
      v in CanonicalNames && v !in EmotionMapping && Strings.Stripped(v) && Strings.Lower(v) == v
  {
    CanonicalValues();
    CanonicalNamesNormal();
  }

  /** A lower-cased, stripped name is lower-case. */
  lemma LowerStripped(x: string)
    ensures Strings.Lower(Strings.Strip(Strings.Lower(x))) == Strings.Strip(Strings.Lower(x))
  {
    Strings.LowerStrip(Strings.Lower(x));
    Strings.LowerIdempotent(x);
  }

  /** Every alias maps onto a canonical name, which is no alias and is already lower-case and stripped. */
  lemma CanonicalNamesAreFixed()
    ensures forall k | k in EmotionMapping ::
      EmotionMapping[k] !in EmotionMapping && Strings.Stripped(EmotionMapping[k])
      && Strings.Lower(EmotionMapping[k]) == EmotionMapping[k]
  {
    CanonicalValues();
    CanonicalNamesNormal();
  }

  /** Every value of the alias table is one of the two canonical names. */
  lemma CanonicalValues()
    ensures forall k | k in EmotionMapping :: EmotionMapping[k] == CanonicalNames[0] || EmotionMapping[k] == CanonicalNames[1]
  {
  }

  /** No canonical name is an alias key, and each is lower-case and stripped. */
  lemma CanonicalNamesNormal()
    ensures SuicideIntent !in EmotionMapping && Strings.Stripped(SuicideIntent) && Strings.Lower(SuicideIntent) == SuicideIntent
    ensures BrainDysfunction !in EmotionMapping && Strings.Stripped(BrainDysfunction) && Strings.Lower(BrainDysfunction) == BrainDysfunction
  {
    CanonicalNotKeys();
    SuicideIntentNormal();
    BrainDysfunctionNormal();
  }

  lemma CanonicalNotKeys()
    ensures SuicideIntent !in EmotionMapping && BrainDysfunction !in EmotionMapping
  {
    assert SuicideIntent[7] == '_' && "suicide intent"[7] == ' ';
  }

  lemma SuicideIntentNormal()
    ensures Strings.Stripped(SuicideIntent) && Strings.Lower(SuicideIntent) == SuicideIntent
  {
    var a := SuicideIntent;
    assert a[0] == 's' && a[|a| - 1] == 't';
    assert Strings.Lower(a) == a;
  }

  lemma BrainDysfunctionNormal()
    ensures Strings.Stripped(BrainDysfunction) && Strings.Lower(BrainDysfunction) == BrainDysfunction
  {
    var b := BrainDysfunction;
    assert b[0] == 'b' && b[|b| - 1] == 'n';
    assert Strings.Lower(b) == b;
  }

  /** Normalising twice is the same as normalising once. */
  lemma NormalizeIdempotent(x: string)
    ensures NormalizeEmotionName(NormalizeEmotionName(x)) == NormalizeEmotionName(x)
  {
    var r := NormalizeEmotionName(x);
    Strings.StripStripped(r);
  }

  /** One JSON entry of the corpus; None marks an absent key. */
  datatype Entry = Entry(
    id: Option<string>, text: Option<string>, post: Option<string>,
    title: Option<string>, emotions: Option<seq<string>>)

  /** `extract_emotions_from_entry`: the entry's `emotions`, each normalised. */
  function ExtractEmotions(entry: Entry): (r: seq<string>)
    ensures |r| == |entry.emotions.GetOr([])|
    ensures forall i :: 0 <= i < |r| ==> r[i] == NormalizeEmotionName(entry.emotions.GetOr([])[i])
  {
    var es := entry.emotions.GetOr([]);
    seq(|es|, i requires 0 <= i < |es| => NormalizeEmotionName(es[i]))
  }

  /** Every extracted name is free of aliases. */
  lemma ExtractedAreNormal(entry: Entry)
    ensures forall e | e in ExtractEmotions(entry) :: e !in EmotionMapping
  {
    forall e | e in ExtractEmotions(entry) ensures e !in EmotionMapping {
      var i :| 0 <= i < |ExtractEmotions(entry)| && ExtractEmotions(entry)[i] == e;
    }
  }

  /** `create_emotion_labels`: a 0/1 value for every vocabulary entry. */
  method CreateEmotionLabels(emotionsList: seq<string>, emotionSet: seq<string>) returns (labels: map<string, nat>)
    ensures labels.Keys == set e | e in emotionSet
    ensures forall e | e in emotionSet :: labels[e] == if e in emotionsList then 1 else 0
    ensures labels == LabelsFor(emotionsList, emotionSet)
  {
    labels := map[];
    var i := 0;
    while i < |emotionSet|
      invariant 0 <= i <= |emotionSet|
      invariant labels.Keys == set e | e in emotionSet[..i]
      invariant forall e | e in labels :: labels[e] == if e in emotionsList then 1 else 0
    {
      var emotion := emotionSet[i];
      labels := labels[emotion := if emotion in emotionsList then 1 else 0];
      assert emotionSet[..i + 1] == emotionSet[..i] + [emotion];
      i := i + 1;
    }
    assert emotionSet[..i] == emotionSet;
  }

  /** The label map as a value. */
  function LabelsFor(emotionsList: seq<string>, emotionSet: seq<string>): map<string, nat> {
    map e | e in emotionSet :: if e in emotionsList then 1 else 0
  }

  /** A vocabulary entry that is an alias key is never set, because extracted names are normalised. */
  method AliasLabelIsZero(entry: Entry, emotionSet: seq<string>, alias: string) returns (v: nat)
    requires alias in emotionSet && alias in EmotionMapping
    ensures v == 0
  {
    var emotions := ExtractEmotions(entry);
    var labels := CreateEmotionLabels(emotions, emotionSet);
    ExtractedAreNormal(entry);
    v := labels[alias];
  }

  /** The vocabulary `prepare_depression_emo_dataset` labels with. */
  function TargetEmotions(useStandardOnly: bool, includeAdditional: bool): (r: seq<string>)
    ensures r == (if !useStandardOnly && includeAdditional then AllEmotions else StandardEmotions)
    ensures StandardEmotions <= r
  {
    if useStandardOnly then StandardEmotions
    else if includeAdditional then AllEmotions
    else StandardEmotions
  }

  /** One processed entry: id, stripped text, title, normalised names and the labels. */
  datatype Row = Row(id: string, text: string, title: string, emotionsList: seq<string>, labels: map<string, nat>)

  /** `entry.get('text', entry.get('post', ''))`. */
  function EntryText(entry: Entry): string {
    match entry.text
    case Some(t) => t
    case None => entry.post.GetOr("")
  }

  /** Whether the entry survives `if not text or len(text.strip()) < min_text_length`. */
  predicate KeepEntry(entry: Entry, minTextLength: int) {
    EntryText(entry) != [] && |Strings.Strip(EntryText(entry))| >= minTextLength
  }

  /** A kept row, with the labels as functions of the entry. */
  predicate RowOf(row: Row, entry: Entry, emotionSet: seq<string>) {
    row.id == entry.id.GetOr("")
    && row.text == Strings.Strip(EntryText(entry))
    && row.title == entry.title.GetOr("")
    && row.emotionsList == ExtractEmotions(entry)
    && row.labels.Keys == (set e | e in emotionSet)
    && forall e | e in emotionSet :: row.labels[e] == if e in ExtractEmotions(entry) then 1 else 0
  }

  /** The entries that pass the filter, in order. */
  function KeptEntries(entries: seq<Entry>, minTextLength: int): (r: seq<Entry>)
    ensures |r| <= |entries|
  {
    if entries == [] then []
    else
      var last := entries[|entries| - 1];
      KeptEntries(entries[..|entries| - 1], minTextLength) + (if KeepEntry(last, minTextLength) then [last] else [])
  }

  /** Only entries of the split that pass the filter are kept. */
  lemma {:induction false} KeptEntriesPass(entries: seq<Entry>, minTextLength: int)
    ensures forall e | e in KeptEntries(entries, minTextLength) :: e in entries && KeepEntry(e, minTextLength)
  {
    if entries != [] {
      var init, last := entries[..|entries| - 1], entries[|entries| - 1];
      KeptEntriesPass(init, minTextLength);
      assert entries == init + [last];
    }
  }

  function MakeRow(entry: Entry, emotionSet: seq<string>): Row {
    Row(entry.id.GetOr(""), Strings.Strip(EntryText(entry)), entry.title.GetOr(""),
        ExtractEmotions(entry), LabelsFor(ExtractEmotions(entry), emotionSet))
  }

  /** The rows a split yields: one per kept entry. */
  function PrepareRows(entries: seq<Entry>, emotionSet: seq<string>, minTextLength: int): seq<Row> {
    if entries == [] then []
    else
      var last := entries[|entries| - 1];
      PrepareRows(entries[..|entries| - 1], emotionSet, minTextLength)
        + (if KeepEntry(last, minTextLength) then [MakeRow(last, emotionSet)] else [])
  }

  /** Row k is built from the k-th kept entry. */
  lemma {:induction false} PrepareRowsFaithful(entries: seq<Entry>, emotionSet: seq<string>, minTextLength: int)
    ensures |PrepareRows(entries, emotionSet, minTextLength)| == |KeptEntries(entries, minTextLength)|
    ensures forall k :: 0 <= k < |KeptEntries(entries, minTextLength)| ==>
      RowOf(PrepareRows(entries, emotionSet, minTextLength)[k], KeptEntries(entries, minTextLength)[k], emotionSet)
  {
    if entries != [] {
      var init := entries[..|entries| - 1];
      PrepareRowsFaithful(init, emotionSet, minTextLength);
      var last := entries[|entries| - 1];
      var rows := PrepareRows(entries, emotionSet, minTextLength);
      var kept := KeptEntries(entries, minTextLength);
      forall k | 0 <= k < |kept| ensures RowOf(rows[k], kept[k], emotionSet) {
        if k < |KeptEntries(init, minTextLength)| {
          assert rows[k] == PrepareRows(init, emotionSet, minTextLength)[k];
          assert kept[k] == KeptEntries(init, minTextLength)[k];
        } else {
          assert kept[k] == last && rows[k] == MakeRow(last, emotionSet);
        }
      }
    }
  }

  lemma PrepareRowsStep(entries: seq<Entry>, emotionSet: seq<string>, minTextLength: int, i: nat)
    requires i < |entries|
    ensures PrepareRows(entries[..i + 1], emotionSet, minTextLength) == PrepareRows(entries[..i], emotionSet, minTextLength)
      + (if KeepEntry(entries[i], minTextLength) then [MakeRow(entries[i], emotionSet)] else [])
  {
    assert entries[..i + 1][..i] == entries[..i];
  }

  /**
   * One pass of the per-split loop: an entry with empty text, or whose
   * stripped text is shorter than `minTextLength`, is skipped; otherwise
   * its row is built.
   */
  method PrepareEntry(entry: Entry, emotionSet: seq<string>, minTextLength: int) returns (row: Option<Row>)
    ensures row.Some? <==> KeepEntry(entry, minTextLength)
    ensures row.Some? ==> row.value == MakeRow(entry, emotionSet)
  {
    var text := EntryText(entry);
    if text == [] || |Strings.Strip(text)| < minTextLength {
      return None;
    }
    var emotions := ExtractEmotions(entry);
    var labels := CreateEmotionLabels(emotions, emotionSet);
    row := Some(Row(entry.id.GetOr(""), Strings.Strip(text), entry.title.GetOr(""), emotions, labels));
  }

  /** The per-split loop of `prepare_depression_emo_dataset`. */
  method PrepareSplit(entries: seq<Entry>, emotionSet: seq<string>, minTextLength: int) returns (rows: seq<Row>)
    ensures rows == PrepareRows(entries, emotionSet, minTextLength)
    ensures |rows| == |KeptEntries(entries, minTextLength)|
    ensures forall k :: 0 <= k < |rows| ==> RowOf(rows[k], KeptEntries(entries, minTextLength)[k], emotionSet)
  {
    rows := [];
    var i := 0;
    while i < |entries|
      invariant 0 <= i <= |entries|
      invariant rows == PrepareRows(entries[..i], emotionSet, minTextLength)
    {
      PrepareRowsStep(entries, emotionSet, minTextLength, i);
      var row := PrepareEntry(entries[i], emotionSet, minTextLength);
      if row.Some? {
        rows := rows + [row.value];
      }
      i := i + 1;
    }
    assert entries[..i] == entries;
    PrepareRowsFaithful(entries, emotionSet, minTextLength);
  }

  /** Kept rows hold stripped text of at least `minTextLength` characters, never empty text. */
  lemma KeptRowsText(entries: seq<Entry>, minTextLength: int, row: Row, entry: Entry, emotionSet: seq<string>)
    requires entry in KeptEntries(entries, minTextLength) && RowOf(row, entry, emotionSet)
    ensures Strings.Stripped(row.text) && |row.text| >= minTextLength
    ensures EntryText(entry) != []
  {
    KeptEntriesPass(entries, minTextLength);
  }
}
