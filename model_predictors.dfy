/**
 * The backend's inference layer: sentiment label selection by argmax, the
 * multi-label emotion decision (one threshold per label, results sorted by
 * rounded confidence), and the lazily filled predictor slots that retry
 * after a failed load. Model forward passes are inputs: probability vectors.
 */
module ModelPredictors {
  import opened Wrappers
  import Sorting
  import Format

  datatype LoadError = FileNotFound(what: string) | KeyMissing(key: string)

  datatype PredictError = EmptyProbabilities | UnseenLabel(index: nat)

  // ----- sentiment -------------------------------------------------------

  datatype SentimentPredictor = SentimentPredictor(classes: seq<string>)

  /** `SentimentPredictor.__init__`: the model dir, then the label encoder, must exist. */
  function LoadSentimentPredictor(modelExists: bool, encoderExists: bool, classes: seq<string>): (r: Result<SentimentPredictor, LoadError>)
    ensures !modelExists ==> r == Err(FileNotFound("sentiment model"))
    ensures modelExists && !encoderExists ==> r == Err(FileNotFound("label encoder"))
    ensures r.Ok? <==> modelExists && encoderExists
    ensures r.Ok? ==> r.value.classes == classes
  {
    if !modelExists then Err(FileNotFound("sentiment model"))
    else if !encoderExists then Err(FileNotFound("label encoder"))
    else Ok(SentimentPredictor(classes))
  }

  datatype Sentiment = Sentiment(name: string, confidence: real)

  /** `SentimentPredictor.predict`: the class at the first maximal probability, with that probability. */
  function PredictSentiment(p: SentimentPredictor, probs: seq<real>): (r: Result<Sentiment, PredictError>)
    ensures probs == [] ==> r == Err(EmptyProbabilities)
    ensures r.Ok? ==> exists k :: (0 <= k < |probs| && k < |p.classes| && r.value == Sentiment(p.classes[k], probs[k])
                                && (forall j :: 0 <= j < |probs| ==> probs[j] <= probs[k])
                                && (forall j :: 0 <= j < k ==> probs[j] < probs[k]))
    ensures probs != [] && r.Err? ==> |p.classes| <= Sorting.ArgMax(probs)
  {
    if probs == [] then Err(EmptyProbabilities)
    else
      var k := Sorting.ArgMax(probs);
      if k < |p.classes| then Ok(Sentiment(p.classes[k], probs[k])) else Err(UnseenLabel(k))
  }

  // ----- emotions --------------------------------------------------------

  /** The parsed `emotion_config.json`; None marks a missing key. */
  datatype EmotionConfig = EmotionConfig(emotions: Option<seq<string>>, thresholds: Option<seq<real>>)

  datatype EmotionPredictor = EmotionPredictor(emotions: seq<string>, thresholds: seq<real>)

  /**
   * `EmotionPredictor.__init__`: the model dir must exist, then its config
   * file (None when absent); both keys are read, and nothing relates their lengths.
   */
  function LoadEmotionPredictor(dirExists: bool, config: Option<EmotionConfig>): (r: Result<EmotionPredictor, LoadError>)
    ensures !dirExists ==> r == Err(FileNotFound("emotion model"))
    ensures dirExists && config.None? ==> r == Err(FileNotFound("emotion config"))
    ensures r.Ok? <==> dirExists && config.Some? && config.value.emotions.Some? && config.value.thresholds.Some?
    ensures r.Ok? ==> r.value == EmotionPredictor(config.value.emotions.value, config.value.thresholds.value)
  {
    if !dirExists then Err(FileNotFound("emotion model"))
    else if config.None? then Err(FileNotFound("emotion config"))
    else match config.value.emotions
      case None => Err(KeyMissing("emotions"))
      case Some(es) =>
        match config.value.thresholds
        case None => Err(KeyMissing("thresholds"))
        case Some(ts) => Ok(EmotionPredictor(es, ts))
  }

  datatype Detected = Detected(emotion: string, confidence: real)

  /**
   * `predict` raises `IndexError` at label `index`: the label has no
   * probability or, unless `return_all`, no threshold.
   */
  datatype EmotionError = IndexError(index: nat)

  /**
   * The first `n` labels can be read: each has a probability and, unless
   * `return_all` (which never looks at the thresholds), a threshold.
   */
  predicate ReadableUpTo(p: EmotionPredictor, probs: seq<real>, returnAll: bool, n: nat) {
    n <= |p.emotions| && n <= |probs| && (returnAll || n <= |p.thresholds|)
  }

  /** Whether label `i` is reported: `return_all or probs[i] >= thresholds[i]`. */
  predicate Reported(p: EmotionPredictor, probs: seq<real>, returnAll: bool, i: nat)
    requires ReadableUpTo(p, probs, returnAll, i + 1)
  {
    returnAll || probs[i] >= p.thresholds[i]
  }

  /** The candidate for label `i`: its index, its confidence rounded to 4 places, its name. */
  function Candidate(p: EmotionPredictor, probs: seq<real>, i: nat): Sorting.Ranked<string>
    requires i < |p.emotions| && i < |probs|
  {
    Sorting.Ranked(i, Format.Round(probs[i], 4), p.emotions[i])
  }

  /** The `results` list before sorting, for the first `n` labels. */
  function Candidates(p: EmotionPredictor, probs: seq<real>, returnAll: bool, n: nat): (r: seq<Sorting.Ranked<string>>)
    requires ReadableUpTo(p, probs, returnAll, n)
    ensures forall k :: 0 <= k < |r| ==> r[k].pos < n
    ensures forall j, k :: 0 <= j < k < |r| ==> r[j].pos < r[k].pos
  {
    if n == 0 then []
    else
      Candidates(p, probs, returnAll, n - 1)
      + (if Reported(p, probs, returnAll, n - 1) then [Candidate(p, probs, n - 1)] else [])
  }

  function AsDetected(r: seq<Sorting.Ranked<string>>): (d: seq<Detected>)
    ensures |d| == |r| && forall k :: 0 <= k < |r| ==> d[k] == Detected(r[k].item, r[k].key)
  {
    seq(|r|, k requires 0 <= k < |r| => Detected(r[k].item, r[k].key))
  }

  lemma CandidatesStep(p: EmotionPredictor, probs: seq<real>, returnAll: bool, i: nat)
    requires ReadableUpTo(p, probs, returnAll, i + 1)
    ensures Candidates(p, probs, returnAll, i + 1) ==
      Candidates(p, probs, returnAll, i) + (if returnAll || probs[i] >= p.thresholds[i] then [Candidate(p, probs, i)] else [])
  {
  }

  /**
   * `EmotionPredictor.predict` on the model's sigmoid outputs: it fails at
   * the first label it cannot read, and otherwise returns the reported
   * candidates sorted by confidence.
   */
  method PredictEmotions(p: EmotionPredictor, probs: seq<real>, returnAll: bool) returns (r: Result<seq<Detected>, EmotionError>)
    ensures r.Err? <==> !ReadableUpTo(p, probs, returnAll, |p.emotions|)
    ensures r.Err? ==> r.error.index < |p.emotions| && ReadableUpTo(p, probs, returnAll, r.error.index)
                       && !ReadableUpTo(p, probs, returnAll, r.error.index + 1)
    ensures r.Ok? ==> r.value == AsDetected(Sorting.SortDesc(Candidates(p, probs, returnAll, |p.emotions|)))
  {
    var found: seq<Sorting.Ranked<string>> := [];
    var i := 0;
    while i < |p.emotions|
      invariant 0 <= i <= |p.emotions| && ReadableUpTo(p, probs, returnAll, i)
      invariant found == Candidates(p, probs, returnAll, i)
    {
      if !ReadableUpTo(p, probs, returnAll, i + 1) {
        return Err(IndexError(i));
      }
      found := AddCandidate(p, probs, returnAll, i, found);
      i := i + 1;
    }
    r := Ok(AsDetected(Sorting.SortDesc(found)));
  }

  /** One pass of `predict`'s loop: label `i` joins the results when it is reported. */
  method AddCandidate(p: EmotionPredictor, probs: seq<real>, returnAll: bool, i: nat, found: seq<Sorting.Ranked<string>>)
    returns (found': seq<Sorting.Ranked<string>>)
    requires ReadableUpTo(p, probs, returnAll, i + 1) && found == Candidates(p, probs, returnAll, i)
    ensures found' == Candidates(p, probs, returnAll, i + 1)
  {
    CandidatesStep(p, probs, returnAll, i);
    found' := found;
    if returnAll || probs[i] >= p.thresholds[i] {
      found' := found' + [Candidate(p, probs, i)];
    }
  }

  /** Label `i` is among the candidates exactly when it is reported, and then with its own confidence. */
  lemma {:induction false} CandidatesMembers(p: EmotionPredictor, probs: seq<real>, returnAll: bool, n: nat, c: Sorting.Ranked<string>)
    requires ReadableUpTo(p, probs, returnAll, n)
    ensures c in Candidates(p, probs, returnAll, n) <==>
      c.pos < n && Reported(p, probs, returnAll, c.pos) && c == Candidate(p, probs, c.pos)
  {
    if n > 0 {
      CandidatesMembers(p, probs, returnAll, n - 1, c);
    }
  }

  /**
   * Label `i` appears in the output iff `return_all` or its probability
   * reaches its own threshold (non-strict, index-aligned), with confidence
   * `round(probs[i], 4)`.
   */
  lemma PredictMembers(p: EmotionPredictor, probs: seq<real>, returnAll: bool, i: nat)
    requires i < |p.emotions| && ReadableUpTo(p, probs, returnAll, |p.emotions|)
    ensures var out := Sorting.SortDesc(Candidates(p, probs, returnAll, |p.emotions|));
      (Candidate(p, probs, i) in out <==> returnAll || probs[i] >= p.thresholds[i])
      && forall c | c in out && c.pos == i :: c == Candidate(p, probs, i)
  {
    var cs := Candidates(p, probs, returnAll, |p.emotions|);
    Sorting.SortDescMembers(cs, Candidate(p, probs, i));
    CandidatesMembers(p, probs, returnAll, |p.emotions|, Candidate(p, probs, i));
    forall c | c in Sorting.SortDesc(cs) && c.pos == i ensures c == Candidate(p, probs, i) {
      Sorting.SortDescMembers(cs, c);
      CandidatesMembers(p, probs, returnAll, |p.emotions|, c);
    }
  }

  /** The output is in non-increasing confidence; equal confidences keep vocabulary order. */
  lemma PredictSorted(p: EmotionPredictor, probs: seq<real>, returnAll: bool)
    requires ReadableUpTo(p, probs, returnAll, |p.emotions|)
    ensures var out := Sorting.SortDesc(Candidates(p, probs, returnAll, |p.emotions|));
      forall j, k :: 0 <= j < k < |out| ==>
        out[j].key > out[k].key || (out[j].key == out[k].key && out[j].pos < out[k].pos)
  {
    var cs := Candidates(p, probs, returnAll, |p.emotions|);
    Sorting.SortDescSorted(cs);
  }

  /** With `return_all`, every configured label appears, once. */
  lemma {:induction false} ReturnAllCandidates(p: EmotionPredictor, probs: seq<real>, n: nat)
    requires n <= |p.emotions| && |probs| >= |p.emotions|
    ensures |Candidates(p, probs, true, n)| == n
    ensures forall k :: 0 <= k < n ==> Candidates(p, probs, true, n)[k] == Candidate(p, probs, k)
  {
    if n > 0 {
      ReturnAllCandidates(p, probs, n - 1);
    }
  }

  lemma ReturnAllComplete(p: EmotionPredictor, probs: seq<real>)
    requires |probs| >= |p.emotions|
    ensures var out := Sorting.SortDesc(Candidates(p, probs, true, |p.emotions|));
      |out| == |p.emotions| && multiset(out) == multiset(seq(|p.emotions|, k requires 0 <= k < |p.emotions| => Candidate(p, probs, k)))
  {
    ReturnAllCandidates(p, probs, |p.emotions|);
    var cs := Candidates(p, probs, true, |p.emotions|);
    assert cs == seq(|p.emotions|, k requires 0 <= k < |p.emotions| => Candidate(p, probs, k));
  }

  /** When no label reaches its threshold the result is empty: there is no top-1 fallback. */
  lemma {:induction false} NoneReported(p: EmotionPredictor, probs: seq<real>, n: nat)
    requires ReadableUpTo(p, probs, false, n)
    requires forall i :: 0 <= i < n ==> probs[i] < p.thresholds[i]
    ensures Candidates(p, probs, false, n) == []
    ensures Sorting.SortDesc(Candidates(p, probs, false, n)) == []
  {
    if n > 0 {
      NoneReported(p, probs, n - 1);
    }
  }

  // ----- lazily filled slots ---------------------------------------------

  /** The module globals `_sentiment_predictor` and `_emotion_predictor`. */
  class PredictorCache {
    var sentiment: Option<SentimentPredictor>
    var emotion: Option<EmotionPredictor>

    constructor ()
      ensures sentiment == None && emotion == None
    {
      sentiment := None;
      emotion := None;
    }

    /**
     * `get_emotion_predictor`: a filled slot is returned as is; an empty one
     * is filled from `load`, and stays empty when the load fails.
     */
    method GetEmotionPredictor(load: Result<EmotionPredictor, LoadError>) returns (p: Option<EmotionPredictor>)
      modifies this`emotion
      ensures old(emotion).Some? ==> emotion == old(emotion)
      ensures old(emotion).None? ==> emotion == (if load.Ok? then Some(load.value) else None)
      ensures p == emotion
    {
      if emotion.None? {
        match load
        case Ok(v) => emotion := Some(v);
        case Err(_) => emotion := None;
      }
      p := emotion;
    }

    /** `get_sentiment_predictor`, with the same retry rule. */
    method GetSentimentPredictor(load: Result<SentimentPredictor, LoadError>) returns (p: Option<SentimentPredictor>)
      modifies this`sentiment
      ensures old(sentiment).Some? ==> sentiment == old(sentiment)
      ensures old(sentiment).None? ==> sentiment == (if load.Ok? then Some(load.value) else None)
      ensures p == sentiment
    {
      if sentiment.None? {
        match load
        case Ok(v) => sentiment := Some(v);
        case Err(_) => sentiment := None;
      }
      p := sentiment;
    }
  }

  /** A failed first load is retried on the next call; a later success is then reused. */
  method RetryAfterFailure(first: Result<EmotionPredictor, LoadError>, second: Result<EmotionPredictor, LoadError>,
                           third: Result<EmotionPredictor, LoadError>)
    returns (a: Option<EmotionPredictor>, b: Option<EmotionPredictor>, c: Option<EmotionPredictor>)
    requires first.Err? && second.Ok?
    ensures a == None && b == Some(second.value) && c == b
  {
    var cache := new PredictorCache();
    a := cache.GetEmotionPredictor(first);
    b := cache.GetEmotionPredictor(second);
    c := cache.GetEmotionPredictor(third);
  }
}
