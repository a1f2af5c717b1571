# SafeSpace in Dafny

SafeSpace is a mental-health support system in two parts:

- **The AI_Work scripts** train and serve its models:
  - a multi-label emotion classifier over the DepressionEmo vocabulary;
  - a sentiment classifier;
  - an empathetic-response model fine-tuned on EmpatheticDialogues;
  - a summary model that turns a journal entry and its emotion scores into a humanised summary.
- **The Django backend** serves users, journals, chat sessions with a rule-based bot, escalation tickets for verified professionals, consent grants, and history snapshots.

This project models the logic of both parts and proves properties of it.

**AI_Work scripts** (mostly pure functions, with the scripts' loops kept as methods):
- label engineering: alias normalisation, binary label rows over a fixed vocabulary, and frame column detection with binarisation;
- the text normaliser with its `[empty]` sentinel;
- the per-label threshold decision, sorted by confidence;
- conversation pairing, with its filters, de-duplication and length bounds;
- causal-LM label masking and padding;
- the `emotion:intensity` parser;
- the prompt builders, and the agreement between the prompts built for training and for inference;
- marker-based response and summary extraction;
- the separator file written by one script and read back by another;
- the splits.

**Backend.** The rule-based analysers are pure:
- journal sentiment, intensity, themes, risk flags and trend;
- chat triage and SOP choice;
- least-loaded assignment;
- history trends.

The workflows run over one store, `Database.Db`, a class whose fields are the tables:
- chat sessions and messages, with escalation;
- the ticket verdict;
- consent grants;
- professional applications, auto-verification, the post-save signal and the sync command;
- registration;
- history snapshots;
- the API-key rotation of the OpenRouter client, a class with its mutable key index.

Conventions of the model:
- Each table is a sequence in insertion order. A row's id is its position counted from 1.
- The `-created_at` orderings of the Django models are therefore "highest id first".
- Model forward passes, tokenizers, text generation, HTTP attempts, shuffles, the clock and password hashing are parameters.
- Probabilities and scores are `real`.

## Model

| member | source | states |
|---|---|---|
| ModelPredictors.LoadSentimentPredictor | backend/apps/ai/model_predictors.py:34-56 | a missing model directory fails first, then a missing label encoder; loading succeeds exactly when both exist and keeps the encoder's classes |
| ModelPredictors.PredictSentiment | backend/apps/ai/model_predictors.py:88-93 | the label is the class at the first index of maximal probability and the confidence is that probability; an empty vector fails, and so does an argmax beyond the encoder's classes |
| ModelPredictors.LoadEmotionPredictor | backend/apps/ai/model_predictors.py:108-126 | a missing model directory fails first, then a missing config file, then a missing key; success keeps the configured emotions and thresholds, with no check that their lengths agree |
| ModelPredictors.Candidates | backend/apps/ai/model_predictors.py:166-172 | the unsorted results name only labels below `n`, in vocabulary order |
| ModelPredictors.AsDetected | backend/apps/ai/model_predictors.py:169-172 | one `{emotion, confidence}` entry per ranked candidate, in the same order |
| ModelPredictors.PredictEmotions | backend/apps/ai/model_predictors.py:166-175 | the call raises `IndexError` exactly when some label lacks a probability or, unless `return_all`, a threshold, naming the first such label; otherwise the result is the reported candidates sorted by confidence, highest first |
| ModelPredictors.AddCandidate | backend/apps/ai/model_predictors.py:167-172 | one pass extends the results for the first `i` labels to the results for the first `i + 1`, appending label `i` exactly when it is reported |
| ModelPredictors.CandidatesMembers | backend/apps/ai/model_predictors.py:167-172 | a candidate is in the list exactly when its label is below `n` and reported, and it then carries that label's own rounded probability |
| ModelPredictors.PredictMembers | backend/apps/ai/model_predictors.py:167-175 | label `i` is in the output iff `return_all` holds or `probs[i] >= thresholds[i]` (non-strict, same index), and always with its own confidence |
| ModelPredictors.PredictSorted | backend/apps/ai/model_predictors.py:175 | the output never increases in confidence, and equal confidences keep vocabulary order (a stable sort) |
| ModelPredictors.ReturnAllCandidates | backend/apps/ai/model_predictors.py:167-172 | with `return_all`, the first `n` labels each give exactly one candidate, in order |
| ModelPredictors.ReturnAllComplete | backend/apps/ai/model_predictors.py:167-175 | with `return_all`, the sorted output is a permutation of one entry per configured emotion |
| ModelPredictors.NoneReported | backend/apps/ai/model_predictors.py:165-175 | when no probability reaches its threshold the result is empty; there is no top-1 fallback |
| ModelPredictors.PredictorCache.constructor | backend/apps/ai/model_predictors.py:179-180 | both module-level predictor slots start empty |
| ModelPredictors.PredictorCache.GetEmotionPredictor | backend/apps/ai/model_predictors.py:195-204 | a filled slot is returned unchanged; an empty slot takes the load's result, or stays empty when the load fails |
| ModelPredictors.PredictorCache.GetSentimentPredictor | backend/apps/ai/model_predictors.py:183-192 | the same lazy fill and retry rule for the sentiment slot |
| ModelPredictors.RetryAfterFailure | backend/apps/ai/model_predictors.py:195-204 | after a failed first load the next call loads again, and a later success is then returned on every call |
| PrepareDepressionEmo.StandardDistinct | AI_Work/prepare_depression_emo.py:20-29 | the eight standard emotions are pairwise distinct |
| PrepareDepressionEmo.NormalizeEmotionName | AI_Work/prepare_depression_emo.py:51-56 | the result is never an alias key and is already lower-case and stripped; an alias comes out as one of the two canonical names, and any other name only loses its case and surrounding whitespace |
| PrepareDepressionEmo.CanonicalNamesAreFixed | AI_Work/prepare_depression_emo.py:43-48 | every canonical name of the alias table is itself no alias key, and is already lower-case and stripped |
| PrepareDepressionEmo.NormalizeIdempotent | AI_Work/prepare_depression_emo.py:51-56 | normalising twice gives the same name as normalising once |
| PrepareDepressionEmo.ExtractEmotions | AI_Work/prepare_depression_emo.py:70-77 | one name per entry of `emotions` (default []), in order, each normalised |
| PrepareDepressionEmo.ExtractedAreNormal | AI_Work/prepare_depression_emo.py:70-77 | no extracted name is an alias key |
| PrepareDepressionEmo.CreateEmotionLabels | AI_Work/prepare_depression_emo.py:80-85 | the loop gives exactly one key per vocabulary entry, with value 1 iff the name is in the list and 0 otherwise |
| PrepareDepressionEmo.AliasLabelIsZero | AI_Work/prepare_depression_emo.py:32-85 | a vocabulary entry that is an alias key, such as 'suicide intent', is 0 for every entry |
| PrepareDepressionEmo.TargetEmotions | AI_Work/prepare_depression_emo.py:106-115 | the vocabulary is all twelve names only when the standard-only flag is off and additional emotions are on; otherwise it is the eight standard ones, which it always contains |
| PrepareDepressionEmo.KeptEntriesPass | AI_Work/prepare_depression_emo.py:137-142 | every kept entry is an entry of the split whose text (`text`, else `post`, else '') is non-empty and at least `min_text_length` long after strip |
| PrepareDepressionEmo.PrepareRowsFaithful | AI_Work/prepare_depression_emo.py:137-163 | row k is built from the k-th kept entry: its id, stripped text, title, normalised emotions and labels |
| PrepareDepressionEmo.PrepareEntry | AI_Work/prepare_depression_emo.py:138-162 | an entry yields a row exactly when its text is non-empty and at least `min_text_length` long after strip, and the row is the entry's id, stripped text, title, normalised emotions and labels |
| PrepareDepressionEmo.PrepareSplit | AI_Work/prepare_depression_emo.py:134-165 | the per-split loop yields one row per kept entry, in order, each built from its entry |
| PrepareDepressionEmo.KeptRowsText | AI_Work/prepare_depression_emo.py:141-157 | a kept row's text is stripped, at least `min_text_length` long, and comes from a non-empty field |
| SynthesizeTrainingData.SentinelClean | AI_Work/synthesize_training_data.py:61-62 | the `[empty]` sentinel is itself stripped, has no double space and only plain spaces |
| SynthesizeTrainingData.Clean | AI_Work/synthesize_training_data.py:46-57 | after noise removal, whitespace collapse and strip the text has no leading or trailing whitespace and no run of two whitespace characters |
| SynthesizeTrainingData.PreprocessText | AI_Work/synthesize_training_data.py:37-64 | the value is stringified first; the result is at least 3 characters, stripped and free of double spaces, and is `[empty]` exactly when the cleaned text is shorter than 3 characters |
| SynthesizeTrainingData.PreprocessIdempotent | AI_Work/synthesize_training_data.py:37-64 | preprocessing preprocessed text again changes nothing, provided the noise remover leaves it alone |
| SynthesizeTrainingData.LoadClassifier | AI_Work/synthesize_training_data.py:73-95 | a missing model fails; without `emotion_info.json` the eight depression emotions get 0.5 each; a file without `emotion_names` fails; otherwise its names are used, with thresholds defaulting to 0.5 each |
| SynthesizeTrainingData.HalfEach | AI_Work/synthesize_training_data.py:92-95 | `[0.5] * n`: n entries, all 0.5 |
| SynthesizeTrainingData.DefaultThresholds | AI_Work/synthesize_training_data.py:87-95 | when the file or its `optimal_thresholds` key is missing, there is one 0.5 threshold per emotion name |
| SynthesizeTrainingData.ZipScores | AI_Work/synthesize_training_data.py:147-150 | `zip` pairs names with scores up to the shorter of the two |
| SynthesizeTrainingData.ModelInputs | AI_Work/synthesize_training_data.py:113-114 | one model input per text, in order, preprocessed exactly when `preprocess` is set |
| SynthesizeTrainingData.AsList | AI_Work/synthesize_training_data.py:109-110 | a single string becomes a one-element list; a list is kept |
| SynthesizeTrainingData.ModelRows | AI_Work/synthesize_training_data.py:118-140 | one probability row per input, in order, whatever the batch size |
| SynthesizeTrainingData.PredictEmotions | AI_Work/synthesize_training_data.py:99-153 | batch size 0 fails, as does a negative size or empty input; otherwise one score map per text, in order, keyed by the emotion names; `use_thresholds` changes nothing because both branches are the same |
| SynthesizeTrainingData.Values | AI_Work/synthesize_training_data.py:212 | the scores of a score list, in order |
| SynthesizeTrainingData.Significant | AI_Work/synthesize_training_data.py:205-208 | exactly the pairs scoring above 0.3 |
| SynthesizeTrainingData.Chosen | AI_Work/synthesize_training_data.py:205-213 | an empty score map fails (`max` of nothing); otherwise a non-empty selection drawn from the map |
| SynthesizeTrainingData.Mentioned | AI_Work/synthesize_training_data.py:216-220 | between one and three emotions are mentioned |
| SynthesizeTrainingData.MentionedSorted | AI_Work/synthesize_training_data.py:205-220 | one to three mentioned emotions, all from the map, in non-increasing score order |
| SynthesizeTrainingData.MentionedTop | AI_Work/synthesize_training_data.py:216-220 | every selected emotion that is left out scores no higher than the last one mentioned |
| SynthesizeTrainingData.MentionedSignificant | AI_Work/synthesize_training_data.py:205-208 | when some emotion scores above 0.3, every mentioned one does |
| SynthesizeTrainingData.MentionedFallback | AI_Work/synthesize_training_data.py:210-213 | when none scores above 0.3, exactly the first top-scoring emotion is mentioned |
| SynthesizeTrainingData.Descriptions | AI_Work/synthesize_training_data.py:219-238 | one description per mentioned emotion, in order |
| SynthesizeTrainingData.ThreeWayJoin | AI_Work/synthesize_training_data.py:245 | with three descriptions, the list part joins the first two with ", " |
| SynthesizeTrainingData.SummaryTemplate | AI_Work/synthesize_training_data.py:202-247 | the template fails exactly on an empty score map |
| SynthesizeTrainingData.Get | AI_Work/synthesize_training_data.py:258 | `dict.get(key, default)`: the first pair with that key gives its score, and the default is used when there is none |
| SynthesizeTrainingData.EmotionLines | AI_Work/synthesize_training_data.py:256-259 | eight lines, one per depression emotion in fixed order, with 0.0 for an absent one |
| SynthesizeTrainingData.TrainingExample | AI_Work/synthesize_training_data.py:250-279 | the example is the prompt head of the text and its emotion lines followed by the summary; with no summary the template is used and fails only on an empty map |
| SynthesizeTrainingData.TxtSummary | AI_Work/synthesize_training_data.py:322-331 | without empathetic responses, or past their end, no blended summary is made |
| SynthesizeTrainingData.ExampleAt | AI_Work/synthesize_training_data.py:320-333 | each example starts with the prompt head of its own text and scores |
| SynthesizeTrainingData.ExampleOutcomes | AI_Work/synthesize_training_data.py:320 | one outcome per pair of the `zip`, up to the shorter list |
| SynthesizeTrainingData.SynthesizeExamples | AI_Work/synthesize_training_data.py:317-337 | the loop keeps every example in order, or stops at the first template failure |
| SynthesizeTrainingData.ExamplesShape | AI_Work/synthesize_training_data.py:320-334 | the k-th synthesised example starts with the prompt head of the k-th text and scores |
| SynthesizeTrainingData.JsonRecordAt | AI_Work/synthesize_training_data.py:350-356 | a JSON record holds the text, the scores and always the template summary, never the blended one; an empty map fails |
| SynthesizeTrainingData.JsonOutcomes | AI_Work/synthesize_training_data.py:349-356 | one record outcome per pair of the `zip`, in order |
| SynthesizeTrainingData.JsonRecordsFacts | AI_Work/synthesize_training_data.py:348-356 | building the records fails iff some score map is empty; otherwise there is one record per pair, in order, each with its template summary |
| FineTuneLlama.Kept | AI_Work/fine_tune_llama.py:59 | only stripped, non-empty pieces are kept, and there are no more of them than pieces |
| FineTuneLlama.ReadTextExamples | AI_Work/fine_tune_llama.py:55-59 | every example read from the txt file is non-empty and stripped |
| FineTuneLlama.NoSeparatorBefore | AI_Work/fine_tune_llama.py:58 | no separator run starts inside a written example or its trailing blank line when the example holds no 80-'=' run (the other side: AI_Work/synthesize_training_data.py:343) |
| FineTuneLlama.SplitSeparatorFile | AI_Work/fine_tune_llama.py:58 | splitting the written file on 80 '=' gives, piece by piece, each example wrapped in its blank lines (the other side: AI_Work/synthesize_training_data.py:341-343) |
| FineTuneLlama.StripPiece | AI_Work/fine_tune_llama.py:59 | stripping a wrapped piece gives back the stripped example |
| FineTuneLlama.KeptPieces | AI_Work/fine_tune_llama.py:59 | keeping the stripped non-empty pieces gives back exactly the written examples |
| FineTuneLlama.TextRoundTrip | AI_Work/fine_tune_llama.py:55-59 | reading the written txt file returns the original examples, when each is non-empty, stripped and holds no 80-'=' run (the other side: AI_Work/synthesize_training_data.py:341-343) |
| FineTuneLlama.DictLines | AI_Work/fine_tune_llama.py:72-74 | one `- emotion: score` line per score entry, in the map's order |
| FineTuneLlama.PrepareFromJson | AI_Work/fine_tune_llama.py:63-96 | the loop gives one prompt per JSON item, in order |
| FineTuneLlama.JsonPromptEndsWithSummary | AI_Work/fine_tune_llama.py:91-92 | each JSON prompt ends with that item's summary |
| FineTuneLlama.LinesAgree | AI_Work/fine_tune_llama.py:72-74 | when the score map lists the eight depression emotions in order, the JSON path's emotion lines are the synthesiser's (the other side: AI_Work/synthesize_training_data.py:256-259) |
| FineTuneLlama.JsonPromptIsTrainingExample | AI_Work/fine_tune_llama.py:77-92 | a JSON item written by the synthesiser turns back into the synthesiser's training example for the same text, scores and summary (the other side: AI_Work/synthesize_training_data.py:262-277) |
| FineTuneLlama.LoadTrainingData | AI_Work/fine_tune_llama.py:121-134 | the JSON file is preferred, then the txt file; it fails exactly when neither exists |
| FineTuneLlama.LoadExamples | AI_Work/fine_tune_llama.py:49-59 | a JSON file gives one prompt per record, in order; a txt file gives the split examples |
| FineTuneLlama.GetItem | AI_Work/fine_tune_llama.py:101-118 | an example's labels equal its input ids, with the tokenizer's ids and mask |
| FineTuneLlama.TrainSize | AI_Work/fine_tune_llama.py:218 | `int(0.9 * n)`: the largest t with 10t <= 9n |
| FineTuneLlama.ValSize | AI_Work/fine_tune_llama.py:219 | val size is n minus the train size, and at least 1 for any non-empty dataset |
| FineTuneLlama.SplitIndices | AI_Work/fine_tune_llama.py:218-223 | the split fails exactly when there are fewer than two examples; otherwise the two sides have the train and val sizes |
| FineTuneLlama.SplitPartition | AI_Work/fine_tune_llama.py:221-223 | the train and val indices partition `range(n)` |
| TrainEmotionClassifier.AsFloat | AI_Work/train_emotion_classifier.py:142 | `astype(float)` on a non-text cell: a missing value becomes NaN, anything else its number |
| TrainEmotionClassifier.ColumnLabels | AI_Work/train_emotion_classifier.py:137-142 | one label per row; a text column gives 1.0 exactly for case-insensitive 'true' and 0.0 otherwise; a numeric column is cast to float |
| TrainEmotionClassifier.ColumnLabelsAsWritten | AI_Work/train_emotion_classifier.py:139-142 | as written, a text column raises (`.str` on a NumPy array), exactly for object columns; other columns agree with the intended labels |
| TrainEmotionClassifier.ObjectColumnRaises | AI_Work/train_emotion_classifier.py:140 | a text column holding "True" and "false" raises as written, where the intended labels are 1.0 and 0.0 |
| TrainEmotionClassifier.PresentMask | AI_Work/train_emotion_classifier.py:135-136 | one flag per vocabulary emotion, set exactly when the frame has that column |
| TrainEmotionClassifier.LabelsOf | AI_Work/train_emotion_classifier.py:137-143 | one label column per named emotion |
| TrainEmotionClassifier.Stack | AI_Work/train_emotion_classifier.py:151 | `np.stack(axis=1)`: n rows with one entry per column, entry (j, k) being row j of column k |
| TrainEmotionClassifier.AvailablePresent | AI_Work/train_emotion_classifier.py:135-144 | every available emotion is a column of the frame |
| TrainEmotionClassifier.CollectLabels | AI_Work/train_emotion_classifier.py:132-145 | the loop keeps the vocabulary emotions present as columns, in vocabulary order, and one label column for each |
| TrainEmotionClassifier.PrepareEmotionLabels | AI_Work/train_emotion_classifier.py:119-156 | preparing the frame is the corrected preparation over the eight depression emotions |
| TrainEmotionClassifier.PrepareFacts | AI_Work/train_emotion_classifier.py:126-151 | a missing 'text' column fails; with it, no emotion column fails; otherwise there is one text and one label row per frame row, one label per available emotion, and the available emotions are exactly the vocabulary names among the columns |
| TrainEmotionClassifier.PrepareEntries | AI_Work/train_emotion_classifier.py:137-151 | label (j, k) is row j of the k-th available emotion's column |
| TrainEmotionClassifier.PrepareAsWritten | AI_Work/train_emotion_classifier.py:126-151 | as written, preparation raises an AttributeError exactly when 'text' exists and some present emotion column holds text; any success agrees with the corrected version |
| TrainEmotionClassifier.Binarize | AI_Work/train_emotion_classifier.py:222-257 | evaluation gives one 0/1 value per probability, 1.0 exactly when the probability is strictly above 0.5 |
| TrainEmotionClassifier.EvaluationStricterThanServing | AI_Work/train_emotion_classifier.py:222 | a probability of exactly 0.5 counts as absent in evaluation but is reported at serving time with a 0.5 threshold (the other side: backend/apps/ai/model_predictors.py:168) |
| TrainEmotionClassifier.EmotionInfoFile | AI_Work/train_emotion_classifier.py:284-287 | the saved metadata holds the emotion names and their count, and no thresholds |
| TrainEmotionClassifier.SavedInfoDefaultsThresholds | AI_Work/train_emotion_classifier.py:284-287 | reading that metadata back gives the saved names with a 0.5 threshold each (the other side: AI_Work/synthesize_training_data.py:88-92) |
| Splits.ThreeWaySplit | AI_Work/train_emotion_classifier.py:166-171 | the 70/30 then 50/50 split fails for fewer than four rows; otherwise train has n minus ceil(0.3n) rows, test has half the rest rounded up, and val the remainder |
| Splits.ThreeWayPartition | AI_Work/train_emotion_classifier.py:166-171 | the three sides together cover every row, no row is on two sides, and no side repeats a row |
| Splits.TestCount | AI_Work/train_emotion_classifier.py:167-170 | a fractional test size asks for ceil(num/den * n) items |
| Splits.HoldOut | AI_Work/fine_tune_llama.py:221-223 | a split with t test items fails when t is 0 or leaves no training item; the test side is the first t shuffled positions and the train side the rest |
| Splits.FractionSplit | AI_Work/train_emotion_classifier.py:166-168 | a fractional split fails exactly when it would leave no training item, and otherwise has ceil(num/den * n) test items |
| Splits.HoldOutPartition | AI_Work/fine_tune_llama.py:221-223 | the two sides of a split partition its input |
| Splits.TwoSplitsPartition | AI_Work/train_emotion_classifier.py:166-171 | splitting a side again keeps the three sides disjoint and covering |
| DataLoaders.MatchMask | AI_Work/data_loaders.py:221-222 | one flag per column name, set exactly when the name meets the test |
| DataLoaders.FirstTrue | AI_Work/data_loaders.py:221-224 | the loop with `break`: the first set position, or none exactly when no position is set |
| DataLoaders.LastTrue | AI_Work/data_loaders.py:297-300 | assignment without a guard: the last set position, or none exactly when no position is set |
| DataLoaders.FirstMatch | AI_Work/data_loaders.py:221-224 | the first column whose name meets the test, or none exactly when no name does |
| DataLoaders.LastMatch | AI_Work/data_loaders.py:297-300 | the last column whose name meets the test, or none exactly when no name does |
| DataLoaders.TextColumnSpec | AI_Work/data_loaders.py:219-229 | the text column is a column of the frame: the first named text, post, content, sentence or utterance (any case), else the first; a frame with no columns fails |
| DataLoaders.DetectTextColumn | AI_Work/data_loaders.py:219-229 | the scanning loop finds that text column |
| DataLoaders.FindFirst | AI_Work/data_loaders.py:221-224 | the loop that stops at the first hit returns the first set position |
| DataLoaders.FirstTrueAt | AI_Work/data_loaders.py:221-224 | a set position with no set position before it is the first hit |
| DataLoaders.Matched | AI_Work/data_loaders.py:232-237 | no more matched emotions than vocabulary entries |
| DataLoaders.Listed | AI_Work/data_loaders.py:241-242 | the emotion names of the matched pairs, in order |
| DataLoaders.HitMask | AI_Work/data_loaders.py:232-237 | one flag per emotion, set exactly when it found a column |
| DataLoaders.MatchedListed | AI_Work/data_loaders.py:232-237 | the matched emotions are the vocabulary entries that found a column, in vocabulary order |
| DataLoaders.MatchedHits | AI_Work/data_loaders.py:232-237 | each matched pair is a vocabulary emotion with the column it found |
| DataLoaders.ColumnFor | AI_Work/data_loaders.py:234-237 | an emotion's column is a column of the frame |
| DataLoaders.Hits | AI_Work/data_loaders.py:233-237 | one lookup per vocabulary emotion, in order |
| DataLoaders.EmotionColumns | AI_Work/data_loaders.py:232-237 | every matched column is a column of the frame |
| DataLoaders.EmotionColumnsFacts | AI_Work/data_loaders.py:232-237 | emotions appear in vocabulary order, only when matched, and each with the first column whose lower-cased name contains it |
| DataLoaders.EmotionColumnsMembers | AI_Work/data_loaders.py:232-237 | an emotion is listed iff it is in the vocabulary and some column name contains it; unmatched emotions are left out |
| DataLoaders.DetectEmotionColumns | AI_Work/data_loaders.py:232-237 | the nested loop with `break` finds those pairs |
| DataLoaders.MatchedSnoc | AI_Work/data_loaders.py:233-237 | one more vocabulary emotion adds its pair exactly when it found a column |
| DataLoaders.LabelColumn | AI_Work/data_loaders.py:247-254 | an int64 or float64 column is kept as is; any other becomes 1 exactly where the lower-cased text is 'true' and 0 elsewhere |
| DataLoaders.EmoColumns | AI_Work/data_loaders.py:245-256 | the prepared frame is the text column as strings, then one label column per matched emotion, all of the original height |
| DataLoaders.DropBlankRows | AI_Work/data_loaders.py:259-323 | dropping blank rows keeps the column names and a rectangular frame |
| DataLoaders.PrepareEmoSpec | AI_Work/data_loaders.py:207-267 | no frame gives no result; a frame without columns fails at `df.columns[0]` |
| DataLoaders.PrepareDepressionEmoData | AI_Work/data_loaders.py:207-267 | the preparation on a frame is that specification |
| DataLoaders.PrepareEmoFacts | AI_Work/data_loaders.py:245-259 | the result has a 'text' column then one column per matched emotion, and keeps exactly the text rows that are non-blank after strip |
| DataLoaders.Scan | AI_Work/data_loaders.py:293-300 | one pass finds the first context match and the last response and emotion matches |
| DataLoaders.ScanColumns | AI_Work/data_loaders.py:293-300 | the column scan gives the first name containing 'context' and the last names matching response/utterance and emotion |
| DataLoaders.DetectDialogueColumns | AI_Work/data_loaders.py:289-300 | the loop's three columns are the dialogue column specification |
| DataLoaders.DialogueFrame | AI_Work/data_loaders.py:308-322 | the frame is empty exactly when no column matched and the input has no columns; otherwise up to three fallback columns are used |
| DataLoaders.PrepareDialoguesSpec | AI_Work/data_loaders.py:270-327 | no frame gives no result; a frame without columns fails |
| DataLoaders.PrepareEmpatheticDialoguesData | AI_Work/data_loaders.py:270-327 | the preparation on a frame is that specification |
| DataLoaders.DialoguesFirstColumnNonBlank | AI_Work/data_loaders.py:323 | every kept row has a non-blank first column |
| DataLoaders.DialoguesFallbackNames | AI_Work/data_loaders.py:316-320 | with no matched column, the first three columns become `col_0`, `col_1` and `col_2` |
| TrainSentimentModel.FirstLowerMatch | AI_Work/train_sentiment_model.py:133-142 | the first column whose lower-cased name equals the target, or none exactly when no name does |
| TrainSentimentModel.ColumnSpec | AI_Work/train_sentiment_model.py:125-142 | the exact name wins; otherwise the first case-insensitive match; none exactly when no name matches either way |
| TrainSentimentModel.FindColumn | AI_Work/train_sentiment_model.py:125-142 | the exact check followed by the loop with `break` finds that column |
| TrainSentimentModel.FirstLowerAt | AI_Work/train_sentiment_model.py:133-136 | a matching column with no match before it is the one found |
| TrainSentimentModel.KeptMask | AI_Work/train_sentiment_model.py:157-160 | one flag per row, set exactly when the row survives cleaning |
| TrainSentimentModel.Clean | AI_Work/train_sentiment_model.py:157-160 | cleaning never adds rows |
| TrainSentimentModel.CleanMembers | AI_Work/train_sentiment_model.py:157-160 | a row survives iff it has no null and its text is non-blank after strip |
| TrainSentimentModel.RowsOf | AI_Work/train_sentiment_model.py:153-154 | the `[text_col, sentiment_col]` copy: one (text, sentiment) row per frame row |
| TrainSentimentModel.CleanTest | AI_Work/train_sentiment_model.py:177-181 | the test frame fails (a KeyError) exactly when it lacks either column chosen on train |
| TrainSentimentModel.LoadAndExploreData | AI_Work/train_sentiment_model.py:102-186 | loading is the load specification |
| TrainSentimentModel.LoadFacts | AI_Work/train_sentiment_model.py:106-186 | a missing train.csv fails first; a missing text or sentiment column fails next; the cleaned train rows, and test rows when test.csv exists, have no null and no blank text |
| TrainSentimentModel.Encode | AI_Work/train_sentiment_model.py:200-208 | a label's code is its index in the class list |
| TrainSentimentModel.EncodeMonotone | AI_Work/train_sentiment_model.py:200-202 | with the fitted sorted classes, a smaller label gets a smaller code |
| TrainSentimentModel.EncodeDecode | AI_Work/train_sentiment_model.py:200-208 | decoding a label's code gives the label back |
| TrainSentimentModel.Labels | AI_Work/train_sentiment_model.py:202 | one label per row, in order |
| TrainSentimentModel.Codes | AI_Work/train_sentiment_model.py:202-228 | `transform` fails iff some label is not a class; otherwise each code indexes its own label |
| TrainSentimentModel.Texts | AI_Work/train_sentiment_model.py:196-197 | each text is stringified and stripped |
| TrainSentimentModel.EncodeRows | AI_Work/train_sentiment_model.py:196-204 | encoding fails iff some row's label is unknown; otherwise texts are the stripped texts and the codes decode to the labels |
| TrainSentimentModel.KnownMask | AI_Work/train_sentiment_model.py:225 | one flag per test row, set exactly when its label is a trained class |
| TrainSentimentModel.KnownRows | AI_Work/train_sentiment_model.py:218-225 | every kept test row has a trained label |
| TrainSentimentModel.EncodeKnown | AI_Work/train_sentiment_model.py:225-228 | after the filter the test transform cannot fail |
| TrainSentimentModel.PreprocessSpec | AI_Work/train_sentiment_model.py:189-232 | the classes are the given encoder's, else the sorted distinct training labels; fitting cannot fail; train rows and filtered test rows are stripped and encoded by those classes |
| TrainSentimentModel.TransformLabels | AI_Work/train_sentiment_model.py:202-204 | the encoding loop gives those codes or the failure |
| TrainSentimentModel.TransformRows | AI_Work/train_sentiment_model.py:196-204 | the row encoding loop gives the encoded rows or the failure |
| TrainSentimentModel.PreprocessData | AI_Work/train_sentiment_model.py:189-232 | preprocessing is that specification |
| TrainSentimentModel.FitOnTrain | AI_Work/train_sentiment_model.py:200-202 | the fitted classes are exactly the training labels, strictly increasing |
| TrainSentimentModel.TestKeepsKnown | AI_Work/train_sentiment_model.py:218-225 | a test row is kept iff its label occurs in training |
| TrainSentimentModel.StratifyCheck | AI_Work/train_sentiment_model.py:248 | a stratified split is allowed exactly when every class has at least two members and neither side is smaller than the number of classes, and a single-member class is reported as such |
| TrainSentimentModel.SentimentSplit | AI_Work/train_sentiment_model.py:245-259 | the split is refused exactly when a side would be empty or a stratified split would fail (a class with one member, or a side smaller than the number of classes), a single-member class always failing; with a test set, val is 20% of train (rounded up) and the test set is the given one; without, a successful split is the 70/15/15 three-way split |
| TrainSentimentModel.SentimentSplitPartition | AI_Work/train_sentiment_model.py:247-249 | with a test set, train and val partition the training rows |
| ProcessEmpatheticDialogues.ReplaceAllNoUnderscore | AI_Work/process_empathetic_dialogues.py:33-40 | every special token contains '_', so text without '_' passes the eight replacements unchanged |
| ProcessEmpatheticDialogues.PlaceholdersUnderscored | AI_Work/process_empathetic_dialogues.py:33-40 | the eight special tokens are non-empty and each contains '_' |
| ProcessEmpatheticDialogues.Close | AI_Work/process_empathetic_dialogues.py:46 | the first '>' of the rest of the text, or none exactly when there is no '>' |
| ProcessEmpatheticDialogues.RemoveTags | AI_Work/process_empathetic_dialogues.py:46 | removing `<[^>]+>` tags never lengthens the text |
| ProcessEmpatheticDialogues.RemoveTagsChars | AI_Work/process_empathetic_dialogues.py:46 | every character left was in the input |
| ProcessEmpatheticDialogues.RemoveTagsTagless | AI_Work/process_empathetic_dialogues.py:46 | no tag is left after the removal |
| ProcessEmpatheticDialogues.TaglessUnchanged | AI_Work/process_empathetic_dialogues.py:46 | text without a tag is unchanged |
| ProcessEmpatheticDialogues.RemoveTagsIdentity | AI_Work/process_empathetic_dialogues.py:46 | the removal leaves the text as it was iff it has no tag |
| ProcessEmpatheticDialogues.RemoveTagsPlain | AI_Work/process_empathetic_dialogues.py:43-46 | after whitespace is collapsed to plain spaces, tag removal keeps only plain spaces |
| ProcessEmpatheticDialogues.CleanString | AI_Work/process_empathetic_dialogues.py:30-48 | the cleaned text is stripped and its only whitespace is the plain space |
| ProcessEmpatheticDialogues.CleanText | AI_Work/process_empathetic_dialogues.py:25-48 | a missing value or 'nan' cleans to ""; any result is stripped with plain spaces only |
| ProcessEmpatheticDialogues.CleanStringPlain | AI_Work/process_empathetic_dialogues.py:30-48 | on already-stripped, single-spaced text without '_' cleaning only removes tags and strips |
| ProcessEmpatheticDialogues.TagLeavesDoubleSpace | AI_Work/process_empathetic_dialogues.py:43-48 | spaces are collapsed before tags are removed, so "a <b> c" cleans to "a  c", with two spaces |
| ProcessEmpatheticDialogues.RemoveTagsExample | AI_Work/process_empathetic_dialogues.py:46 | the tag in "a <b> c" is removed with nothing put in its place |
| ProcessEmpatheticDialogues.AcceptMask | AI_Work/process_empathetic_dialogues.py:95-103 | one flag per utterance: its cleaned text is longer than 10 characters and does not start with hi, hello or hey |
| ProcessEmpatheticDialogues.PickFrom | AI_Work/process_empathetic_dialogues.py:88-112 | the reply scan from a position stays in the group |
| ProcessEmpatheticDialogues.PickFromFirst | AI_Work/process_empathetic_dialogues.py:88-112 | the scan stops at the first row that qualifies (not the opening utterance, a speaker other than the one last seen opening, an acceptable text), and finds none only when no row qualifies |
| ProcessEmpatheticDialogues.Reply | AI_Work/process_empathetic_dialogues.py:85-112 | the reply is the first qualifying row of the sorted group, or none when no row qualifies |
| ProcessEmpatheticDialogues.Respond | AI_Work/process_empathetic_dialogues.py:68-112 | a processed row keeps its conversation's id |
| ProcessEmpatheticDialogues.RespondFacts | AI_Work/process_empathetic_dialogues.py:76-112 | a processed row has a non-empty prompt and emotion from the first utterance and an acceptable response |
| ProcessEmpatheticDialogues.OutIds | AI_Work/process_empathetic_dialogues.py:108 | the conversation id of each processed row, in order |
| ProcessEmpatheticDialogues.Responses | AI_Work/process_empathetic_dialogues.py:64-112 | the per-group answer of every group |
| ProcessEmpatheticDialogues.CollectSources | AI_Work/process_empathetic_dialogues.py:60-114 | every collected row is the answer of some group |
| ProcessEmpatheticDialogues.CollectDistinct | AI_Work/process_empathetic_dialogues.py:61-111 | `seen_conversations` makes the collected conversation ids distinct |
| ProcessEmpatheticDialogues.ExtractDistinct | AI_Work/process_empathetic_dialogues.py:50-114 | extraction yields at most one row per conversation |
| ProcessEmpatheticDialogues.ExtractSources | AI_Work/process_empathetic_dialogues.py:50-114 | each extracted row comes from a group and has a prompt, an emotion and an acceptable response |
| ProcessEmpatheticDialogues.FindReply | AI_Work/process_empathetic_dialogues.py:85-112 | the two loops over the group find the first qualifying reply |
| ProcessEmpatheticDialogues.RespondTo | AI_Work/process_empathetic_dialogues.py:68-112 | the per-group loop gives that group's answer |
| ProcessEmpatheticDialogues.CollectSnoc | AI_Work/process_empathetic_dialogues.py:64-111 | one more group adds its answer unless its id is already seen or it has none |
| ProcessEmpatheticDialogues.IdSet | AI_Work/process_empathetic_dialogues.py:61 | the seen set holds exactly the collected conversation ids |
| ProcessEmpatheticDialogues.IdSetSnoc | AI_Work/process_empathetic_dialogues.py:111 | appending a row adds its id to the seen set |
| ProcessEmpatheticDialogues.ExtractFirstEmpatheticResponse | AI_Work/process_empathetic_dialogues.py:50-114 | the loop over the groups with the seen set gives the extraction specification |
| ProcessEmpatheticDialogues.LengthMask | AI_Work/process_empathetic_dialogues.py:155-160 | one flag per row: prompt between 11 and 1999 characters, response between 11 and 999 |
| ProcessEmpatheticDialogues.Keys | AI_Work/process_empathetic_dialogues.py:169 | the (journal entry, emotion) key of each row |
| ProcessEmpatheticDialogues.FirstOfKey | AI_Work/process_empathetic_dialogues.py:169 | a row's flag is set iff no earlier row has its key |
| ProcessEmpatheticDialogues.DropDuplicates | AI_Work/process_empathetic_dialogues.py:169 | deduplication never adds rows |
| ProcessEmpatheticDialogues.DropDuplicatesKeepsFirst | AI_Work/process_empathetic_dialogues.py:169 | a row is kept iff it is the first occurrence of its key |
| ProcessEmpatheticDialogues.ProcessDatasetFacts | AI_Work/process_empathetic_dialogues.py:116-172 | a missing file gives no rows; every row passes the length filter; keys are distinct; conversation ids are distinct |
| Dialogues.ConvIds | AI_Work/process_empathetic_dialogues.py:64 | the `conv_id` column, row by row |
| Dialogues.IdMask | AI_Work/process_empathetic_dialogues.py:64 | one flag per row, set exactly when the row belongs to the conversation |
| Dialogues.Conversation | AI_Work/process_empathetic_dialogues.py:64-69 | a group holds exactly its conversation's rows, as a multiset, ordered by `utterance_idx` |
| Dialogues.GroupBy | AI_Work/process_empathetic_dialogues.py:64-69 | one group per distinct `conv_id`, in sorted id order, each holding that conversation sorted |
| Dialogues.ConversationMembers | AI_Work/process_empathetic_dialogues.py:64 | an utterance is in a conversation's group iff it is a row with that id |
| Dialogues.GroupByFacts | AI_Work/process_empathetic_dialogues.py:64 | group ids are strictly increasing, and every row lands in the group of its id |
| Dialogues.Opening | AI_Work/process_empathetic_dialogues.py:75-79 | the first row with `utterance_idx == 1`, or none exactly when there is no such row |
| Dialogues.GroupIds | AI_Work/process_empathetic_dialogues.py:64 | the id of each group, in order |
| Dialogues.GroupIdsDistinct | AI_Work/process_empathetic_dialogues.py:64 | no two groups share an id |
| Prompts.ResponseTagApart | AI_Work/train_mental_health_model.py:175 | occurrences of "Empathetic Response:" cannot overlap |
| Prompts.IntensityOf | AI_Work/train_mental_health_model.py:164-165 | the dict's intensity, or 0.7 when it is absent |
| Prompts.RenderEmotion | AI_Work/train_mental_health_model.py:164-165 | each rendered emotion starts with its name and ends with ")" |
| Prompts.Rendered | AI_Work/train_mental_health_model.py:164-165 | one rendered string per emotion, in order |
| Prompts.RenderDefault | AI_Work/train_mental_health_model.py:164-165 | an emotion without intensity renders as "name (0.7)" |
| Prompts.RenderNoComma | AI_Work/train_mental_health_model.py:164-165 | the rendering adds no comma to a comma-free name |
| Prompts.EmotionsTextSplit | AI_Work/train_mental_health_model.py:164-165 | with comma-free names, splitting the joined list on ", " gives the rendered emotions back |
| TrainMentalHealthModel.IntensityBand | AI_Work/train_mental_health_model.py:97 | "high" exactly above 0.7, "medium" exactly in (0.4, 0.7], "low" exactly at or below 0.4 |
| TrainMentalHealthModel.FormatEmotions | AI_Work/train_mental_health_model.py:61-99 | the text opens with the mapped display name and closes with the intensity band and ")" |
| TrainMentalHealthModel.FormatEmotionsCaseInsensitive | AI_Work/train_mental_health_model.py:96 | the label's case does not matter |
| TrainMentalHealthModel.DisplayUnmapped | AI_Work/train_mental_health_model.py:96-99 | a label outside the map is shown lower-cased, and the default intensity is "medium" |
| TrainMentalHealthModel.Field | AI_Work/train_mental_health_model.py:121-128 | a field is stripped, and "" stands for a missing value or 'nan' |
| TrainMentalHealthModel.RowDialogue | AI_Work/train_mental_health_model.py:120-136 | a row yields a dialogue iff prompt, context and utterance are all non-empty; the dialogue carries the split tag |
| TrainMentalHealthModel.RowResults | AI_Work/train_mental_health_model.py:120-136 | one outcome per CSV row |
| TrainMentalHealthModel.RowResultsAt | AI_Work/train_mental_health_model.py:120-136 | the k-th outcome is that of the k-th row |
| TrainMentalHealthModel.KeptRowsFacts | AI_Work/train_mental_health_model.py:120-155 | a dialogue is kept iff some row yields it; no more dialogues than rows; each carries the tag |
| TrainMentalHealthModel.CollectRows | AI_Work/train_mental_health_model.py:120-155 | the `iterrows` loop appends the dialogues of the accepted rows in order |
| TrainMentalHealthModel.LoadEmpatheticDialogues | AI_Work/train_mental_health_model.py:101-159 | fails with FileNotFoundError exactly when train.csv is missing; otherwise the train dialogues, then the valid ones when valid.csv exists |
| TrainMentalHealthModel.WithTag | AI_Work/train_mental_health_model.py:328-329 | selecting by split never adds dialogues |
| TrainMentalHealthModel.WithTagAppend | AI_Work/train_mental_health_model.py:328-329 | selection distributes over concatenation |
| TrainMentalHealthModel.WithTagUniform | AI_Work/train_mental_health_model.py:328-329 | on dialogues all of one split, selection gives all or nothing |
| TrainMentalHealthModel.WithTagKept | AI_Work/train_mental_health_model.py:135-329 | the file a dialogue was read from decides its split |
| TrainMentalHealthModel.LoadedTags | AI_Work/train_mental_health_model.py:328-329 | the train selection is exactly train.csv's dialogues and the val selection exactly valid.csv's |
| TrainMentalHealthModel.WithTagCount | AI_Work/train_mental_health_model.py:328-329 | every dialogue is train or val |
| TrainMentalHealthModel.FormatPrompt | AI_Work/train_mental_health_model.py:161-175 | the prompt opens with the system block and ends with "Empathetic Response: [/INST]" |
| TrainMentalHealthModel.PromptHolds | AI_Work/train_mental_health_model.py:167-175 | the journal entry and the emotion list stand at fixed offsets of the prompt |
| TrainMentalHealthModel.Copies | AI_Work/train_mental_health_model.py:219-232 | `[x] * n` |
| TrainMentalHealthModel.Labels | AI_Work/train_mental_health_model.py:219 | the prompt positions are -100 and the response positions keep their token ids |
| TrainMentalHealthModel.Encode | AI_Work/train_mental_health_model.py:219-232 | every field is truncated or padded to max_len; ids pad with the pad id, the mask with 0, labels with -100, and labels are the ids only after the prompt |
| TrainMentalHealthModel.FullText | AI_Work/train_mental_health_model.py:192-196 | the training text starts with the prompt built with intensity 0.7 |
| TrainMentalHealthModel.PreprocessItem | AI_Work/train_mental_health_model.py:186-238 | every item is encoded to exactly max_input + max_output tokens |
| TrainMentalHealthModel.PreprocessData | AI_Work/train_mental_health_model.py:177-241 | the loop encodes each dialogue in order |
| TrainMentalHealthModel.PlanSplits | AI_Work/train_mental_health_model.py:314-351 | no data raises ValueError; with a val split the original splits are used and test is val; without one the two-stage split sizes are 1 - train_split and test/(val+test), and a zero denominator fails |
| TrainMentalHealthModel.OriginalPartition | AI_Work/train_mental_health_model.py:327-351 | with a non-empty valid.csv, train and val are the two files' dialogues and together are all of them |
| TestMentalHealthModel.FormatPrompt | AI_Work/test_mental_health_model.py:66-79 | the chat prompt opens with the system tag and message and ends with "<\|assistant\|>" and a newline |
| TestMentalHealthModel.PromptHolds | AI_Work/test_mental_health_model.py:73-79 | the journal entry and the emotion list stand at fixed offsets of the prompt |
| TestMentalHealthModel.ExtractResponse | AI_Work/test_mental_health_model.py:120-131 | whichever branch is taken, the response is stripped |
| TestMentalHealthModel.AssistantTagApart | AI_Work/test_mental_health_model.py:121-122 | occurrences of "<\|assistant\|>" cannot overlap |
| TestMentalHealthModel.RemoveEndTokensAbsent | AI_Work/test_mental_health_model.py:124 | text without "</s>" or "<\|endoftext\|>" is left as it is |
| TestMentalHealthModel.ExtractAfterAssistant | AI_Work/test_mental_health_model.py:121-124 | the response is what follows the last assistant tag, stripped and without end tokens |
| TestMentalHealthModel.ExtractAfterLabel | AI_Work/test_mental_health_model.py:125-126 | without an assistant tag, the response is what follows the last "Empathetic Response:", stripped |
| TestMentalHealthModel.ExtractRoundTrip | AI_Work/test_mental_health_model.py:66-131 | decoding prompt + reply gives the stripped reply back when the reply holds no assistant tag and no end token |
| TestMentalHealthModel.CleanString | AI_Work/test_mental_health_model.py:191-194 | the cleaned text is stripped |
| TestMentalHealthModel.CleanText | AI_Work/test_mental_health_model.py:188-194 | a missing value or 'nan' is ""; any result is stripped |
| TestMentalHealthModel.CleanComma | AI_Work/test_mental_health_model.py:188-194 | "_comma_" becomes "," and nothing else changes on text without '_' or outer whitespace |
| TestMentalHealthModel.CleanStringComma | AI_Work/test_mental_health_model.py:191-194 | the same for a string cell |
| TestMentalHealthModel.ReplyMask | AI_Work/test_mental_health_model.py:220-225 | one flag per row: not the opening utterance, another speaker, and a cleaned text longer than 10 |
| TestMentalHealthModel.FirstSetFrom | AI_Work/test_mental_health_model.py:220-232 | the scan stops at a set flag at or after the start |
| TestMentalHealthModel.FirstSetFromFirst | AI_Work/test_mental_health_model.py:220-232 | it is the first such flag, and none is found only when none is set |
| TestMentalHealthModel.ContributionFacts | AI_Work/test_mental_health_model.py:206-232 | an example's entry and emotion are the cleaned, non-empty prompt and context of the first opening row; its response is a later row's cleaned utterance from another speaker, longer than 10 |
| TestMentalHealthModel.Contributions | AI_Work/test_mental_health_model.py:200-232 | the per-group example of every group |
| TestMentalHealthModel.GatherFacts | AI_Work/test_mental_health_model.py:196-234 | at most max_samples examples (none when it is negative), one per seen conversation, each an example of some group |
| TestMentalHealthModel.GatherSaturated | AI_Work/test_mental_health_model.py:201-202 | once max_samples examples are gathered, later groups change nothing |
| TestMentalHealthModel.SliceTo | AI_Work/test_mental_health_model.py:171 | Python's `[:m]`: a prefix, of length m capped at the length, or for negative m the length plus m, at least 0 |
| TestMentalHealthModel.LoadTestDataFacts | AI_Work/test_mental_health_model.py:161-234 | processed JSON wins, sliced to max_samples; test.csv is used before valid.csv; no file gives []; the CSV path yields at most max_samples examples |
| TestMentalHealthModel.FindReply | AI_Work/test_mental_health_model.py:220-232 | the reply loop finds the first qualifying row |
| TestMentalHealthModel.Contribute | AI_Work/test_mental_health_model.py:203-232 | the per-group body gives that group's example |
| TestMentalHealthModel.GatherSnoc | AI_Work/test_mental_health_model.py:200-232 | one more group adds its example unless the limit is reached, its id is seen, or it has none |
| TestMentalHealthModel.GatherExamples | AI_Work/test_mental_health_model.py:196-234 | the loop with the limit and the seen set gives the gathering specification |
| PredictMentalHealth.Clamp | AI_Work/predict_mental_health.py:107 | `max(0.0, min(1.0, x))` lies in [0, 1], is x inside it and the nearer bound outside |
| PredictMentalHealth.ParseItem | AI_Work/predict_mental_health.py:94-108 | every parsed emotion has a stripped name and an intensity in [0, 1] |
| PredictMentalHealth.ParseEmotions | AI_Work/predict_mental_health.py:83-110 | "" gives no emotions; otherwise one emotion per comma-separated piece, as the parsing specification says |
| PredictMentalHealth.ParsedAt | AI_Work/predict_mental_health.py:93-108 | the k-th emotion is the parse of the k-th piece |
| PredictMentalHealth.ParseItemAt | AI_Work/predict_mental_health.py:95-107 | a piece with ':' splits at the first one: the stripped name, and the clamped number or 0.7 when it does not parse |
| PredictMentalHealth.ParseBareName | AI_Work/predict_mental_health.py:101-103 | a piece without ':' gets the default intensity 0.7 |
| PredictMentalHealth.ParsePair | AI_Work/predict_mental_health.py:94-107 | "name:value" parses to the stripped name and the clamped value |
| PredictMentalHealth.ParseJoined | AI_Work/predict_mental_health.py:83-110 | parsing comma-joined comma-free pieces parses each piece in order |
| PredictMentalHealth.ExtractResponseAsWritten | AI_Work/predict_mental_health.py:180-187 | the extraction as written always yields stripped text |
| PredictMentalHealth.InstLeftInReply | AI_Work/predict_mental_health.py:181-182 | an output echoing "Empathetic Response: [/INST]" yields a reply that still starts with "[/INST]" |
| PredictMentalHealth.EchoKeepsInst | AI_Work/predict_mental_health.py:181-182 | for every prompt, prompt + reply gives a reply that starts with "[/INST]" |
| PredictMentalHealth.ReplyMarkerApart | AI_Work/train_mental_health_model.py:175 | occurrences of "Empathetic Response: [/INST]" cannot overlap |
| PredictMentalHealth.ExtractReply | AI_Work/predict_mental_health.py:180-187 | the corrected extraction yields stripped text |
| PredictMentalHealth.ExtractReplyAfterMarker | AI_Work/predict_mental_health.py:181-182 | what follows the last full marker, stripped, is the reply |
| PredictMentalHealth.ExtractReplyRoundTrip | AI_Work/predict_mental_health.py:111-187 | prompt + reply extracts to the stripped reply |
| PredictMentalHealth.ArgEntry | AI_Work/predict_mental_health.py:287-305 | `--text` wins over the file's `journal_entry`; none without either |
| PredictMentalHealth.ArgEmotions | AI_Work/predict_mental_health.py:288-308 | `--emotions` wins and is parsed; no file and no flag gives none |
| PredictMentalHealth.Resolve | AI_Work/predict_mental_health.py:286-323 | a missing `--file` ends the run; a blank entry is read from the console lines joined by newlines; emotions given on the command line are kept |
| PredictMentalHealth.EmotionsOrDefault | AI_Work/predict_mental_health.py:329-331 | never empty: the given emotions, or "neutral" at 0.5 |
| PredictMentalHealth.Respond | AI_Work/predict_mental_health.py:325-341 | an all-whitespace entry ends the run; otherwise the answer is the reply extracted from the model's output for the prompt, using the corrected extraction of the first Findings row |
| PredictMentalHealth.MainEchoRoundTrip | AI_Work/predict_mental_health.py:240-341 | with the corrected extraction, a model that appends a reply to the prompt makes the run answer that reply, stripped |
| PredictMentalHealth.DefaultEmotionShown | AI_Work/predict_mental_health.py:329-331 | the default emotion list renders as "neutral (0.5)" |
| InferencePipeline.NewGenerator | AI_Work/inference_pipeline.py:39-93 | construction fails with the classifier's error first, then with FileNotFoundError when the fine-tuned model is missing; otherwise it holds the loaded classifier |
| InferencePipeline.PromptAsWrittenNotTraining | AI_Work/inference_pipeline.py:114 | the prompt as written (its em dash garbled) is not the training prompt and no training example starts with it |
| InferencePipeline.EmotionLinesFor | AI_Work/inference_pipeline.py:98-101 | one line per listed emotion, in order, each showing that emotion's score or 0.0 when it is absent |
| InferencePipeline.FormatPrompt | AI_Work/inference_pipeline.py:96-120 | the emotion loop builds the training prompt, so prompt + summary is exactly a training example |
| InferencePipeline.SummaryTagApart | AI_Work/inference_pipeline.py:155-156 | occurrences of "[HUMANIZED SUMMARY]" cannot overlap |
| InferencePipeline.ExtractSummary | AI_Work/inference_pipeline.py:154-159 | the summary is stripped, on either branch |
| InferencePipeline.ExtractSummaryRoundTrip | AI_Work/inference_pipeline.py:129-159 | an output that continues the prompt with a summary extracts to the stripped summary |
| InferencePipeline.GenerateSummary | AI_Work/inference_pipeline.py:122-166 | the result holds the text, its first emotion scores, the extracted summary and the prompt, built with the corrected em dash of the second Findings row |
| InferencePipeline.ResultForEcho | AI_Work/inference_pipeline.py:122-166 | on the corrected prompt, a model that appends a summary gives that summary, stripped |
| InferencePipeline.GenerateBatch | AI_Work/inference_pipeline.py:168-174 | the loop summarizes every text in order |
| InferencePipeline.BatchAt | AI_Work/inference_pipeline.py:168-174 | the k-th result is that of the k-th text and carries the text and its scores |
| AiServices.Hits | backend/apps/ai/services.py:27-28 | the count of listed words found is at most the list's length |
| AiServices.HitsDistinct | backend/apps/ai/services.py:27-42 | for a list without repeats the count is the number of listed words that occur in the text |
| AiServices.SentimentListsDistinct | backend/apps/ai/services.py:24-25 | the positive and negative word lists have no repeats |
| AiServices.AnyIn | backend/apps/ai/services.py:62-70 | `any(p in text for p in phrases)`: true iff some phrase occurs as a substring |
| AiServices.HitsPositive | backend/apps/ai/services.py:27-28 | the count is positive iff some listed word occurs |
| AiServices.Clamp | backend/apps/ai/services.py:38 | the clamped value lies in the bounds and is unchanged inside them |
| AiServices.SentimentScore | backend/apps/ai/services.py:30-38 | in [-1, 1]; 0 without sentiment words; otherwise (p - n)/(p + n); positive iff more positive words, negative iff more negative ones |
| AiServices.UpperCount | backend/apps/ai/services.py:44 | at most one upper-case letter per character |
| AiServices.CharCount | backend/apps/ai/services.py:43 | `text.count('!')` is at most the length |
| AiServices.CapsRatio | backend/apps/ai/services.py:44 | in [0, 1]; 0 for the empty text; otherwise capitals over length |
| AiServices.IntensityScore | backend/apps/ai/services.py:46 | in [0, 1], and below 1 it is 0.1 per intensifier, 0.05 per '!' and 0.3 times the capitals ratio |
| AiServices.MatchedThemes | backend/apps/ai/services.py:49-63 | at most one theme per dict entry |
| AiServices.MatchedThemesFacts | backend/apps/ai/services.py:49-63 | a theme is listed iff one of its keywords occurs; with distinct names no theme is listed twice |
| AiServices.ThemeNamesDistinct | backend/apps/ai/services.py:50-59 | the theme dict's keys are distinct |
| AiServices.Flags | backend/apps/ai/services.py:66-71 | each risk flag is set iff one of its phrases occurs in the lower-cased text |
| AiServices.NegativeTrend | backend/apps/ai/services.py:74-80 | a trend needs at least three recent scores |
| AiServices.SumAtLeast | backend/apps/ai/services.py:78 | a sum of scores each at least m is at least count times m |
| AiServices.TrendBelowFloor | backend/apps/ai/services.py:74-80 | three or more recent scores at or above a floor, and a score more than 0.3 below that floor, make a trend |
| AiServices.NoTrendWithFewEntries | backend/apps/ai/services.py:77 | fewer than three recent scores never make a trend |
| AiServices.Opening | backend/apps/ai/services.py:83-88 | the opening sentence by band: above 0.3 positive, below -0.3 challenging, otherwise mixed |
| AiServices.Summary | backend/apps/ai/services.py:83-88 | the summary opens with the band's sentence, then the first two themes joined by ", " or the band's fallback, then the band's closing word |
| AiServices.AnalyzeJournal | backend/apps/ai/services.py:9-104 | the scores are the text's sentiment and intensity, in range; the key themes are the first five matched themes; the summary is built from the sentiment and all matched themes; the risk flags are those of the text; and a chat is suggested iff a flag, a score below -0.5 with intensity above 0.5, or a negative trend |
| AiServices.RiskSuggestsChat | backend/apps/ai/services.py:91-95 | any risk flag alone suggests a chat |
| AiServices.KeyThemesFacts | backend/apps/ai/services.py:61-101 | the key themes are distinct and each has a keyword in the text |
| AiService.NonEmpty | backend/utils/ai_service.py:28-29 | the key filter keeps only non-empty keys and never adds any |
| AiService.NonEmptyMembers | backend/utils/ai_service.py:28-29 | a key is kept iff it was configured and is non-empty; with no empty key the list is unchanged |
| AiService.WrapMod | backend/utils/ai_service.py:47 | the rotating index wraps to 0 after the last key |
| AiService.RoundVisitsAll | backend/utils/ai_service.py:66-67 | from any start, one round of attempts uses every key |
| AiService.Rotation | backend/utils/ai_service.py:50-116 | the index stays in range; no keys give None and leave the index; when no attempt answers status 200 the result is None and the round comes back to the start |
| AiService.RotationFails | backend/utils/ai_service.py:66-116 | with no status-200 attempt the result is None and the index is back at the start; the request gives None iff no attempt answers 200 or the first that does has a null content |
| AiService.RotationFirstAnswer | backend/utils/ai_service.py:66-98 | the first status-200 attempt ends the round: its content, None included, is the result and the index points just past its key |
| AiService.RotationSucceeds | backend/utils/ai_service.py:66-98 | a reply is the non-null content of the first status-200 attempt, and the index then points past that key |
| AiService.OccursChar | backend/utils/ai_service.py:163-164 | a one-character pattern occurs exactly where that character stands |
| AiService.FindChar | backend/utils/ai_service.py:163 | `find('{')` is -1 iff there is no '{', else the first one |
| AiService.RFindChar | backend/utils/ai_service.py:164 | `rfind('}')` is -1 iff there is no '}', else the last one |
| AiService.JsonSliceFacts | backend/utils/ai_service.py:163-166 | a slice exists iff a '{' comes before a '}'; it runs from the first '{' to the last '}' |
| AiService.InsightFrom | backend/utils/ai_service.py:159-187 | no reply gives the fallback; otherwise the decoded slice when it decodes, and the fallback when it does not |
| AiService.ObjectThenProse | backend/utils/ai_service.py:163-170 | a decodable object followed by prose without '}' yields that object |
| AiService.NoBraceFallback | backend/utils/ai_service.py:165-187 | a reply without '{' yields the fallback |
| AiService.ReplyOr | backend/utils/ai_service.py:259-326 | a non-empty reply is returned as it is, else the fixed fallback text |
| AiService.JournalPrompt | backend/utils/ai_service.py:133-151 | the prompt holds the journal text after the fixed introduction, and no emotion line without detected emotions |
| AiService.ChatMessages | backend/utils/ai_service.py:243-255 | the system prompt first, the context message only when a summary is given, then the history unchanged, then the user's message |
| AiService.EntryBlocks | backend/utils/ai_service.py:281-285 | one block per journal, numbered from 1 |
| AiService.JournalsTextSnoc | backend/utils/ai_service.py:280-285 | one more journal appends its block with the next number |
| AiService.ChatLines | backend/utils/ai_service.py:291-294 | one line per message |
| AiService.ChatLineDefaults | backend/utils/ai_service.py:292-294 | a message without a role is shown as "UNKNOWN", and one without content shows nothing after the colon |
| AiService.ChatTextLastTwenty | backend/utils/ai_service.py:291 | only the last 20 messages count: older messages change nothing |
| AiService.BuildJournalsText | backend/utils/ai_service.py:279-285 | the loop builds the journal text |
| AiService.BuildChatText | backend/utils/ai_service.py:287-294 | the loop builds the chat text, "" without history |
| AiService.OpenRouterAIService.constructor | backend/utils/ai_service.py:19-31 | the service keeps the non-empty configured keys, the configured or default model, and starts at key 0 |
| AiService.OpenRouterAIService.GetNextKey | backend/utils/ai_service.py:41-48 | ValueError without keys; otherwise the current key, and the index advances cyclically |
| AiService.OpenRouterAIService.MakeRequest | backend/utils/ai_service.py:50-116 | the attempt loop answers (a null content from a 200 reply included) and moves the index as the rotation specification says |
| AiService.OpenRouterAIService.AnalyzeJournalSummary | backend/utils/ai_service.py:120-187 | one request at 500 tokens and temperature 0.5; the insight is extracted from its reply |
| AiService.OpenRouterAIService.GetHistoryChatResponse | backend/utils/ai_service.py:191-263 | one request with the chat messages at 300 tokens and 0.8; the reply or the fallback |
| AiService.OpenRouterAIService.GeneratePatientSummary | backend/utils/ai_service.py:267-326 | one request with the journal and chat text at 2000 tokens and 0.6; the reply or the fallback |
| ChatServices.SopFrom | backend/apps/chat/services.py:26-33 | a document found by the category scan is an active one |
| ChatServices.SopFromNone | backend/apps/chat/services.py:26-33 | the scan finds nothing iff no remaining category has both a keyword hit and an active document |
| ChatServices.SopFromFirst | backend/apps/chat/services.py:26-33 | the first category with a hit and an active document gives its newest active document |
| ChatServices.GetRelevantSop | backend/apps/chat/services.py:14-36 | the chosen document, if any, is active |
| ChatServices.NoRelevantSop | backend/apps/chat/services.py:14-36 | there is no document iff no document is active |
| ChatServices.RelevantSopOrder | backend/apps/chat/services.py:19-36 | the first fitting category in dict order wins; with none, the newest active document |
| ChatServices.GenerateBotResponse | backend/apps/chat/services.py:39-116 | dangerous iff a danger phrase occurs; escalate iff dangerous; the reply is the danger text, else the recent-risk text, else the guidance for the chosen document |
| ChatServices.BestAmong | backend/apps/chat/services.py:121-131 | among the first n profiles: none iff none is verified, else the verified one with fewest pending tickets and lowest id |
| ChatServices.AssignProfessional | backend/apps/chat/services.py:119-131 | none iff no profile is verified; else the least-loaded verified profile, ties to the lowest id |
| ChatServices.LeastLoadedUnique | backend/apps/chat/services.py:127-131 | the least-loaded choice is unique, so any profile meeting it is the one assigned |
| ChatServices.Escalate | backend/apps/chat/services.py:134-151 | without a verified profile nothing changes; otherwise one pending ticket for the session's user is appended, assigned to the least loaded, and only that session is marked escalated |
| ChatServices.EscalateLoad | backend/apps/chat/services.py:140-146 | an escalation adds one pending ticket to the assigned profile's load and none to any other |
| ChatServices.CreateEscalationTicket | backend/apps/chat/services.py:134-151 | on the store, the escalation specification |
| ChatViews.NewSession | backend/apps/chat/views.py:31-35 | `objects.create` succeeds iff every keyword is a field of the session model, making an open session of the user |
| ChatViews.AsWrittenNeverCreates | backend/apps/chat/views.py:31-35 | with no open session, the view as written fails (500) because `is_anonymous` is not a session field, and stores nothing |
| ChatViews.OpenSession | backend/apps/chat/views.py:18-37 | the newest open session of the user is returned (200) if there is one; otherwise one open session is appended (201); either way the id is the user's open session |
| ChatViews.OpenSessionAgain | backend/apps/chat/views.py:18-37 | a second request returns the same session and changes nothing |
| ChatViews.CreateSession | backend/apps/chat/views.py:18-37 | on the store, the session request for the given keywords |
| ChatViews.GetMessages | backend/apps/chat/views.py:100-110 | only the owner sees a session (else 404); the answer is exactly the session's messages |
| ChatViews.SendMessage | backend/apps/chat/views.py:42-95 | 404 for another's session, 400 for a closed one or invalid content, and then nothing changes; otherwise the user message and the bot reply are appended and a dangerous message is escalated |
| ChatViews.StoreExchange | backend/apps/chat/views.py:60-95 | the two messages are stored in order and the escalation runs exactly when the reply says so |
| ChatViews.SendThenRead | backend/apps/chat/views.py:61-108 | after sending, the session's messages end with the new pair |
| ChatViews.SendElsewhere | backend/apps/chat/views.py:108 | messages of other sessions leave a session's messages unchanged |
| ProfessionalModels.FilledIff | backend/apps/professionals/models.py:73-74 | `s and s.strip()` is truthy iff the stripped text is non-empty |
| ProfessionalModels.Saved | backend/apps/professionals/models.py:41-47 | saving sets `verified` iff it was set or the documents are present, and changes nothing else |
| ProfessionalModels.SavedFacts | backend/apps/professionals/models.py:41-61 | saving is idempotent, never unverifies, never verifies a profile without a type, and verifies one with documents |
| ProfessionalModels.MissingFields | backend/apps/professionals/models.py:77-84 | the list is empty iff the profile is complete, names specialization and city exactly when blank, in that order |
| ProfessionalModels.FilledCount | backend/apps/professionals/models.py:88-93 | at most the three counted fields are filled |
| ProfessionalModels.CompletionPercentage | backend/apps/professionals/models.py:86-94 | one of 0, 33, 66, 100: the truncated share of filled fields, 100 iff all three and 0 iff none |
| ProfessionalModels.CompleteIsTwoThirds | backend/apps/professionals/models.py:70-94 | a complete profile is at least 66%; 100% means complete with nothing missing |
| ProfessionalModels.ParseVerdict | backend/apps/professionals/models.py:143-147 | a parsed verdict has the parsed name |
| ProfessionalModels.VerdictChoices | backend/apps/professionals/models.py:143-147 | names and verdicts round-trip, and exactly the three choices parse |
| ProfessionalSerializers.ValidField | backend/apps/professionals/serializers.py:15-18 | a field is valid iff it is an allowed-blank char field within the model's max_length; the value is the trimmed text |
| ProfessionalSerializers.Validate | backend/apps/professionals/serializers.py:15-18 | the request is valid iff every given field is; validation keeps which fields are given |
| ProfessionalSerializers.Items | backend/apps/professionals/serializers.py:32 | at most the three declared fields |
| ProfessionalSerializers.OverwriteFields | backend/apps/professionals/serializers.py:31-33 | `setattr` over the items sets each given field to its last value and nothing else |
| ProfessionalSerializers.SuppliedAppend | backend/apps/professionals/serializers.py:32-33 | a later item overrides an earlier one for the same field |
| ProfessionalSerializers.ItemsSupply | backend/apps/professionals/serializers.py:32 | the items supply exactly the request's given fields |
| ProfessionalSerializers.SuppliedOne | backend/apps/professionals/serializers.py:32-33 | one item supplies its own field only |
| ProfessionalSerializers.SetAttrs | backend/apps/professionals/serializers.py:32-33 | the `setattr` loop gives that overwrite |
| ProfessionalSerializers.ApplyValid | backend/apps/professionals/serializers.py:20-35 | a missing specialization raises KeyError and changes nothing; otherwise the answer is the requester's profile |
| ProfessionalSerializers.ApplyTo | backend/apps/professionals/views.py:24-31 | an invalid request is a 400 that changes nothing; a valid one is applied |
| ProfessionalSerializers.ApplyKeepsOneProfile | backend/apps/professionals/serializers.py:20-35 | whatever the request, an apply leaves every user with at most one professional profile |
| ProfessionalSerializers.Apply | backend/apps/professionals/views.py:24-31 | on the store, the apply specification |
| ProfessionalSerializers.ApplyCreates | backend/apps/professionals/serializers.py:22-30 | without a profile one unverified profile is appended with the given fields and '' defaults; one profile per user is kept |
| ProfessionalSerializers.ApplyUpdates | backend/apps/professionals/serializers.py:31-34 | when the user already has a profile, only that profile changes: the supplied fields are set and the others kept, and it ends up verified exactly when it was verified before or the saved profile has its verification documents |
| ProfessionalSerializers.ValidateVerdict | backend/apps/professionals/serializers.py:56-58 | valid iff the verdict is one of the three choices and any notes are a valid blank-allowed char field |
| ProfessionalViews.ListProfessionals | backend/apps/professionals/views.py:12-16 | exactly the verified profiles, newest first |
| ProfessionalViews.Guard | backend/apps/professionals/views.py:47-58 | 403 without a profile, 403 with an unverified one, else the requester's own verified profile |
| ProfessionalViews.GuardGrants | backend/apps/professionals/views.py:47-58 | with one profile per user, the requester's profile opens the endpoints iff it is verified |
| ProfessionalViews.ProfessionalEscalations | backend/apps/professionals/views.py:43-65 | 403 unless granted; otherwise exactly the pending tickets assigned to the requester, newest first |
| ProfessionalViews.EscalationDetail | backend/apps/professionals/views.py:68-91 | 403 unless granted; the ticket iff it exists and is assigned to the requester, whatever its status; else 404 |
| ProfessionalViews.VerdictOn | backend/apps/professionals/views.py:94-128 | 403 from the guard, 404 unless pending and assigned to the requester, 400 for an invalid body, and then nothing changes; otherwise only that ticket is reviewed with the verdict |
| ProfessionalViews.VerdictOnce | backend/apps/professionals/views.py:111-126 | a verdict changes only the verdict, notes, status and review time of that ticket, and a second verdict on it is 404 |
| ProfessionalViews.EscalationVerdict | backend/apps/professionals/views.py:94-128 | on the store, the verdict specification |
| ProfessionalViews.MyEscalations | backend/apps/professionals/views.py:34-40 | exactly the requester's own tickets, newest first |
| Signals.DefaultSpecialization | backend/apps/professionals/signals.py:29 | the user's professional type when it is set and non-empty, else "General Practice"; never empty |
| Signals.NewRecordSaved | backend/apps/professionals/signals.py:26-34 | a new profile has no type, so saving it leaves it unverified |
| Signals.AfterSignal | backend/apps/professionals/signals.py:8-34 | nothing changes unless a professional User was created without a profile; then one unverified profile is appended |
| Signals.SignalFacts | backend/apps/professionals/signals.py:8-34 | a created professional user ends with a profile; one profile per user is kept; older profiles are kept; the new one is unverified; a repeat changes nothing |
| Signals.CreateProfessionalProfile | backend/apps/professionals/signals.py:8-34 | on the store, the signal specification |
| Database.ProfileOf | backend/apps/professionals/models.py:16-21 | `user.professional_profile`: none iff no profile has that user, else a profile of that user |
| Database.ProfileOfUnique | backend/apps/professionals/models.py:16-21 | under the one-to-one constraint it is that user's only profile |
| Database.ProfileOfSnoc | backend/apps/professionals/models.py:16-21 | appending a profile makes it the user's profile only if the user had none |
| Database.ProfileOfUpdate | backend/apps/professionals/models.py:16-21 | updating a profile without changing its user keeps every lookup |
| Database.OneProfileKept | backend/apps/professionals/models.py:16-21 | appending for a user without a profile, or updating in place, keeps one profile per user |
| Database.Row | backend/apps/professionals/views.py:85-89 | lookup by id finds the row iff the id is in range |
| SyncProfessionals.ProfessionalUsers | backend/apps/professionals/management/commands/sync_professionals.py:29 | exactly the professional users, newest first (the user model's `-created_at` ordering) |
| SyncProfessionals.FlagSame | backend/apps/professionals/management/commands/sync_professionals.py:35-43 | a user's verification flag depends only on that user's profile |
| SyncProfessionals.FlagSameAt | backend/apps/professionals/management/commands/sync_professionals.py:35-43 | the flag is the verified field of the user's profile |
| SyncProfessionals.Synced | backend/apps/professionals/management/commands/sync_professionals.py:35-57 | after a step the user has a profile, verified when `--verify` is given or it already was |
| SyncProfessionals.StepFlagNew | backend/apps/professionals/management/commands/sync_professionals.py:35-46 | a user without a profile gets one verified exactly when `--verify` is given, and no other user's flag changes |
| SyncProfessionals.StepFlagOld | backend/apps/professionals/management/commands/sync_professionals.py:52-57 | an existing profile ends verified iff it was or `--verify` is given, and no other user's flag changes |
| SyncProfessionals.StepFlag | backend/apps/professionals/management/commands/sync_professionals.py:34-62 | one step gives the synced flag; it counts a creation iff the user lacked a profile, and an update iff it verified an unverified one |
| SyncProfessionals.StepRows | backend/apps/professionals/management/commands/sync_professionals.py:34-62 | a step adds at most one profile, for that user, and changes old rows only by verifying that user's profile under `--verify` |
| SyncProfessionals.StepUnique | backend/apps/professionals/management/commands/sync_professionals.py:35-43 | a step keeps one profile per user |
| SyncProfessionals.RunFlag | backend/apps/professionals/management/commands/sync_professionals.py:34-62 | after the loop over distinct users each user's flag is the expected one |
| SyncProfessionals.RunCounts | backend/apps/professionals/management/commands/sync_professionals.py:31-57 | created counts the users that lacked a profile, updated those whose profile was unverified under `--verify` |
| SyncProfessionals.RunRows | backend/apps/professionals/management/commands/sync_professionals.py:34-62 | the loop only appends profiles of visited users with the `--verify` flag, and only verifies profiles of visited users |
| SyncProfessionals.RunUnique | backend/apps/professionals/management/commands/sync_professionals.py:34-62 | the loop keeps one profile per user |
| SyncProfessionals.VerifiedAll | backend/apps/professionals/management/commands/sync_professionals.py:65-66 | `--verify-all` sets every profile verified and changes nothing else |
| SyncProfessionals.RunSnoc | backend/apps/professionals/management/commands/sync_professionals.py:34 | one more user is one more step |
| SyncProfessionals.SyncOne | backend/apps/professionals/management/commands/sync_professionals.py:35-62 | the loop body is one step |
| SyncProfessionals.SyncUsers | backend/apps/professionals/management/commands/sync_professionals.py:29-62 | the loop over the professional users gives the run |
| SyncProfessionals.Handle | backend/apps/professionals/management/commands/sync_professionals.py:25-81 | the summary reports the run's counts; with `--verify-all` every profile ends verified and the number previously unverified is reported |
| SyncProfessionals.SyncUnique | backend/apps/professionals/management/commands/sync_professionals.py:34-62 | the command keeps one profile per user |
| SyncProfessionals.SyncFlags | backend/apps/professionals/management/commands/sync_professionals.py:34-62 | every professional user ends with a profile, verified under `--verify` and never unverified; other users are untouched |
| SyncProfessionals.FlagMeaning | backend/apps/professionals/management/commands/sync_professionals.py:34-62 | the expected flag means exactly that |
| SyncProfessionals.SyncCounts | backend/apps/professionals/management/commands/sync_professionals.py:31-57 | the counts are those of users lacking a profile and of unverified ones; without `--verify` nothing is updated |
| SyncProfessionals.NewProfilesFlag | backend/apps/professionals/management/commands/sync_professionals.py:35-57 | new profiles belong to professional users and carry the `--verify` flag; old rows change at most in `verified`, and never lose it |
| SyncProfessionals.SecondRunCreatesNothing | backend/apps/professionals/management/commands/sync_professionals.py:35-46 | a second run creates no profile |
| SyncProfessionals.VerifyAllFacts | backend/apps/professionals/management/commands/sync_professionals.py:65-66 | after `--verify-all` no profile is unverified |
| ConsentViews.GrantOf | backend/apps/consent/views.py:24-28 | the grant for (user, professional), none iff there is none |
| ConsentViews.GrantOn | backend/apps/consent/views.py:13-37 | 400 without a professional id, 404 unless it names a verified profile, and then nothing changes; otherwise a new active grant (201) iff the pair had none, else the existing grant is made active (200) |
| ConsentViews.GrantKeepsOnePerPair | backend/apps/consent/views.py:24-32 | granting keeps one grant per (user, professional) pair |
| ConsentViews.GrantTwice | backend/apps/consent/views.py:24-37 | granting again finds the same grant, answers 200 and changes nothing |
| ConsentViews.GrantConsent | backend/apps/consent/views.py:13-37 | on the store, the grant specification |
| ConsentViews.ConsentStatus | backend/apps/consent/views.py:42-46 | exactly the requester's active grants, newest first |
| ConsentViews.GrantShows | backend/apps/consent/views.py:13-46 | a granted consent appears in the requester's status |
| HistoryServices.JournalIds | backend/apps/history/services.py:16-19 | exactly the user's journals of the last seven days, newest first |
| HistoryServices.SessionIds | backend/apps/history/services.py:33-36 | exactly the user's chat sessions of the last seven days, newest first |
| HistoryServices.TicketIds | backend/apps/history/services.py:49-51 | exactly the user's tickets, of any age, newest first |
| HistoryServices.MessageCount | backend/apps/history/services.py:45 | `session.messages.count()`: the number of messages of that session |
| HistoryServices.Summaries | backend/apps/history/services.py:21-30 | one summary per selected journal |
| HistoryServices.Highlights | backend/apps/history/services.py:38-46 | one highlight per selected session |
| HistoryServices.TicketLines | backend/apps/history/services.py:53-60 | one line per selected ticket |
| HistoryServices.EntriesAt | backend/apps/history/services.py:21-60 | the i-th entry of each list describes the i-th selected row |
| HistoryServices.SummariesAt | backend/apps/history/services.py:22-30 | the i-th summary copies the i-th journal's fields |
| HistoryServices.HighlightsAt | backend/apps/history/services.py:39-46 | the i-th highlight describes the i-th session |
| HistoryServices.TicketLinesAt | backend/apps/history/services.py:54-60 | the i-th line describes the i-th ticket |
| HistoryServices.CollectSummaries | backend/apps/history/services.py:21-30 | the journal loop builds those summaries |
| HistoryServices.CollectHighlights | backend/apps/history/services.py:38-46 | the session loop builds those highlights |
| HistoryServices.CollectTicketLines | backend/apps/history/services.py:53-60 | the ticket loop builds those lines |
| HistoryServices.Mean | backend/apps/history/services.py:63-68 | the exact mean of a non-empty list, and 0 for an empty one |
| HistoryServices.SumBounds | backend/apps/history/services.py:64-65 | a sum of bounded scores is bounded by count times the bounds |
| HistoryServices.MeanBounds | backend/apps/history/services.py:64-65 | the mean of bounded scores lies within the bounds |
| HistoryServices.Sentiments | backend/apps/history/services.py:64 | one sentiment per summary |
| HistoryServices.Intensities | backend/apps/history/services.py:65 | one intensity per summary |
| HistoryServices.ScoresAt | backend/apps/history/services.py:64-65 | the score lists read each summary's own scores |
| HistoryServices.RiskTotal | backend/apps/history/services.py:66 | the risk total is at most the number of summaries |
| HistoryServices.RiskTotalFacts | backend/apps/history/services.py:66 | the count fails (AttributeError) iff some summary's risk flags are not a dict; otherwise it counts the summaries with a truthy flag |
| HistoryServices.GenerateHistoryJson | backend/apps/history/services.py:13-87 | the three loops and the trends give the history specification |
| HistoryServices.HistoryFails | backend/apps/history/services.py:13-87 | generation fails iff a recent journal of the user has risk flags that are not a dict |
| HistoryServices.JournalsFail | backend/apps/history/services.py:16-66 | the trend count over the recent journals fails iff one of them has non-dict risk flags |
| HistoryServices.RecentWitness | backend/apps/history/services.py:16-19 | among the selected journals there is a non-dict one iff there is among the user's recent journals |
| HistoryServices.SummariesFail | backend/apps/history/services.py:22-66 | the count over the summaries fails iff some selected journal has non-dict risk flags |
| HistoryServices.HistoryFacts | backend/apps/history/services.py:13-87 | the history names the user; its lists describe the recent journals, recent sessions with their message counts, and all tickets, newest first; totals count them; the risk total is at most the entries; averages are the means |
| HistoryServices.AveragesInRange | backend/apps/history/services.py:63-65 | with scores in range the averages are in range |
| HistoryViews.GenerateOn | backend/apps/history/views.py:16-37 | a failing generation is a 500 that stores nothing; otherwise one snapshot of the history is appended and its id returned |
| HistoryViews.GenerateHistory | backend/apps/history/views.py:16-37 | on the store, the generation specification |
| HistoryViews.GenerateAddsOne | backend/apps/history/views.py:21-29 | a successful generation adds one snapshot, keeps the others, becomes the user's newest, and the user can fetch it |
| HistoryViews.Newest | backend/apps/history/views.py:91 | `.first()` under newest-first ordering: the user's newest snapshot, none iff the user has none |
| HistoryViews.GetPdf | backend/apps/history/views.py:42-54 | a snapshot is served only to its owner (else 404), with its stored JSON |
| HistoryViews.PatientOn | backend/apps/history/views.py:59-103 | 403 without a profile, 403 unverified, 404 for an unknown patient, 403 without active consent; then the newest snapshot is reused, else one is generated and stored; a failing generation is an unhandled error that stores nothing |
| HistoryViews.ServeOn | backend/apps/history/views.py:90-103 | past the checks the answer is a history or the generation error |
| HistoryViews.ProfessionalPatientHistory | backend/apps/history/views.py:59-103 | on the store, the patient-history specification |
| HistoryViews.ServePatient | backend/apps/history/views.py:90-103 | the snapshot step on the store |
| HistoryViews.PatientSnapshotReused | backend/apps/history/views.py:90-97 | a second request returns the same snapshot and stores nothing more |
| AccountsSerializers.Validate | backend/apps/accounts/serializers.py:20-23 | refused on the password field, with "Passwords don't match.", exactly when the passwords differ; otherwise the attributes unchanged |
| AccountsSerializers.NewUser | backend/apps/accounts/serializers.py:25-42 | the stored row has the hashed password, the email as `normalize_email` leaves it or "", the display name or the username, anonymous mode on, and the professional type only for a professional |
| AccountsSerializers.LastAt | backend/apps/accounts/serializers.py:33-36 | the place where `normalize_email`'s `rsplit("@", 1)` cuts: an '@' with none after it, and none exactly when the address has no '@' |
| AccountsSerializers.NormalizeEmail | backend/apps/accounts/serializers.py:33-36 | `create_user` normalises the address: with no '@' once stripped it is kept exactly as given; otherwise the result is stripped, has its last '@' in the same place and the same local part, equals the stripped address up to case, and has no capital in the domain |
| AccountsSerializers.NormalizeEmailIdempotent | backend/apps/accounts/serializers.py:33-36 | normalising a stored address again changes nothing |
| AccountsSerializers.RegisterOn | backend/apps/accounts/serializers.py:20-42 | a mismatch changes nothing; otherwise the user is appended with the next id and the post-save receiver runs for it |
| AccountsSerializers.RegisterFacts | backend/apps/accounts/serializers.py:25-42 | the new user is the last row; a professional gets exactly one unverified profile, anyone else none; one profile per user is kept |
| AccountsSerializers.Register | backend/apps/accounts/serializers.py:20-42 | on the store, the registration specification |

## Left out

- Model and library calls are not modelled. This covers torch, transformers and PEFT loading, tokenisation, `generate`, and the Hugging Face `Trainer`. Probability vectors, token-id lists and generated text are inputs instead.
- Metrics are not modelled: `f1_score`, `classification_report`, ROUGE, BERTScore and perplexity are foreign floating-point code. Only the 0.5 binarisation in `compute_metrics` is modelled.
- The shuffle inside `train_test_split` is an input permutation.
- Floating point is not modelled. Values are exact reals, and the `Format` module rounds ties away from zero, where Python rounds the nearest binary double half-to-even.
- `round(..., 2)` in backend/apps/history/services.py is not applied: the history averages are exact means.
- AiServices.AnalyzeJournal: returns the sentiment and intensity scores unrounded, where the source rounds them to two places (backend/apps/ai/services.py:99-100).
- Regex semantics are not modelled. The URL, mention and placeholder removal in `preprocess_text` is a function parameter; the whitespace collapse, strip and sentinel are concrete. JSON extraction in the OpenRouter client is modelled by its brace search.
- Network access is not modelled. Each HTTP attempt of backend/utils/ai_service.py is an input function of the payload, the attempt number and the key.
- The random sampling in AI_Work/synthesize_training_data.py:295-298 is not modelled.
- File, dataset and console I/O are not modelled: reading and writing CSV, JSON and txt files, and the downloads. The separator file is modelled as the text written and read. The interactive `input()` of the prediction script is a parameter.
- Logging and printing are not modelled.
- PDF rendering is out of scope: backend/apps/history/pdf_generator.py is not part of this model. `get_pdf` returns the JSON the PDF would be rendered from.
- The ORM is modelled as sequences, and concurrency and transactions are not modelled.
- Several `timezone.now()` calls in one request are one `now`. `isoformat` strings are the timestamps themselves.
- The `[:5]` slice at backend/apps/history/services.py:40 is not modelled: its result is never used.
- Field-level validation by Django REST Framework is not modelled. This covers:
  - trimming and blank checks beyond `Records.CharField`;
  - `validate_password`;
  - username uniqueness;
  - email format;
  - choice fields other than the verdict.
- The `UserSerializer` output shape is not modelled.
- `update_session` in backend/apps/chat/views.py is not part of this model.
- How the signal receiver is connected is not part of this model: backend/apps/professionals/apps.py is not modelled, and the receiver is taken to run on every user save.
- Exceptions swallowed and logged by the signal receiver are not modelled.
- The demo-data command, admin, urls and migrations are left out. So are the thin journal, ai and accounts views, which only call the logic modelled here.
- Python float parsing in `parse_emotions` covers only signed decimals with an optional fraction. The exponent, `inf` and `nan` forms are left out.
- JSON records in the summary-model loader are typed. A record that lacks a key, which raises `KeyError` in the source, is not modelled.
- AccountsSerializers.NewUser: the username is stored as given. `create_user` also applies `normalize_username`, whose Unicode NFKC normalisation is not modelled. The domain of the address is lower-cased on ASCII letters only, as `Strings.Lower` is.
- AiService.InsightFrom: the decoder is typed and returns an `Insight` or nothing. At backend/utils/ai_service.py:167-169 the source returns whatever `json.loads` parses, such as an object without the insight's keys, and falls back only on `JSONDecodeError`. Such a result has no counterpart here: the decoder must either reject it, which gives the fallback, or map it to some `Insight`.
- PredictMentalHealth.Respond: models the run with the corrected reply extraction (`PredictMentalHealth.ExtractReply`). The as-written extraction, which keeps the `[/INST]`, is `PredictMentalHealth.ExtractResponseAsWritten`, and the Findings table states its effect.
- PredictMentalHealth.MainEchoRoundTrip: holds for the corrected run. As written, the answer would start with `[/INST]` (`PredictMentalHealth.EchoKeepsInst`).
- InferencePipeline.GenerateSummary: builds the corrected prompt (`InferencePipeline.FormatPrompt`). The as-written prompt with the mojibake dash is `InferencePipeline.PromptAsWritten`.
- InferencePipeline.ResultForEcho: is stated on the corrected prompt only. The as-written prompt differs in the instruction's dash, and no lemma covers it.
- TrainSentimentModel.SentimentSplit: the per-class allocation of scikit-learn's stratified shuffle is not modelled. The sides are the first shuffled positions of an input permutation, and the second split's stratification checks are made on the labels of that modelled held-out side.
- Strings.Lower: `str.lower` and `str.upper` are modelled on ASCII letters only (`Strings.IsUpper`, `Strings.LowerChar`, `Strings.UpperChar`); other cased letters are left as they are. Whitespace, by contrast, follows `str.isspace` in full.
- Frames.CellText: a float cell is shown with one decimal place, not with Python's shortest round-trip `repr`. The two agree on values such as 1.0 or 0.5, but not on values that need more digits.
- SynthesizeTrainingData.Get: score maps are lists of pairs and `Get` returns the first pair with the key. A Python dict built from repeated emotion names would keep one entry per key holding the last value.
- Dialogues.GroupBy: each conversation is sorted stably by `utterance_idx`. pandas' default `sort_values` is not stable, so rows with equal `utterance_idx` may come in another order.
- TrainSentimentModel.FitOnTrain: labels are sorted as the text of their cells. A `LabelEncoder` fit on an integer column sorts the integers numerically, so 10 comes after 9 there but before it here.
- TrainMentalHealthModel.PlanSplits: the errors Hugging Face `train_test_split` raises for a split size outside (0, 1) or a side that would be empty are not modelled, beyond the zero denominator.

## Findings

| source | as written | input that shows it | evidently intended | confidence | as-written member | corrected member |
|---|---|---|---|---|---|---|
| AI_Work/predict_mental_health.py:181-182 | the reply is taken after "Empathetic Response:", but the prompt ends "Empathetic Response: [/INST]", so the reply keeps the "[/INST]" | any decoded output that echoes the prompt, e.g. prompt + "Hello" | the reply after the closing "[/INST]" of the prompt | not executed | PredictMentalHealth.ExtractResponseAsWritten (with PredictMentalHealth.InstLeftInReply, PredictMentalHealth.EchoKeepsInst) | PredictMentalHealth.ExtractReply (with PredictMentalHealth.ExtractReplyRoundTrip) |
| AI_Work/inference_pipeline.py:114 | the instruction's em dash is the mojibake "â€”" (the UTF-8 bytes of U+2014 read as cp1252) | any journal text: the prompt differs from the one the summary model was trained on | the same U+2014 em dash as the training prompt | not executed | InferencePipeline.PromptAsWritten (with InferencePipeline.PromptAsWrittenNotTraining) | InferencePipeline.FormatPrompt |
| AI_Work/train_emotion_classifier.py:140 | `.str.lower()` is called on `.values`, a NumPy array, which has no `.str` | an emotion column of text cells such as "True", "false" | lower-case the cells with `Series.str` and compare them with "true" | not executed | TrainEmotionClassifier.ColumnLabelsAsWritten (with TrainEmotionClassifier.ObjectColumnRaises, TrainEmotionClassifier.PrepareAsWritten) | TrainEmotionClassifier.ColumnLabels (with TrainEmotionClassifier.PrepareEmotionLabels) |
| backend/apps/chat/views.py:31-35 | a new session is created with `is_anonymous=False`, which is not a `ChatSession` field, so the create raises | a user with no open session asks for one | create the session with the declared fields only | not executed | ChatViews.OpenSessionWith (with ChatViews.AsWrittenNeverCreates) | ChatViews.OpenSession (with ChatViews.OpenSessionAgain, ChatViews.CreateSession) |
