# Pronunciation scoring core, modelled in Dafny

This project models the scoring arithmetic of a speech-pronunciation
assessment service, and proves properties of it. Given the transcription of a
recorded utterance and a reference text, the service reports:

- an accuracy score (also reported as PronScore), from the phoneme similarity;
- fluency and completeness, from the word and character error rates;
- a prosody score, from the average pitch;
- a grammar score, from a spelling-correction diff;
- lexical diversity, from the type/token ratio.

It also models the upload check that decides which audio file names are
accepted.

Modules, one per component:

- `Text`: Python's `str.lower` and the `\s` class of Python's `re` module.
- `Normalizer`: `preprocess_text`.
- `EditDistance`: the Levenshtein distance that NLTK's `edit_distance`
  computes. It is given twice: as a recursive definition, and as the bottom-up
  table method `Compute`, which is proved equal to it.
- `PhonemeScore`: `text_to_phonemes`'s removal of space entries, and
  `calculate_per`.
- `Grammar`: `get_grammar_errors_and_grammar_scores`.
- `Lexical`: `lexical_diversity`.
- `Assessment`: the stage order, the report, and the exception-to-`{msg}`
  path of `pronunciation_assessment_configured_with_whisper`.
- `Upload`: `allowed_file` and `ALLOWED_EXTENSIONS`.
- `Ratio`: facts about exact real division that the percentage bounds use.

Scores are exact `real`s. The libraries the pipeline calls are inputs:

- Whisper and librosa give the transcription.
- `analyze_intonation` gives the average pitch.
- G2p gives the phonemes.
- jiwer gives WER and CER.
- TextBlob gives the correction and word lists.
- NLTK's `word_tokenize` gives the tokens.
- The Unicode database gives the `\w` class.

Each library call is an `Outcome`: either a value or a raised exception's
message. Deterministic libraries are functions of the text they are given.

For two empty phoneme lists, `calculate_per` returns 0.0
(pronunciation_assessment.py:66-67), not the similarity 100 that
`(1 - 0) * 100` would give. `PhonemeScore.Similarity` keeps the 0.0.

## Model

`Text.Lower`, `EditDistance.Distance`, `Lexical.Types`, `Upload.AllowedFile`
and `Text.IsSpace` are definitions without a contract of their own; the rows of
the lemmas that name them state what they satisfy.

| member | source | states |
|---|---|---|
| `Text.LowerChar` | pronunciation_assessment.py:53 | the lower-cased character is never an upper-case letter; a character is left unchanged exactly when it is not upper-case; an upper-case letter becomes a lower-case letter |
| `Text.LowerIdempotent` | pronunciation_assessment.py:53 | `Lower`, that is `str.lower`, changes nothing in an already lower-cased text |
| `Text.LowerAppend` | pronunciation_assessment.py:53 | lower-casing distributes over concatenation |
| `Normalizer.StripNonWord` | pronunciation_assessment.py:54 | deleting `[^\w\s]` never lengthens the text, and every character left is a word or whitespace character |
| `Normalizer.StripMembers` | pronunciation_assessment.py:54 | a character survives the deletion exactly when it occurs in the input and is a word or whitespace character |
| `Normalizer.StripUnchanged` | pronunciation_assessment.py:54 | the deletion leaves a text unchanged exactly when the text has nothing to delete |
| `Normalizer.Preprocess` | pronunciation_assessment.py:52-55 | the normalised text is no longer than the input and contains only word or whitespace characters, none of them upper-case |
| `Normalizer.PreprocessMembers` | pronunciation_assessment.py:52-55 | a character occurs in the normalised text exactly when it is the lower-case form of an input character and is a word or whitespace character |
| `Normalizer.PreprocessIdempotent` | pronunciation_assessment.py:52-55 | normalising twice equals normalising once |
| `Normalizer.StripAppend` | pronunciation_assessment.py:54 | deletion distributes over concatenation |
| `Normalizer.PreprocessAppend` | pronunciation_assessment.py:52-55 | normalisation distributes over concatenation |
| `Normalizer.PreprocessExample` | pronunciation_assessment.py:52-55 | `Ok, Go!` normalises to `ok go` |
| `Normalizer.PreprocessEmpty` | pronunciation_assessment.py:52-55 | the normalised text is empty exactly when no input character, lower-cased, is a word or whitespace character, so any text of punctuation only normalises to the empty string |
| `Normalizer.WhitespaceKept` | pronunciation_assessment.py:54 | every character of the `\s` class (`Text.IsSpace`) in the input occurs in the normalised text |
| `Normalizer.PunctuationOnlyExample` | pronunciation_assessment.py:52-55 | `?!` normalises to the empty string |
| `PhonemeScore.DropSpaces` | pronunciation_assessment.py:60 | the phoneme list has no `' '` entry and is no longer than G2p's output |
| `PhonemeScore.DropSpacesMembers` | pronunciation_assessment.py:60 | an entry is kept exactly when it is in G2p's output and is not `' '` |
| `PhonemeScore.DropSpacesAppend` | pronunciation_assessment.py:60 | dropping spaces distributes over concatenation, so the other entries keep their order and multiplicity |
| `PhonemeScore.DropSpacesUnchanged` | pronunciation_assessment.py:60 | a list without `' '` entries is left unchanged |
| `EditDistance.DistanceAtMostMax` | pronunciation_assessment.py:64-65 | `Distance`, the edit distance, is at most the longer length |
| `EditDistance.DistanceAtLeastLengthGap` | pronunciation_assessment.py:64 | the edit distance is at least the difference of the lengths |
| `EditDistance.DistanceZeroIffEqual` | pronunciation_assessment.py:64 | the edit distance is 0 exactly when the two sequences are equal |
| `EditDistance.DistanceSymmetric` | pronunciation_assessment.py:64 | the edit distance does not depend on argument order |
| `EditDistance.Compute` | pronunciation_assessment.py:64 | the bottom-up table algorithm returns the edit distance |
| `PhonemeScore.Similarity` | pronunciation_assessment.py:63-71 | the score is 0.0 when both lists are empty; it always lies in [0, 100]; it is at most 100 times the shorter length over the longer; it is exactly 100 only for two equal non-empty lists |
| `PhonemeScore.SimilaritySymmetric` | pronunciation_assessment.py:63-71 | the phoneme similarity is symmetric in its two arguments |
| `PhonemeScore.CalculatePer` | pronunciation_assessment.py:63-71 | computing with the table algorithm yields the phoneme similarity |
| `Grammar.Mismatches` | pronunciation_assessment.py:33 | the number of errors is at most the length of the shorter word list; it is 0 exactly when every zipped pair matches ignoring case |
| `Grammar.MismatchesAppend` | pronunciation_assessment.py:33 | extending both word lists by one pair adds 1 to the count exactly when that pair differs ignoring case, so the count is the number of mismatching zipped pairs |
| `Grammar.MismatchesOnlyOnCommonPrefix` | pronunciation_assessment.py:33 | words past the end of the shorter list never affect the count |
| `Grammar.Assess` | pronunciation_assessment.py:26-38 | errors are at most the shorter length; with no words the errors are 0 and the score is 0.0; otherwise the score lies in [0, 100] and is 100 exactly when there are no errors |
| `Grammar.UnchangedTextScoresFull` | pronunciation_assessment.py:29-37 | a correction equal to the original ignoring case gives 0 errors, and score 100 for a non-empty text |
| `Grammar.PositionalPairingExamples` | pronunciation_assessment.py:33 | dropping the first of three words counts 2 errors; dropping the last word counts none and scores 100 |
| `Lexical.TypeCount` | pronunciation_assessment.py:46 | the distinct tokens (`Types`, Python's `set`) are at most the tokens, at least one for a non-empty list, and as many exactly when no token repeats |
| `Lexical.Diversity` | pronunciation_assessment.py:41-47 | the score is 0.0 for no tokens; otherwise it lies in (0, 100]; it is 100 exactly when the list is non-empty and has no repeated token |
| `Lexical.RepeatedWordExample` | pronunciation_assessment.py:43-46 | the token list `a a a` has diversity 100/3 |
| `Assessment.ClampAtZero` | pronunciation_assessment.py:127 | `max(0.0, x)` is at least 0 and at least x, and is one of the two |
| `Assessment.PronunciationScores` | pronunciation_assessment.py:126-130 | fluency and completeness are never negative; each is 100 minus its rate up to rate 100 and 0 beyond; each is at most 100 for a non-negative rate; accuracy equals PronScore equals the similarity; prosody times 300 is the intonation, unclamped |
| `Assessment.GrammarStage` | pronunciation_assessment.py:26-38 | the grammar stage succeeds exactly when TextBlob's correction and both word lists succeed; a failed correction is reported first, then a failed word list of the text, then a failed word list of the corrected text, each with its own message; a success is the grammar assessment of the two word lists, with a score in [0, 100] |
| `Assessment.LexicalStage` | pronunciation_assessment.py:41-47 | the lexical stage fails exactly when the tokenizer raises, with its message; a success is the diversity of the tokens, in [0, 100] |
| `Assessment.Pipeline` | pronunciation_assessment.py:102-157 | the `try` block completes exactly when none of its stages raises, and a completed run is always a full report |
| `Assessment.Assess` | pronunciation_assessment.py:49-161 | the answer is a report exactly when every stage succeeds; otherwise it is `Err` with the message of the first stage that raised, in the order transcription, G2p of the transcription, G2p of the reference, WER, CER, pitch, grammar, lexical diversity; a report means the transcription and pitch analysis succeeded, with accuracy, grammar score and diversity in [0, 100], fluency and completeness at least 0, accuracy equal to PronScore, intonation equal to the measured pitch and prosody equal to it over 300; accuracy is the similarity of the phonemes of the normalised transcription and reference, and the grammar and diversity results are those of the normalised transcription; the whole score block is `PronunciationScores` of the accuracy, 100 times WER, 100 times CER and the pitch |
| `Assessment.IdenticalUtteranceScoresFull` | pronunciation_assessment.py:97-154 | a transcription that normalises to the reference, with non-empty phonemes and zero error rates, scores accuracy, fluency and completeness 100 |
| `Upload.LastDot` | utils/helpers.py:12 | the result is -1 exactly when there is no `.`; otherwise it is the position of a `.` with none after it |
| `Upload.Extension` | utils/helpers.py:12 | the text after the last `.` has no `.`, is shorter than the name, and is exactly the end of the name after a `.` |
| `Upload.AllowedFileSuffix` | utils/helpers.py:11-12 | `stem.ext`, with no `.` in ext, is accepted exactly when ext lower-cased is allowed, whatever the stem |
| `Upload.DecidedAtDot` | utils/helpers.py:11-12 | when a `.` has no `.` after it, the name is accepted exactly when the text after that `.`, lower-cased, is allowed |
| `Upload.AllowedFileIff` | utils/helpers.py:11-12 | `AllowedFile` holds, that is a name is accepted, exactly when it has a `.` whose dot-free suffix, lower-cased, is one of wav, mp3, flac, m4a |
| `Upload.NoDotRejected` | utils/helpers.py:11 | a name without `.` is rejected |
| `Upload.LowerExtension` | utils/helpers.py:12 | lower-casing a name lower-cases its extension and keeps the last `.` in place |
| `Upload.AllowedFileIgnoresCase` | utils/helpers.py:12 | a name and its lower-case form are accepted alike |
| `Upload.BareExtensionRejected` | utils/helpers.py:11 | `wav` is rejected |
| `Upload.LastExtensionAccepted` | utils/helpers.py:12 | `a.tar.wav` is accepted |
| `Upload.LastExtensionRejected` | utils/helpers.py:12 | `a.wav.txt` is rejected |
| `Upload.UpperCaseExample` | utils/helpers.py:12 | `X.WAV` is accepted |
| `Upload.MixedCaseExample` | utils/helpers.py:12 | `x.Mp3` is accepted |
| `Upload.EmptyPartExamples` | utils/helpers.py:12 | `file.` is rejected and `.wav` is accepted |

## Left out

- Audio loading, duration, Whisper inference and `analyze_intonation`'s
  signal processing are left out. They are decoding, machine learning and
  floating-point work. The model takes their results as inputs: the
  transcription, and the average pitch in Hz.
- G2p, jiwer's `wer` and `cer`, TextBlob's `correct` and `words`, and NLTK's
  `word_tokenize` and `edit_distance` are foreign libraries. The first six
  are input functions. `edit_distance` is replaced by the textbook Levenshtein
  recurrence with unit costs and no transpositions, which is NLTK's default.
- The Unicode `\w` class is the parameter `isWordChar`. `Latin1WordChar` is an
  instance that is exact only for U+0000 to U+00FF.
- `str.lower` is modelled exactly only for U+0000 to U+00FF; code points above
  are left unchanged. For `allowed_file` this is not a restriction, since no
  character outside ASCII lower-cases to a letter or digit of
  wav, mp3, flac or m4a.
- Floating point is not modelled: every ratio is an exact real.
- Logging, the Flask routes, JWT roles, API-key storage and `setup_logging`
  are left out, because they are I/O and web glue.
- The language tag is left out, because the pipeline does not use it.
- Whisper is shared across requests. That is a concurrency concern, and it is
  left out.
