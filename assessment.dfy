/** The entry point `pronunciation_assessment_configured_with_whisper`: the
    stages run in a fixed order, the sub-scores are packed into the report,
    and an exception raised anywhere turns the whole answer into a single
    `{msg}` record.

    The libraries the pipeline calls are not part of this model; each one is
    a value or a function of the `Libraries` record below, whose result either
    holds what the library returns or the message of the exception it
    raises. */
module Assessment {
  import opened Normalizer
  import opened PhonemeScore
  import Grammar
  import Lexical

  /** What a library call does: return a value or raise an exception whose
      text is `msg`. */
  datatype Outcome<T> = Ok(value: T) | Raised(msg: string) {
    predicate IsFailure() {
      Raised?
    }

    function PropagateFailure<U>(): Outcome<U>
      requires Raised?
    {
      Raised(msg)
    }

    function Extract(): T
      requires Ok?
    {
      value
    }
  }

  /** The pipeline's collaborators. `transcription` is the audio file loaded
      by librosa at 16 kHz and decoded by Whisper; `averagePitch` is
      `analyze_intonation` on the same file; `g2p`, `wer`, `cer`, `correct`,
      `blobWords` and `wordTokenize` are G2p, jiwer's two rates (reference
      first), TextBlob's correction, TextBlob's word list and NLTK's
      tokenizer; `isWordChar` is the `\w` class of the Unicode database. */
  datatype Libraries = Libraries(
    transcription: Outcome<string>,
    g2p: string -> Outcome<seq<Phoneme>>,
    wer: (string, string) -> Outcome<real>,
    cer: (string, string) -> Outcome<real>,
    averagePitch: Outcome<real>,
    correct: string -> Outcome<string>,
    blobWords: string -> Outcome<seq<Grammar.Word>>,
    wordTokenize: string -> Outcome<seq<Lexical.Token>>,
    isWordChar: char -> bool)

  /** The `PronunciationAssessment` group of the report. */
  datatype PronunciationAssessment = PronunciationAssessment(
    accuracyScore: real,
    fluencyScore: real,
    prosodyScore: real,
    completenessScore: real,
    pronScore: real,
    intonation: real)

  /** The answer: the three groups of the report, or the `{msg}` record. */
  datatype Response =
    | Report(pronunciation: PronunciationAssessment,
             grammar: Grammar.GrammarAssessment,
             lexicalDiversity: real)
    | Err(msg: string)

  /** Python's `max(0.0, x)`. */
  function ClampAtZero(x: real): (r: real)
    ensures r >= 0.0 && r >= x
    ensures r == x || r == 0.0
  {
    if x > 0.0 then x else 0.0
  }

  /** The score block: fluency and completeness are 100 minus the word and
      character error rates, never below 0; accuracy and PronScore are both
      the phoneme similarity; prosody is the average pitch over 300 Hz, with
      no clamp. */
  function PronunciationScores(similarity: real, werScore: real, cerScore: real, averagePitch: real)
    : (p: PronunciationAssessment)
    ensures p.fluencyScore >= 0.0 && p.completenessScore >= 0.0
    ensures werScore <= 100.0 ==> p.fluencyScore == 100.0 - werScore
    ensures werScore >= 100.0 ==> p.fluencyScore == 0.0
    ensures cerScore <= 100.0 ==> p.completenessScore == 100.0 - cerScore
    ensures cerScore >= 100.0 ==> p.completenessScore == 0.0
    ensures werScore >= 0.0 ==> p.fluencyScore <= 100.0
    ensures cerScore >= 0.0 ==> p.completenessScore <= 100.0
    ensures p.accuracyScore == p.pronScore == similarity
    ensures p.prosodyScore * 300.0 == averagePitch == p.intonation
  {
    var accuracy := similarity;
    var fluency := ClampAtZero(100.0 - werScore);
    var prosodyScore := averagePitch / 300.0;
    var completeness := ClampAtZero(100.0 - cerScore);
    var avgProScore := similarity;
    PronunciationAssessment(accuracy, fluency, prosodyScore, completeness, avgProScore, averagePitch)
  }

  /** `get_grammar_errors_and_grammar_scores` with TextBlob's calls in the
      order the source makes them: the correction, then the word list of the
      text, then that of the corrected text. It succeeds exactly when all
      three succeed, a failed correction is reported first, and a success
      carries a score in [0, 100]. */
  function GrammarStage(text: string, libs: Libraries): (g: Outcome<Grammar.GrammarAssessment>)
    ensures g.Ok? <==>
      libs.correct(text).Ok? && libs.blobWords(text).Ok? && libs.blobWords(libs.correct(text).value).Ok?
    ensures libs.correct(text).Raised? ==> g == Raised(libs.correct(text).msg)
    ensures libs.correct(text).Ok? && libs.blobWords(text).Raised? ==> g == Raised(libs.blobWords(text).msg)
    ensures libs.correct(text).Ok? && libs.blobWords(text).Ok? && libs.blobWords(libs.correct(text).value).Raised?
      ==> g == Raised(libs.blobWords(libs.correct(text).value).msg)
    ensures g.Ok? ==>
      && g.value == Grammar.Assess(libs.blobWords(text).value, libs.blobWords(libs.correct(text).value).value)
      && 0.0 <= g.value.score <= 100.0
  {
    var corrected :- libs.correct(text);
    var originalWords :- libs.blobWords(text);
    var correctedWords :- libs.blobWords(corrected);
    Ok(Grammar.Assess(originalWords, correctedWords))
  }

  /** `lexical_diversity` with NLTK's tokenizer: it fails exactly when the
      tokenizer raises, with the tokenizer's message, and otherwise gives the
      diversity of the tokens, in [0, 100]. */
  function LexicalStage(text: string, libs: Libraries): (d: Outcome<real>)
    ensures d.Ok? <==> libs.wordTokenize(text).Ok?
    ensures d.Raised? ==> d.msg == libs.wordTokenize(text).msg
    ensures d.Ok? ==> d.value == Lexical.Diversity(libs.wordTokenize(text).value) && 0.0 <= d.value <= 100.0
  {
    var words :- libs.wordTokenize(text);
    Ok(Lexical.Diversity(words))
  }

  /** The body of the `try` block: every stage in source order; the first
      exception ends the run. The run completes exactly when no stage
      raises, and a completed run is always a full report: only a raised
      exception produces the `{msg}` record. */
  function Pipeline(referenceText: string, libs: Libraries): (o: Outcome<Response>)
    ensures o.Ok? <==>
      && libs.transcription.Ok?
      && var hypothesis := Preprocess(libs.transcription.value, libs.isWordChar);
         var reference := Preprocess(referenceText, libs.isWordChar);
         && libs.g2p(hypothesis).Ok? && libs.g2p(reference).Ok?
         && libs.wer(reference, hypothesis).Ok? && libs.cer(reference, hypothesis).Ok?
         && libs.averagePitch.Ok?
         && GrammarStage(hypothesis, libs).Ok? && LexicalStage(hypothesis, libs).Ok?
    ensures o.Ok? ==> o.value.Report?
  {
    var transcription :- libs.transcription;
    var hypothesis := Preprocess(transcription, libs.isWordChar);
    var reference := Preprocess(referenceText, libs.isWordChar);
    var rawHypothesisPhonemes :- libs.g2p(hypothesis);
    var rawReferencePhonemes :- libs.g2p(reference);
    var similarity := Similarity(DropSpaces(rawHypothesisPhonemes), DropSpaces(rawReferencePhonemes));
    var wordErrorRate :- libs.wer(reference, hypothesis);
    var charErrorRate :- libs.cer(reference, hypothesis);
    var averagePitch :- libs.averagePitch;
    var scores := PronunciationScores(similarity, wordErrorRate * 100.0, charErrorRate * 100.0, averagePitch);
    var grammar :- GrammarStage(hypothesis, libs);
    var diversity :- LexicalStage(hypothesis, libs);
    Ok(Report(scores, grammar, diversity))
  }

  /** `pronunciation_assessment_configured_with_whisper`: all or nothing. A
      report carries percentages in range (accuracy, grammar score and
      lexical diversity in [0, 100], fluency and completeness at least 0),
      the same value as AccuracyScore and PronScore, and the pitch both raw
      and over 300; accuracy compares the phonemes of the normalised
      transcription with those of the normalised reference, while grammar and
      lexical diversity are computed on the normalised transcription only.
      The answer is a report exactly when every stage succeeds; otherwise it
      is `Err` with the message of the first stage, in source order, that
      raised. Fluency and completeness come from the two error rates of the
      reference against the normalised transcription, scaled to percent. */
  function Assess(referenceText: string, libs: Libraries): (r: Response)
    ensures r.Report? <==>
      && libs.transcription.Ok?
      && var hypothesis := Preprocess(libs.transcription.value, libs.isWordChar);
         var reference := Preprocess(referenceText, libs.isWordChar);
         && libs.g2p(hypothesis).Ok? && libs.g2p(reference).Ok?
         && libs.wer(reference, hypothesis).Ok? && libs.cer(reference, hypothesis).Ok?
         && libs.averagePitch.Ok?
         && GrammarStage(hypothesis, libs).Ok? && LexicalStage(hypothesis, libs).Ok?
    ensures libs.transcription.Raised? ==> r == Err(libs.transcription.msg)
    ensures libs.transcription.Ok? ==>
      var hypothesis := Preprocess(libs.transcription.value, libs.isWordChar);
      var reference := Preprocess(referenceText, libs.isWordChar);
      var g2pH := libs.g2p(hypothesis);
      var g2pR := libs.g2p(reference);
      var wer := libs.wer(reference, hypothesis);
      var cer := libs.cer(reference, hypothesis);
      var pitch := libs.averagePitch;
      var grammar := GrammarStage(hypothesis, libs);
      var lexical := LexicalStage(hypothesis, libs);
      && (g2pH.Raised? ==> r == Err(g2pH.msg))
      && (g2pH.Ok? && g2pR.Raised? ==> r == Err(g2pR.msg))
      && (g2pH.Ok? && g2pR.Ok? && wer.Raised? ==> r == Err(wer.msg))
      && (g2pH.Ok? && g2pR.Ok? && wer.Ok? && cer.Raised? ==> r == Err(cer.msg))
      && (g2pH.Ok? && g2pR.Ok? && wer.Ok? && cer.Ok? && pitch.Raised? ==> r == Err(pitch.msg))
      && (g2pH.Ok? && g2pR.Ok? && wer.Ok? && cer.Ok? && pitch.Ok? && grammar.Raised? ==> r == Err(grammar.msg))
      && (g2pH.Ok? && g2pR.Ok? && wer.Ok? && cer.Ok? && pitch.Ok? && grammar.Ok? && lexical.Raised?
          ==> r == Err(lexical.msg))
    ensures libs.averagePitch.Raised? ==> r.Err?
    ensures r.Report? ==> libs.transcription.Ok? && libs.averagePitch.Ok?
    ensures r.Report? ==>
      && 0.0 <= r.pronunciation.accuracyScore <= 100.0
      && r.pronunciation.accuracyScore == r.pronunciation.pronScore
      && r.pronunciation.fluencyScore >= 0.0
      && r.pronunciation.completenessScore >= 0.0
      && r.pronunciation.intonation == libs.averagePitch.value
      && r.pronunciation.prosodyScore * 300.0 == r.pronunciation.intonation
      && 0.0 <= r.grammar.score <= 100.0
      && 0.0 <= r.lexicalDiversity <= 100.0
    ensures r.Report? ==>
      var hypothesis := Preprocess(libs.transcription.value, libs.isWordChar);
      var reference := Preprocess(referenceText, libs.isWordChar);
      && libs.g2p(hypothesis).Ok? && libs.g2p(reference).Ok?
      && r.pronunciation.accuracyScore
         == Similarity(DropSpaces(libs.g2p(hypothesis).value), DropSpaces(libs.g2p(reference).value))
      && GrammarStage(hypothesis, libs) == Ok(r.grammar)
      && LexicalStage(hypothesis, libs) == Ok(r.lexicalDiversity)
      && r.pronunciation == PronunciationScores(
           r.pronunciation.accuracyScore,
           libs.wer(reference, hypothesis).value * 100.0,
           libs.cer(reference, hypothesis).value * 100.0,
           libs.averagePitch.value)
  {
    match Pipeline(referenceText, libs)
    case Ok(report) => report
    case Raised(msg) => Err(msg)
  }

  /** An utterance whose transcription normalises to the reference text
      scores full marks on accuracy, fluency and completeness, provided its
      phoneme list is not empty, the error rates of a text against itself are
      0 and the remaining stages succeed. */
  lemma IdenticalUtteranceScoresFull(referenceText: string, libs: Libraries)
    requires libs.transcription.Ok?
    requires Preprocess(libs.transcription.value, libs.isWordChar) == Preprocess(referenceText, libs.isWordChar)
    requires var text := Preprocess(referenceText, libs.isWordChar);
      && libs.g2p(text).Ok? && DropSpaces(libs.g2p(text).value) != []
      && libs.wer(text, text) == Ok(0.0) && libs.cer(text, text) == Ok(0.0)
      && libs.averagePitch.Ok?
      && GrammarStage(text, libs).Ok? && LexicalStage(text, libs).Ok?
    ensures Assess(referenceText, libs).Report?
    ensures Assess(referenceText, libs).pronunciation.accuracyScore == 100.0
    ensures Assess(referenceText, libs).pronunciation.fluencyScore == 100.0
    ensures Assess(referenceText, libs).pronunciation.completenessScore == 100.0
  {
    var text := Preprocess(referenceText, libs.isWordChar);
    var phonemes := DropSpaces(libs.g2p(text).value);
    assert Similarity(phonemes, phonemes) == 100.0;
  }
}
