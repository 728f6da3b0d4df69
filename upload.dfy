/** The upload check `allowed_file`: a file name is accepted when it has a
    `'.'` and the text after its LAST `'.'`, lower-cased, is one of the
    configured audio extensions. */
module Upload {
  import opened Text

  /** `Config.ALLOWED_EXTENSIONS`. */
  const AllowedExtensions: set<string> := {"wav", "mp3", "flac", "m4a"}

  /** Position of the last `'.'` of the name, or -1 when there is none. */
  function LastDot(name: string): (k: int)
    ensures -1 <= k < |name|
    ensures k == -1 <==> '.' !in name
    ensures k >= 0 ==> name[k] == '.' && forall j :: k < j < |name| ==> name[j] != '.'
  {
    if |name| == 0 then -1
    else if name[|name| - 1] == '.' then |name| - 1
    else LastDot(name[..|name| - 1])
  }

  /** `filename.rsplit('.', 1)[1]`: everything after the last `'.'`. */
  function Extension(name: string): (ext: string)
    requires '.' in name
    ensures '.' !in ext
    ensures |ext| < |name|
    ensures name[|name| - |ext| - 1] == '.' && name[|name| - |ext|..] == ext
  {
    name[LastDot(name) + 1..]
  }

  /** `allowed_file`; `and` short-circuits, so the extension is only taken
      from a name that has a `'.'`. */
  predicate AllowedFile(name: string) {
    '.' in name && Lower(Extension(name)) in AllowedExtensions
  }

  /** Only the text after the last `'.'` decides: whatever the stem, even an
      empty one or one holding other dots, the name is accepted exactly when
      that extension, lower-cased, is allowed. */
  lemma AllowedFileSuffix(stem: string, ext: string)
    requires '.' !in ext
    ensures AllowedFile(stem + "." + ext) <==> Lower(ext) in AllowedExtensions
  {
    var name := stem + "." + ext;
    assert name[|stem|] == '.';
    assert forall j :: |stem| < j < |name| ==> name[j] == ext[j - |stem| - 1];
    assert LastDot(name) == |stem|;
    assert Extension(name) == ext;
  }

  /** `allowed_file` holds exactly for the names that split into a stem, a
      `'.'` and a dot-free extension whose lower-case form is allowed. */
  lemma AllowedFileIff(name: string)
    ensures AllowedFile(name) <==>
      exists k :: 0 <= k < |name| && name[k] == '.' && '.' !in name[k + 1..]
                 && Lower(name[k + 1..]) in AllowedExtensions
  {
    if exists k :: 0 <= k < |name| && name[k] == '.' && '.' !in name[k + 1..]
                 && Lower(name[k + 1..]) in AllowedExtensions {
      var k :| 0 <= k < |name| && name[k] == '.' && '.' !in name[k + 1..]
               && Lower(name[k + 1..]) in AllowedExtensions;
      AllowedAtDot(name, k);
    }
    if AllowedFile(name) {
      AcceptedHasDot(name);
    }
  }

  /** A split at a `'.'` with a dot-free, allowed extension is accepted. */
  lemma AllowedAtDot(name: string, k: nat)
    requires k < |name| && name[k] == '.' && '.' !in name[k + 1..]
    requires Lower(name[k + 1..]) in AllowedExtensions
    ensures AllowedFile(name)
  {
    assert name == name[..k] + "." + name[k + 1..];
    AllowedFileSuffix(name[..k], name[k + 1..]);
  }

  /** An accepted name splits at its last `'.'` into such a stem and
      extension. */
  lemma AcceptedHasDot(name: string)
    requires AllowedFile(name)
    ensures var k := LastDot(name);
      && 0 <= k < |name| && name[k] == '.' && '.' !in name[k + 1..]
      && Lower(name[k + 1..]) in AllowedExtensions
  {
    var ext := Extension(name);
    assert ext == name[LastDot(name) + 1..];
  }

  /** A name with no `'.'` is rejected, the bare word `wav` included. */
  lemma NoDotRejected(name: string)
    requires '.' !in name
    ensures !AllowedFile(name)
  {
  }

  /** Lower-casing never creates or removes a `'.'`, so it keeps the last
      dot where it is and lower-cases the extension. */
  lemma LowerExtension(name: string)
    requires '.' in name
    ensures '.' in Lower(name)
    ensures Extension(Lower(name)) == Lower(Extension(name))
  {
    var low := Lower(name);
    assert forall j :: 0 <= j < |name| ==> (low[j] == '.' <==> name[j] == '.');
    var k := LastDot(name);
    assert low[k] == '.';
    assert LastDot(low) == k;
    assert low[k + 1..] == Lower(name[k + 1..]);
  }

  /** The comparison ignores case: a name and its lower-case form are
      accepted alike. */
  lemma AllowedFileIgnoresCase(name: string)
    ensures AllowedFile(Lower(name)) <==> AllowedFile(name)
  {
    var low := Lower(name);
    assert forall j :: 0 <= j < |name| ==> (low[j] == '.' <==> name[j] == '.');
    if '.' in name {
      LowerExtension(name);
      LowerIdempotent(Extension(name));
    } else {
      assert '.' !in low;
    }
  }

  /** The bare word `wav`, with no `'.'`, is rejected. */
  lemma BareExtensionRejected()
    ensures !AllowedFile("wav")
  {
    NoDotRejected("wav");
  }

  /** A `'.'` with no `'.'` after it decides acceptance by what follows
      it. */
  lemma DecidedAtDot(name: string, k: nat)
    requires k < |name| && name[k] == '.' && '.' !in name[k + 1..]
    ensures AllowedFile(name) <==> Lower(name[k + 1..]) in AllowedExtensions
  {
    assert forall j :: k < j < |name| ==> name[j] == name[k + 1..][j - k - 1];
    assert LastDot(name) == k;
  }

  /** Only the last extension counts: `a.tar.wav` is accepted ... */
  lemma LastExtensionAccepted()
    ensures AllowedFile("a.tar.wav")
  {
    var name := "a.tar.wav";
    assert name[6..] == "wav";
    DecidedAtDot(name, 5);
    LowerFixed("wav");
  }

  /** ... and `a.wav.txt` rejected. */
  lemma LastExtensionRejected()
    ensures !AllowedFile("a.wav.txt")
  {
    var name := "a.wav.txt";
    assert name[6..] == "txt";
    DecidedAtDot(name, 5);
    LowerFixed("txt");
  }

  /** Upper- and mixed-case extensions are accepted: `X.WAV` ... */
  lemma UpperCaseExample()
    ensures AllowedFile("X.WAV")
  {
    var name := "X.WAV";
    assert name[2..] == "WAV";
    DecidedAtDot(name, 1);
    assert Lower("WAV")[0] == 'w' && Lower("WAV")[1] == 'a' && Lower("WAV")[2] == 'v';
    assert Lower("WAV") == "wav";
  }

  /** ... and `x.Mp3`. */
  lemma MixedCaseExample()
    ensures AllowedFile("x.Mp3")
  {
    var name := "x.Mp3";
    assert name[2..] == "Mp3";
    DecidedAtDot(name, 1);
    assert Lower("Mp3")[0] == 'm' && Lower("Mp3")[1] == 'p' && Lower("Mp3")[2] == '3';
    assert Lower("Mp3") == "mp3";
  }

  /** An empty extension is rejected; an empty stem is not a problem. */
  lemma EmptyPartExamples()
    ensures !AllowedFile("file.")
    ensures AllowedFile(".wav")
  {
    var noExtension := "file.";
    assert noExtension[5..] == "";
    DecidedAtDot(noExtension, 4);
    assert Lower("") == "";
    var noStem := ".wav";
    assert noStem[1..] == "wav";
    DecidedAtDot(noStem, 0);
    LowerFixed("wav");
  }
}
