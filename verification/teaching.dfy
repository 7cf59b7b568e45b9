/** `teach` on the cache-miss path: pair the corpus, then align every chosen
    track's frames with its chord labels into the training arrays `x`, `y`. */
module Teaching {
  import opened Common
  import opened Annotations
  import opened Framing
  import opened Corpus
  import opened Alignment

  /** `how_many: str | int`. */
  datatype HowMany = Count(n: int) | Text(s: string)

  /** The characters `how_many.strip(...)` removes. */
  const StripChars: set<char> := {' ', '-', '\t', '\n'}

  /** The `assert` at the top of `teach`: an int, or a string that is not
      empty once stripped. */
  predicate HowManyAccepted(howMany: HowMany) {
    howMany.Count? || Strip(howMany.s, StripChars) != []
  }

  /** A string is accepted exactly when it has a character other than
      space, `-`, tab and newline. */
  lemma HowManyAcceptedText(s: string)
    ensures HowManyAccepted(Text(s)) <==> exists i :: 0 <= i < |s| && s[i] !in StripChars
  {
  }

  /** A loaded waveform and its sample rate (`librosa.load`). */
  datatype Audio = Audio(samples: seq<real>, sampleRate: int)

  /** The library calls of `teach`, as functions of their arguments. */
  datatype Library = Library(
    /** `librosa.load(path)`. */
    load: string -> Audio,
    /** `librosa.beat.tempo(y=..., sr=...)[0]`, in beats per minute. */
    tempo: Audio -> real,
    /** `jams.load(path).search(namespace="chord")[1]["data"]`. */
    chords: string -> seq<Record>,
    /** `np.abs(librosa.core.stft(y, n_fft=..., hop_length=...))`, on the
        triple `(y, n_fft, hop_length)`. */
    stft: ((seq<real>, int, int)) -> Spectrogram,
    /** `librosa.core.frames_to_time` on one value, with `sr`, `n_fft` and
        `hop_length`, on the tuple `(value, sr, n_fft, hop_length)`. */
    framesToTime: ((real, int, int, int)) -> real)

  /** The two dataset directories and what `os.listdir` returns for them. */
  datatype Directories = Directories(
    musicsPath: string, annotationsPath: string,
    musicListing: seq<string>, annotationListing: seq<string>)

  /** `AsWritten` is the source's behaviour; `Corrected` takes timestamps from
      frame numbers and skips unlabelled frames in `x` as well as in `y`. */
  datatype Policy = AsWritten | Corrected

  /** What one chosen track supplies to the frame loop. */
  datatype Track = Track(spec: Spectrogram, times: seq<real>, data: seq<Record>)

  /** The configured extraction parameters of `teach`. */
  datatype Params = Params(overSamplingRate: int, nFeatures: int)

  /** The chosen tracks: annotation stems that are also waveform stems. */
  function ChosenTracks(corpus: Directories): seq<string> {
    Choices(corpus.annotationListing, WaveStems(corpus.musicListing))
  }

  /** Loads one chosen track: its waveform and tempo, its chord records, the
      hop length, the spectrogram and one timestamp per frame. Fails when the
      hop length does. */
  function LoadTrack(policy: Policy, lib: Library, corpus: Directories, params: Params, choice: string): (r: Result<Track>)
    ensures r.Ok? ==> |r.value.times| == FrameCount(r.value.spec)
    ensures r.Err? <==> lib.tempo(lib.load(JoinPath(corpus.musicsPath, choice + HexTag + ".wav"))) == 0.0
                        || params.overSamplingRate == 0
  {
    var audio := lib.load(JoinPath(corpus.musicsPath, choice + HexTag + ".wav"));
    var tempo := lib.tempo(audio);
    var data := lib.chords(JoinPath(corpus.annotationsPath, choice + ".jams"));
    match HopLength(audio.sampleRate, tempo, params.overSamplingRate)
    case Err(f) => Err(f)
    case Ok(hop) =>
      var spec := lib.stft((audio.samples, params.nFeatures, hop));
      var toTime := (f: real) => lib.framesToTime((f, audio.sampleRate, params.nFeatures, hop));
      var times := if policy == AsWritten then FrameTimesAsWritten(spec, toTime) else FrameTimes(spec, toTime);
      Ok(Track(spec, times, data))
  }

  /** `x` and `y` as they stand where `teach` opens `xy.pickle` for
      writing: the arrays meant as the input of `model.fit`. */
  datatype Dataset = Dataset(x: seq<Vector>, y: seq<int>)

  /** The vectors one track adds to `x` under a policy. */
  function TrackVectors(policy: Policy, t: Track, embedder: Embedder): seq<Vector>
    requires |t.times| == FrameCount(t.spec)
  {
    if policy == AsWritten then Columns(t.spec, |t.times|)
    else LabelledColumns(t.spec, t.times, t.data, embedder)
  }

  /** The dataset after one more track's frames have been aligned. */
  function Extend(policy: Policy, d: Dataset, t: Track, embedder: Embedder): Dataset
    requires |t.times| == FrameCount(t.spec)
  {
    Dataset(d.x + TrackVectors(policy, t, embedder), d.y + ClassIds(t.times, t.data, embedder))
  }

  /** The dataset built from `choices` in order; the first track that fails
      aborts the whole build. */
  function Build(policy: Policy, lib: Library, corpus: Directories, params: Params, embedder: Embedder,
                 choices: seq<string>): Result<Dataset>
  {
    if |choices| == 0 then Ok(Dataset([], []))
    else
      match Build(policy, lib, corpus, params, embedder, choices[..|choices| - 1])
      case Err(f) => Err(f)
      case Ok(d) =>
        match LoadTrack(policy, lib, corpus, params, choices[|choices| - 1])
        case Err(f) => Err(f)
        case Ok(t) => Ok(Extend(policy, d, t, embedder))
  }

  /** The shape the input of `model.fit` is meant to have, as far as this
      model can tell: `y` never outgrows `x`, under the corrected policy the
      two are equally long, and every label is an embedder class id. */
  predicate WellShaped(policy: Policy, d: Dataset, embedder: Embedder) {
    && |d.y| <= |d.x|
    && (policy == Corrected ==> |d.x| == |d.y|)
    && forall k :: 0 <= k < |d.y| ==> IsClassId(embedder, d.y[k])
  }

  /** Aligning one more track keeps the dataset well shaped. */
  lemma ExtendShape(policy: Policy, d: Dataset, t: Track, embedder: Embedder)
    requires |t.times| == FrameCount(t.spec)
    requires WellShaped(policy, d, embedder)
    ensures WellShaped(policy, Extend(policy, d, t, embedder), embedder)
  {
    var ids := ClassIds(t.times, t.data, embedder);
    ClassIdsCount(t.times, t.data, embedder);
    LabelledColumnsMatchIds(t.spec, t.times, t.data, embedder);
    ClassIdsFromEmbedder(t.times, t.data, embedder);
    var y := d.y + ids;
    forall k | 0 <= k < |y|
      ensures IsClassId(embedder, y[k])
    {
      if k < |d.y| {
        assert y[k] == d.y[k];
      } else {
        assert y[k] == ids[k - |d.y|];
      }
    }
  }

  /** Every dataset the build produces is well shaped. */
  lemma {:induction false} BuildShape(policy: Policy, lib: Library, corpus: Directories, params: Params,
                                      embedder: Embedder, choices: seq<string>)
    ensures var r := Build(policy, lib, corpus, params, embedder, choices);
            r.Ok? ==> WellShaped(policy, r.value, embedder)
  {
    if |choices| > 0 {
      var init := choices[..|choices| - 1];
      BuildShape(policy, lib, corpus, params, embedder, init);
      var prev := Build(policy, lib, corpus, params, embedder, init);
      var track := LoadTrack(policy, lib, corpus, params, choices[|choices| - 1]);
      if prev.Ok? && track.Ok? {
        ExtendShape(policy, prev.value, track.value, embedder);
      }
    }
  }

  /** One step of the build: a built prefix followed by one more choice is
      extended with that track, or fails with the track's fault. */
  lemma BuildStep(policy: Policy, lib: Library, corpus: Directories, params: Params,
                  embedder: Embedder, done: seq<string>, next: string, d: Dataset)
    requires Build(policy, lib, corpus, params, embedder, done) == Ok(d)
    ensures var track := LoadTrack(policy, lib, corpus, params, next);
            Build(policy, lib, corpus, params, embedder, done + [next]) ==
              if track.Err? then Err(track.fault) else Ok(Extend(policy, d, track.value, embedder))
  {
    assert (done + [next])[..|done|] == done;
  }

  /** The frame loop over one track, under either policy. */
  method AlignTrack(policy: Policy, x: seq<Vector>, y: seq<int>, t: Track, embedder: Embedder)
    returns (x': seq<Vector>, y': seq<int>)
    requires |t.times| == FrameCount(t.spec)
    ensures Dataset(x', y') == Extend(policy, Dataset(x, y), t, embedder)
  {
    if policy == AsWritten {
      x', y' := AlignFrames(x, y, t.spec, t.times, t.data, embedder);
    } else {
      x', y' := AlignFramesDropping(x, y, t.spec, t.times, t.data, embedder);
    }
  }

  /** The loop over the chosen tracks: aligns each in turn and stops at the
      first one that fails. */
  method BuildLoop(policy: Policy, lib: Library, corpus: Directories, params: Params, embedder: Embedder,
                   choices: seq<string>)
    returns (r: Result<Dataset>)
    ensures r == Build(policy, lib, corpus, params, embedder, choices)
  {
    var x: seq<Vector>, y: seq<int> := [], [];
    var i := 0;
    while i < |choices|
      invariant 0 <= i <= |choices|
      invariant Build(policy, lib, corpus, params, embedder, choices[..i]) == Ok(Dataset(x, y))
    {
      assert choices[..i + 1] == choices[..i] + [choices[i]];
      BuildStep(policy, lib, corpus, params, embedder, choices[..i], choices[i], Dataset(x, y));
      var track := LoadTrack(policy, lib, corpus, params, choices[i]);
      if track.Err? {
        BuildAbortsOnFailure(policy, lib, corpus, params, embedder, choices, i + 1);
        return Err(track.fault);
      }
      x, y := AlignTrack(policy, x, y, track.value, embedder);
      i := i + 1;
    }
    assert choices[..i] == choices;
    r := Ok(Dataset(x, y));
  }

  /** `teach` up to where it opens `xy.pickle` for writing, with no cached
      `xy.pickle`: check `how_many`, choose the tracks, and run the frame
      loop over each in turn. */
  method Teach(policy: Policy, lib: Library, corpus: Directories, params: Params, embedder: Embedder,
               howMany: HowMany)
    returns (r: Result<Dataset>)
    ensures !HowManyAccepted(howMany) ==> r == Err(AssertionFailed)
    ensures HowManyAccepted(howMany) ==> r == Build(policy, lib, corpus, params, embedder, ChosenTracks(corpus))
    ensures r.Ok? ==> WellShaped(policy, r.value, embedder)
  {
    if !HowManyAccepted(howMany) {
      return Err(AssertionFailed);
    }
    var choices := ChosenTracks(corpus);
    BuildShape(policy, lib, corpus, params, embedder, choices);
    r := BuildLoop(policy, lib, corpus, params, embedder, choices);
  }

  /** Once a prefix of the choices fails, the whole build fails with the same fault. */
  lemma {:induction false} BuildAbortsOnFailure(policy: Policy, lib: Library, corpus: Directories, params: Params,
                                                embedder: Embedder, choices: seq<string>, n: nat)
    requires n <= |choices|
    requires Build(policy, lib, corpus, params, embedder, choices[..n]).Err?
    ensures Build(policy, lib, corpus, params, embedder, choices) ==
            Build(policy, lib, corpus, params, embedder, choices[..n])
    decreases |choices| - n
  {
    if n < |choices| {
      var m := n + 1;
      assert choices[..m][..n] == choices[..n];
      BuildAbortsOnFailure(policy, lib, corpus, params, embedder, choices, m);
    } else {
      assert choices[..n] == choices;
    }
  }

  /** Under the correction, a loaded track's timestamps are strictly increasing
      whenever `frames_to_time`, with that track's sample rate, `n_fft` and
      hop length, increases over its frame numbers. */
  lemma CorrectedTimesIncrease(lib: Library, corpus: Directories, params: Params, choice: string)
    requires var audio := lib.load(JoinPath(corpus.musicsPath, choice + HexTag + ".wav"));
             var hop := HopLength(audio.sampleRate, lib.tempo(audio), params.overSamplingRate);
             hop.Ok? ==>
               var n := FrameCount(lib.stft((audio.samples, params.nFeatures, hop.value)));
               forall a: nat, b: nat
                 {:trigger lib.framesToTime((a as real, audio.sampleRate, params.nFeatures, hop.value)),
                           lib.framesToTime((b as real, audio.sampleRate, params.nFeatures, hop.value))} ::
                 a < b < n ==> lib.framesToTime((a as real, audio.sampleRate, params.nFeatures, hop.value))
                               < lib.framesToTime((b as real, audio.sampleRate, params.nFeatures, hop.value))
    ensures var track := LoadTrack(Corrected, lib, corpus, params, choice);
            track.Ok? ==> StrictlyIncreasing(track.value.times)
  {
  }
}
