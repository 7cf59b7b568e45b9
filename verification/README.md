# Chord alignment for the guitar chord predictor

This project models the dataset-building core of `codebase/musicHandler.py`.
That file prepares training data for a chord classifier. It pairs each
waveform file with its chord annotation file, and it picks a hop length from
the track's tempo so that each frame spans a fixed fraction of a beat. It then
walks the magnitude-spectrogram frames, resolves the chord label active at
each frame's timestamp, and gathers feature vectors in `x` and class ids in
`y`, which the code means to hand to the classifier's `fit`.

Modules, one file each:

- `Common` (`common.dfy`) holds `Option` (Python `None`), `Result`, and the
  faults that escape `teach`.
- `Annotations` (`annotations.dfy`) is `getAnnotation`, the lookup of the
  first record whose open interval contains a timestamp.
- `Framing` (`framing.dfy`) is the tempo-adaptive hop length
  `int(sr / (tempo/60 * overSamplingRate) + .5)`, worked over `real`.
- `Corpus` (`corpus.dfy`) covers four pieces of string logic:
  - waveform and annotation stems (`split(".")[0]`, `[:-len("_hex")]`);
  - the `choices` filter;
  - path joining;
  - `str.strip`, which the `how_many` check uses.
- `Alignment` (`alignment.dfy`) is the per-frame loop that appends to `x`
  and `y`, with the reference functions it is proved against.
- `Teaching` (`teaching.dfy`) is `teach` on the cache-miss path. The library
  calls it makes are abstract functions in a `Library` value.

`Teaching.Policy` picks between two behaviours:

- `AsWritten` follows the source's frame loop and timestamps.
- `Corrected` applies the two fixes listed under "## Findings".

Where the intended design and the code differ, the model
follows the code:

- The hop length is `int(q + .5)`, which is round-half-up, not Python's
  `round`.
- Only a zero tempo or a zero rate fails: it makes the quotient infinite or
  NaN, and `int` then raises. A negative tempo is not rejected. It gives a
  hop of zero or less, which goes on to the spectral transform.
- `choices` is a filter of the annotation listing, not a set intersection.
  It keeps listing order and duplicates.
- A frame whose label is `None` or unknown still adds its vector to `x`.
  This is the first finding below.

## Model

| member | source | states |
|---|---|---|
| `Annotations.Covers` | codebase/musicHandler.py:31 | A definition with no contract of its own: a record covers `t` when `time < t < time + duration`, both ends excluded. |
| `Annotations.GetAnnotation` | codebase/musicHandler.py:28-32 | The result is `None` exactly when no record's open interval `(time, time+duration)` contains the timestamp. Otherwise it is the value of a covering record that has no covering record before it, so it is always a value from the list. |
| `Annotations.GetAnnotationIsFirstCover` | codebase/musicHandler.py:30-32 | If record `i` is the first covering record in list order, the result is exactly record `i`'s value. |
| `Annotations.GetAnnotationAppend` | codebase/musicHandler.py:30-32 | Looking up in `a + b` gives `a`'s answer whenever `a` has a covering record. It consults `b` only when `a` has none, so later records are never inspected after a match. |
| `Annotations.LaterRecordsIgnored` | codebase/musicHandler.py:30-32 | If record `i` covers the timestamp, replacing everything after `i` with arbitrary records does not change the label. |
| `Annotations.BoundariesExcluded` | codebase/musicHandler.py:31 | A timestamp equal to a record's start or end matches nothing. A record with non-positive duration matches nothing. |
| `Annotations.SingleIntervalExample` | codebase/musicHandler.py:31 | For the record `(1.0, 2.0, "Cmaj")`, 1.5 resolves to `"Cmaj"`, while 1.0, 3.0 and 0.5 resolve to `None`. |
| `Framing.Trunc` | codebase/musicHandler.py:70 | `int()` truncates toward zero. A non-negative value gives the largest integer not above it. A negative value gives the smallest integer not below it. |
| `Framing.FrameRate` | codebase/musicHandler.py:65-70 | A definition with no contract of its own: frames per second, `tps * overSamplingRate` with `tps = tempo / 60`. `Framing.FrameRateMonotone` states its properties. |
| `Framing.HopLength` | codebase/musicHandler.py:65-70 | The hop length fails (`HopNotFinite`) exactly when the tempo or the oversampling rate is zero. |
| `Framing.FrameRateMonotone` | codebase/musicHandler.py:65-70 | With positive tempo and rate, frames per second `tempo/60 * rate` is positive and grows with either factor. |
| `Framing.HopLengthRoundsHalfUp` | codebase/musicHandler.py:65-70 | For `sr >= 0` and positive tempo and rate, the hop length exists and is non-negative. It lies in `(q - 1/2, q + 1/2]` for `q = sr / (tempo/60 * rate)`, which is round-half-up of `q`. |
| `Framing.HopLengthAntitone` | codebase/musicHandler.py:65-70 | A faster tempo or a higher oversampling rate never gives a longer hop. |
| `Framing.HopLengthExample` | codebase/musicHandler.py:65-70 | 22050 Hz, 120 bpm and rate 48 give a hop of 230. |
| `Corpus.FirstField` | codebase/musicHandler.py:51-55 | `split(".")[0]` is a prefix of the name that contains no `.`. It is either the whole name or stops just before a `.`. |
| `Corpus.FirstFieldUnique` | codebase/musicHandler.py:51-55 | Those three properties determine `split(".")[0]` uniquely. |
| `Corpus.DropLast` | codebase/musicHandler.py:51 | `s[:-n]` is the prefix of length `len(s) - n`. It is empty when `s` has at most `n` characters. |
| `Corpus.WaveStem` | codebase/musicHandler.py:51 | A definition with no contract of its own: a waveform file's stem is its first field with the last `len("_hex")` characters cut. `Corpus.WaveStemOfTaggedName` states what it gives for tagged names. |
| `Corpus.WaveStems` | codebase/musicHandler.py:51 | A definition with no contract of its own: `sacr`, the stem of each waveform file, in listing order. |
| `Corpus.WaveStemOfTaggedName` | codebase/musicHandler.py:51 | A waveform named `<id>_hex<ext>`, with a dot-free `id` and an extension that is empty or starts with `.`, has stem `id`. |
| `Corpus.Keep` | codebase/musicHandler.py:52-56 | An element is kept exactly when it is listed and also occurs in the wanted list. |
| `Corpus.AnnotationStems` | codebase/musicHandler.py:53-55 | A definition with no contract of its own: `el.split(".")[0]` of each annotation file, in listing order. |
| `Corpus.Choices` | codebase/musicHandler.py:51-56 | A stem is in `choices` exactly when it is an annotation stem and also a waveform stem. |
| `Corpus.ChoicesKeepOrder` | codebase/musicHandler.py:52-56 | `choices` is a subsequence of the annotation stems, so the listing order is kept. |
| `Corpus.ChoicesMultiplicity` | codebase/musicHandler.py:52-56 | A stem that is also a waveform stem is chosen as many times as it is listed. Any other stem is never chosen. |
| `Corpus.JoinPath` | codebase/musicHandler.py:60-62 | The joined path starts with the base and ends with the name. The character just before the name is `/`. The path is one character longer than base plus name unless the base already ends with `/`. |
| `Corpus.WavePathNamesTrack` | codebase/musicHandler.py:51-62 | The file name that ends the path built for a chosen track (`<choice>_hex.wav`) has that track as its waveform stem. |
| `Corpus.Strip` | codebase/musicHandler.py:37 | `strip(chars)` is a slice `s[a..b]` of the string. Everything before `a` and from `b` on is in `chars`. The slice neither starts nor ends with a character in `chars`. It is empty exactly when every character is in `chars`. |
| `Teaching.HowManyAccepted` | codebase/musicHandler.py:37 | A definition with no contract of its own: the `assert` passes for any `int`, and for a string that is not empty once `strip(' -\t\n')` is applied. `Teaching.HowManyAcceptedText` states the string case. |
| `Teaching.HowManyAcceptedText` | codebase/musicHandler.py:37 | A string `how_many` passes the assert exactly when it has a character other than space, `-`, tab and newline. |
| `Alignment.Column` | codebase/musicHandler.py:84 | `specs[:, j]` has one entry per frequency bin. |
| `Alignment.ClassIdAt` | codebase/musicHandler.py:82-85 | A definition with no contract of its own: a frame's class id is `embedder.map[token][0]` when its label `token` is a key. It is nothing when the label is `None` or unknown, the `KeyError` case. |
| `Alignment.ClassIds` | codebase/musicHandler.py:82-86 | A definition with no contract of its own: the class ids the frames contribute to `y`, in frame order. `Alignment.ClassIdsCount`, `Alignment.ClassIdsFromEmbedder` and `Alignment.AlignFrames` state its properties. |
| `Alignment.ClassIdsCount` | codebase/musicHandler.py:82-86 | Each frame either contributes one class id or is counted as unlabelled, so the two counts add up to the number of frames. |
| `Alignment.ClassIdsFromEmbedder` | codebase/musicHandler.py:85 | Every value placed in `y` is `embedder.map[token][0]` for some key `token`. |
| `Alignment.LabelledColumnsMatchIds` | codebase/musicHandler.py:83-86 | Skipping unlabelled frames keeps exactly one vector per class id. |
| `Alignment.UniformLabel` | codebase/musicHandler.py:76-86 | If every frame falls inside a chord the embedder knows, every frame is labelled with that chord's class id. |
| `Alignment.AlignFrames` | codebase/musicHandler.py:76-86 | As written, `x` gains exactly one vector per frame: the frame's spectral column, in frame order. `y` gains the frame's class id only when the label is an embedder key. So `y` grows by the number of frames minus the unlabelled ones. |
| `Alignment.AlignFramesDropping` | codebase/musicHandler.py:76-86 | With the fix, `x` gains only the columns of labelled frames and `y` gains their class ids. Both grow by the number of labelled frames. |
| `Alignment.AsWrittenDesync` | codebase/musicHandler.py:83-86 | As written, `y` keeps pace with `x` exactly when no frame is unlabelled. One unlabelled frame leaves `y` shorter than `x`. |
| `Alignment.AsWrittenDesyncExample` | codebase/musicHandler.py:82-86 | A frame at 0.5 s, whose only record covers (1.0, 3.0), contributes no class id to `y`. `AlignFrames` still adds its vector to `x`. |
| `Alignment.FrameTimesAsWritten` | codebase/musicHandler.py:74 | There is one timestamp per frame, taken from the first frequency bin's magnitude. |
| `Alignment.FrameTimes` | codebase/musicHandler.py:74 | There is one timestamp per frame, taken from the frame number. |
| `Alignment.AsWrittenTimesRepeat` | codebase/musicHandler.py:74 | As written, two frames with equal first-bin magnitudes get equal timestamps, so the timestamps are not strictly increasing. |
| `Alignment.FrameTimesIncrease` | codebase/musicHandler.py:74 | A conversion that increases over the frame numbers `0 .. n-1` gives strictly increasing timestamps. Whole-sample rounding in the conversion does not matter. |
| `Teaching.ChosenTracks` | codebase/musicHandler.py:51-56 | A definition with no contract of its own: `choices`, built from the annotation listing and the waveform stems. `Corpus.Choices`, `Corpus.ChoicesKeepOrder` and `Corpus.ChoicesMultiplicity` state its properties. |
| `Teaching.LoadTrack` | codebase/musicHandler.py:59-74 | A track fails exactly when its tempo or the oversampling rate is zero. A loaded track has one timestamp per spectrogram frame. |
| `Teaching.CorrectedTimesIncrease` | codebase/musicHandler.py:74 | Under the correction, a loaded track's timestamps are strictly increasing whenever `frames_to_time`, with that track's sample rate, `n_fft` and hop length, increases over its frame numbers. |
| `Teaching.ExtendShape` | codebase/musicHandler.py:76-86 | Aligning one more track keeps three things: `|y| <= |x|`, `|x| == |y|` under the correction, and every label is an embedder class id. |
| `Teaching.Build` | codebase/musicHandler.py:59-86 | A definition with no contract of its own: the chosen tracks are loaded and aligned in order, and the first track that fails aborts the build with its fault. `Teaching.BuildStep`, `Teaching.BuildAbortsOnFailure` and `Teaching.BuildShape` state its properties. |
| `Teaching.BuildShape` | codebase/musicHandler.py:59-86 | Every dataset built from the chosen tracks satisfies those three shape facts. |
| `Teaching.BuildStep` | codebase/musicHandler.py:59-86 | Once a prefix of the choices has built, the next chosen track either extends that dataset with its aligned frames or aborts the build with its fault. |
| `Teaching.BuildAbortsOnFailure` | codebase/musicHandler.py:59-70 | The first track that fails decides the outcome of the whole build. |
| `Teaching.AlignTrack` | codebase/musicHandler.py:76-86 | The frame loop over one track adds exactly that track's contribution under the chosen policy. |
| `Teaching.BuildLoop` | codebase/musicHandler.py:59-86 | The loop over `choices` gives exactly the dataset of the track-by-track build, or that build's fault. |
| `Teaching.Teach` | codebase/musicHandler.py:35-86 | A rejected `how_many` gives `AssertionFailed`. Otherwise the result is the build over the chosen tracks. A successful result satisfies `|y| <= |x|`, and under the correction `|x| == |y|`. Every label is an embedder class id. |

## Findings

| source | as written | input that shows it | evidently intended | confidence | as-written member | corrected member |
|---|---|---|---|---|---|---|
| codebase/musicHandler.py:83-86 | `x.append(...)` runs before `embedder.map[token]`. The `KeyError` for a `None` or unknown label therefore leaves the frame in `x` but not in `y`. | One frame at 0.5 s, whose only record is `(1.0, 2.0, "A")`: `x` has 1 vector and `y` has 0 labels. As written, the pickle write at line 89 raises first; once that is fixed, `fit` would receive arrays of different lengths. | A frame without a known label is dropped from both arrays, so `len(x) == len(y)`. | high; not executed | `Alignment.AsWrittenDesync` | `Alignment.AlignFramesDropping` |
| codebase/musicHandler.py:74 | `frames_to_time(specs[0], ...)` converts the first frequency bin's magnitudes, not frame numbers. | A spectrogram whose first bin is 0.0 in two frames (silence): both frames get the same timestamp, whatever the conversion. | `frames_to_time` applied to the frame numbers `0 .. n-1`, giving strictly increasing timestamps. | medium; not executed | `Alignment.AsWrittenTimesRepeat` | `Alignment.FrameTimesIncrease` |

`Teaching.Teach` with `Policy.Corrected` uses both corrections: timestamps
from frame numbers through `Alignment.FrameTimes`, and
`Alignment.AlignFramesDropping` for the loop. `Policy.AsWritten` keeps the
source's behaviour. `Teaching.CorrectedTimesIncrease` carries the second
correction through `Teaching.LoadTrack`: a track loaded under
`Policy.Corrected` has strictly increasing timestamps whenever
`frames_to_time`, with that track's sample rate, `n_fft` and hop length,
increases over its frame numbers.

## Left out

- The audio library is not modelled. Four calls are fields of
  `Teaching.Library`, each a total function of its arguments:
  - `librosa.load` (a waveform and its sample rate);
  - `librosa.beat.tempo(...)[0]`;
  - `np.abs(librosa.core.stft(...))`, a rectangular array with at least one
    row;
  - `librosa.core.frames_to_time`, applied element by element.
- Errors those four calls can raise are not modelled. This includes a
  transform rejecting a non-positive hop length.
- Reading annotation files is not modelled: `jams.load` and
  `search(namespace="chord")[1]["data"]` are the single function
  `Library.chords`. Files and their parsing are I/O. The `IndexError` for a
  file with fewer than two chord annotations is not modelled.
- The directory listings from `os.listdir` are inputs (`Directories`), in the
  order the listing returns them.
- The dataset cache is not modelled: the `xy.pickle` read, the `xy.pickle`
  write, and the cache-hit path (lines 45-49 and 88-89). They are file I/O.
  `Teach` always takes the cache-miss path. Its `Ok` result is the state of
  `x` and `y` when line 88 is reached.
- The pickle calls raise `TypeError` as written, and this is not modelled.
  Line 88 opens `xy.pickle` in text mode (`"w"`), so `pickle.dump` at line 89
  fails writing bytes. A later run opens the file with `"r"`, and
  `pickle.load` at line 47 fails the same way. The `except` at line 48 does
  not catch `TypeError`. So, as written, `model.fit` at line 91 is never
  reached.
- `build_model`, `model.fit`, the printing of `x` and `y`, and the model
  pickle saved in the `__main__` block are not modelled. They are an external
  classifier and file I/O.
- `classify.readyEmbedder` and `path_handler` are not part of this model.
  The embedder map is an input `map<string, (int, int)>`. The dataset
  directories are input strings.
- Progress printing (lines 40, 49, 77-81, 87) is not modelled. It is
  observational only.
- Floating point is not modelled. Times, durations, tempo and the hop-length
  quotient are exact `real`s, so rounding of `sr / (tps * rate)` in
  double precision is not modelled.
- `Framing.HopLength` gives one fault, `HopNotFinite`, for both Python
  errors: `OverflowError` (the quotient is infinite) and `ValueError` (it is
  NaN, when `sr` is also zero).
- `Teaching.HowManyAccepted` treats the `assert` as always active. Running
  Python with `-O` would skip it. A `how_many` that is neither `int` nor
  `str` fails on `.strip` with `AttributeError`. The `HowMany` type excludes
  that case.
