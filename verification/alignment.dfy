/** The per-frame loop of `teach`: each spectral frame is paired with the
    class id of the chord label active at its timestamp. */
module Alignment {
  import opened Common
  import opened Annotations

  /** One feature vector: a column of the magnitude spectrogram. */
  type Vector = seq<real>

  /** A magnitude spectrogram as a numpy 2-D array: at least one row (frequency
      bin), every row as long as the first (one entry per frame). */
  predicate Rectangular(rows: seq<seq<real>>) {
    |rows| > 0 && forall i :: 0 <= i < |rows| ==> |rows[i]| == |rows[0]|
  }

  type Spectrogram = rows: seq<seq<real>> | Rectangular(rows) witness [[]]

  /** Number of frames: the length of any row. */
  function FrameCount(s: Spectrogram): nat {
    |s[0]|
  }

  /** `specs[:, j]`: frame `j` across all frequency bins. */
  function Column(s: Spectrogram, j: int): (v: Vector)
    requires 0 <= j < FrameCount(s)
    ensures |v| == |s|
  {
    seq(|s|, i requires 0 <= i < |s| => s[i][j])
  }

  /** The first `n` frames, in order. */
  function Columns(s: Spectrogram, n: nat): seq<Vector>
    requires n <= FrameCount(s)
  {
    seq(n, j requires 0 <= j < n => Column(s, j))
  }

  /** `embedder.map`: a chord label to its `(class id, occurrence count)`. */
  type Embedder = map<string, (int, int)>

  /** The class id frame time `t` contributes to `y`: the id of its resolved
      label when that label is a key of the embedder; nothing when the label is
      `None` or unknown (the `KeyError` case). */
  function ClassIdAt(t: real, data: seq<Record>, embedder: Embedder): Option<int> {
    match GetAnnotation(t, data)
    case None => None
    case Some(chord) => if chord in embedder then Some(embedder[chord].0) else None
  }

  /** The contribution of one frame to a sequence of class ids. */
  function IdsOf(o: Option<int>): seq<int> {
    match o
    case None => []
    case Some(id) => [id]
  }

  /** The class ids the frames at `times` contribute to `y`, in frame order. */
  function ClassIds(times: seq<real>, data: seq<Record>, embedder: Embedder): seq<int>
  {
    if |times| == 0 then []
    else ClassIds(times[..|times| - 1], data, embedder) + IdsOf(ClassIdAt(times[|times| - 1], data, embedder))
  }

  /** How many frames at `times` resolve to no label or to a label the
      embedder does not know. */
  function Unlabelled(times: seq<real>, data: seq<Record>, embedder: Embedder): nat
  {
    if |times| == 0 then 0
    else Unlabelled(times[..|times| - 1], data, embedder)
         + (if ClassIdAt(times[|times| - 1], data, embedder).None? then 1 else 0)
  }

  /** The frames whose label is known, in order: what a loop that skips
      unlabelled frames puts in `x`. */
  function LabelledColumns(s: Spectrogram, times: seq<real>, data: seq<Record>, embedder: Embedder): seq<Vector>
    requires |times| <= FrameCount(s)
  {
    if |times| == 0 then []
    else
      var j := |times| - 1;
      LabelledColumns(s, times[..j], data, embedder)
      + (if ClassIdAt(times[j], data, embedder).Some? then [Column(s, j)] else [])
  }

  /** Every frame is either labelled or counted as unlabelled. */
  lemma {:induction false} ClassIdsCount(times: seq<real>, data: seq<Record>, embedder: Embedder)
    ensures |ClassIds(times, data, embedder)| + Unlabelled(times, data, embedder) == |times|
  {
    if |times| > 0 {
      ClassIdsCount(times[..|times| - 1], data, embedder);
    }
  }

  /** `id` is the class id of some label of the embedder. */
  predicate IsClassId(embedder: Embedder, id: int) {
    exists chord :: chord in embedder && embedder[chord].0 == id
  }

  /** Every class id in `y` is the id of some embedder label, taken from
      the first component of its map entry. */
  lemma {:induction false} ClassIdsFromEmbedder(times: seq<real>, data: seq<Record>, embedder: Embedder)
    ensures forall k :: 0 <= k < |ClassIds(times, data, embedder)| ==>
              IsClassId(embedder, ClassIds(times, data, embedder)[k])
  {
    if |times| > 0 {
      var init := times[..|times| - 1];
      ClassIdsFromEmbedder(init, data, embedder);
      var last := ClassIdAt(times[|times| - 1], data, embedder);
      if last.Some? {
        var chord := GetAnnotation(times[|times| - 1], data).value;
        assert chord in embedder && embedder[chord].0 == last.value;
      }
      var ids := ClassIds(times, data, embedder);
      var front := ClassIds(init, data, embedder);
      assert ids == front + IdsOf(last);
      forall k | 0 <= k < |ids|
        ensures IsClassId(embedder, ids[k])
      {
        if k < |front| {
          assert ids[k] == front[k];
        } else {
          assert ids[k] == last.value;
        }
      }
    }
  }

  /** Skipping unlabelled frames keeps one vector per class id. */
  lemma {:induction false} LabelledColumnsMatchIds(s: Spectrogram, times: seq<real>, data: seq<Record>, embedder: Embedder)
    requires |times| <= FrameCount(s)
    ensures |LabelledColumns(s, times, data, embedder)| == |ClassIds(times, data, embedder)|
  {
    if |times| > 0 {
      LabelledColumnsMatchIds(s, times[..|times| - 1], data, embedder);
    }
  }

  /** Frames all inside one known chord: every frame is labelled, with that
      chord's class id. */
  lemma {:induction false} UniformLabel(times: seq<real>, data: seq<Record>, embedder: Embedder, chord: string)
    requires chord in embedder
    requires forall k :: 0 <= k < |times| ==> GetAnnotation(times[k], data) == Some(chord)
    ensures ClassIds(times, data, embedder) == seq(|times|, _ => embedder[chord].0)
    ensures Unlabelled(times, data, embedder) == 0
  {
    if |times| > 0 {
      var init := times[..|times| - 1];
      assert forall k :: 0 <= k < |init| ==> init[k] == times[k];
      UniformLabel(init, data, embedder, chord);
    }
  }

  /** The loop as written: `x` receives frame `j` before the chord lookup,
      so a frame whose chord is `None` or unknown still grows `x` while its
      `KeyError` keeps it out of `y`. */
  method AlignFrames(x: seq<Vector>, y: seq<int>, s: Spectrogram, times: seq<real>,
                     data: seq<Record>, embedder: Embedder)
    returns (x': seq<Vector>, y': seq<int>)
    requires |times| == FrameCount(s)
    ensures x' == x + Columns(s, |times|)
    ensures y' == y + ClassIds(times, data, embedder)
    ensures |x'| == |x| + |times|
    ensures |y'| + Unlabelled(times, data, embedder) == |y| + |times|
  {
    x', y' := x, y;
    var j := 0;
    while j < |times|
      invariant 0 <= j <= |times|
      invariant x' == x + Columns(s, j)
      invariant y' == y + ClassIds(times[..j], data, embedder)
    {
      var token := GetAnnotation(times[j], data);
      x' := x' + [Column(s, j)];
      if token.Some? && token.value in embedder {
        y' := y' + [embedder[token.value].0];
      }
      assert times[..j + 1][..j] == times[..j];
      j := j + 1;
    }
    assert times[..j] == times;
    ClassIdsCount(times, data, embedder);
  }

  /** The loop as intended: a frame without a known chord contributes to
      neither `x` nor `y`, so the two stay the same length. */
  method AlignFramesDropping(x: seq<Vector>, y: seq<int>, s: Spectrogram, times: seq<real>,
                             data: seq<Record>, embedder: Embedder)
    returns (x': seq<Vector>, y': seq<int>)
    requires |times| == FrameCount(s)
    ensures x' == x + LabelledColumns(s, times, data, embedder)
    ensures y' == y + ClassIds(times, data, embedder)
    ensures |x'| - |x| == |y'| - |y| == |times| - Unlabelled(times, data, embedder)
  {
    x', y' := x, y;
    var j := 0;
    while j < |times|
      invariant 0 <= j <= |times|
      invariant x' == x + LabelledColumns(s, times[..j], data, embedder)
      invariant y' == y + ClassIds(times[..j], data, embedder)
    {
      var token := GetAnnotation(times[j], data);
      if token.Some? && token.value in embedder {
        x' := x' + [Column(s, j)];
        y' := y' + [embedder[token.value].0];
      }
      assert times[..j + 1][..j] == times[..j];
      j := j + 1;
    }
    assert times[..j] == times;
    ClassIdsCount(times, data, embedder);
    LabelledColumnsMatchIds(s, times, data, embedder);
  }

  /** As written, `x` and `y` leave a track the same length exactly when every
      frame is labelled; one unlabelled frame is enough to make `x` longer. */
  lemma {:induction false} AsWrittenDesync(times: seq<real>, data: seq<Record>, embedder: Embedder)
    ensures |ClassIds(times, data, embedder)| == |times| <==> Unlabelled(times, data, embedder) == 0
    ensures Unlabelled(times, data, embedder) > 0 ==> |ClassIds(times, data, embedder)| < |times|
  {
    ClassIdsCount(times, data, embedder);
  }

  /** A timestamp outside every record: the one frame goes to `x`, nothing to `y`. */
  lemma AsWrittenDesyncExample()
    ensures ClassIds([0.5], [Record(1.0, 2.0, "A")], map["A" := (0, 1)]) == []
  {
    assert [0.5][..0] == [];
  }

  /** Timestamps in strictly increasing order. */
  predicate StrictlyIncreasing(ts: seq<real>) {
    forall j, k :: 0 <= j < k < |ts| ==> ts[j] < ts[k]
  }

  /** `frames_to_time(specs[0], ...)` as written: the conversion is applied to
      the magnitudes in the first frequency bin, not to frame numbers. */
  function FrameTimesAsWritten(s: Spectrogram, toTime: real -> real): (ts: seq<real>)
    ensures |ts| == FrameCount(s)
  {
    seq(FrameCount(s), j requires 0 <= j < FrameCount(s) => toTime(s[0][j]))
  }

  /** The intended timestamps: the conversion applied to frame numbers 0, 1, ... */
  function FrameTimes(s: Spectrogram, toTime: real -> real): (ts: seq<real>)
    ensures |ts| == FrameCount(s)
  {
    seq(FrameCount(s), j requires 0 <= j < FrameCount(s) => toTime(j as real))
  }

  /** As written, two frames with the same first-bin magnitude (two silent
      frames, say) get the same timestamp, whatever the conversion. */
  lemma AsWrittenTimesRepeat(s: Spectrogram, toTime: real -> real, j: int, k: int)
    requires 0 <= j < k < FrameCount(s) && s[0][j] == s[0][k]
    ensures !StrictlyIncreasing(FrameTimesAsWritten(s, toTime))
  {
    var ts := FrameTimesAsWritten(s, toTime);
    assert ts[j] == ts[k];
  }

  /** A conversion that increases over the frame numbers gives strictly
      increasing timestamps. */
  lemma FrameTimesIncrease(s: Spectrogram, toTime: real -> real)
    requires forall a: nat, b: nat {:trigger toTime(a as real), toTime(b as real)} ::
               a < b < FrameCount(s) ==> toTime(a as real) < toTime(b as real)
    ensures StrictlyIncreasing(FrameTimes(s, toTime))
  {
  }
}
