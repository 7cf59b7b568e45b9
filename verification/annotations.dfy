/** Label lookup against a chord annotation track (`getAnnotation`). */
module Annotations {
  import opened Common

  /** One record of the chord namespace: it starts at `time`, lasts
      `duration` seconds and carries the chord label `value`. */
  datatype Record = Record(time: real, duration: real, value: string)

  /** The record's open interval `(time, time + duration)` contains `t`;
      both ends are excluded. */
  predicate Covers(r: Record, t: real) {
    r.time < t < r.time + r.duration
  }

  /** Index of the first record, in list order, whose interval contains `t`. */
  predicate FirstCover(data: seq<Record>, t: real, i: int) {
    && 0 <= i < |data|
    && Covers(data[i], t)
    && forall j :: 0 <= j < i ==> !Covers(data[j], t)
  }

  /** The label active at `timeStamp`: the value of the first record whose open
      interval contains it, or `None` when no record does. Records after the
      first match are not looked at. */
  function GetAnnotation(timeStamp: real, data: seq<Record>): (r: Option<string>)
    ensures r.None? <==> forall i :: 0 <= i < |data| ==> !Covers(data[i], timeStamp)
    ensures r.Some? ==> exists i :: FirstCover(data, timeStamp, i) && data[i].value == r.value
  {
    if |data| == 0 then None
    else if Covers(data[0], timeStamp) then
      assert FirstCover(data, timeStamp, 0);
      Some(data[0].value)
    else
      var rest := GetAnnotation(timeStamp, data[1..]);
      assert forall i :: 1 <= i < |data| ==> data[i] == data[1..][i - 1];
      if rest.Some? then
        var k :| FirstCover(data[1..], timeStamp, k) && data[1..][k].value == rest.value;
        assert FirstCover(data, timeStamp, k + 1);
        rest
      else
        rest
  }

  /** The first covering record decides the label, whatever follows it: looking
      up in `a + b` is looking up in `a`, falling back to `b` only when no
      record of `a` covers the timestamp. */
  lemma {:induction false} GetAnnotationAppend(t: real, a: seq<Record>, b: seq<Record>)
    ensures GetAnnotation(t, a + b) ==
            (if GetAnnotation(t, a).Some? then GetAnnotation(t, a) else GetAnnotation(t, b))
  {
    if |a| == 0 {
      assert a + b == b;
    } else {
      assert (a + b)[0] == a[0];
      assert (a + b)[1..] == a[1..] + b;
      if !Covers(a[0], t) {
        GetAnnotationAppend(t, a[1..], b);
      }
    }
  }

  /** Whatever the later records say, a timestamp covered by record `i` gets the
      label of the first covering record at or before `i`. */
  lemma LaterRecordsIgnored(t: real, data: seq<Record>, i: int, later: seq<Record>)
    requires 0 <= i < |data| && Covers(data[i], t)
    ensures GetAnnotation(t, data[..i + 1] + later) == GetAnnotation(t, data)
  {
    GetAnnotationAppend(t, data[..i + 1], later);
    GetAnnotationAppend(t, data[..i + 1], data[i + 1..]);
    assert data[..i + 1] + data[i + 1..] == data;
  }

  /** The label found is the label of the unique first covering record: any
      record that covers the timestamp and has no covering record before it
      supplies the answer. */
  lemma GetAnnotationIsFirstCover(t: real, data: seq<Record>, i: int)
    requires FirstCover(data, t, i)
    ensures GetAnnotation(t, data) == Some(data[i].value)
  {
    var r := GetAnnotation(t, data);
    var k :| FirstCover(data, t, k) && data[k].value == r.value;
    assert k == i;
  }

  /** A record matches neither at its start nor at its end, and a record with a
      non-positive duration matches nothing. */
  lemma BoundariesExcluded(r: Record, t: real)
    requires t == r.time || t == r.time + r.duration || r.duration <= 0.0
    ensures GetAnnotation(t, [r]) == None
  {
  }

  /** One record `(1.0, 2.0, "Cmaj")`: 1.5 resolves to it; 1.0, 3.0 and 0.5 do not. */
  lemma SingleIntervalExample()
    ensures GetAnnotation(1.5, [Record(1.0, 2.0, "Cmaj")]) == Some("Cmaj")
    ensures GetAnnotation(1.0, [Record(1.0, 2.0, "Cmaj")]) == None
    ensures GetAnnotation(3.0, [Record(1.0, 2.0, "Cmaj")]) == None
    ensures GetAnnotation(0.5, [Record(1.0, 2.0, "Cmaj")]) == None
  {
  }
}
