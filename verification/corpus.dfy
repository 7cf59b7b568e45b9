/** Pairing waveform files with annotation files, joining directory paths,
    and `str.strip`, which the `how_many` check uses. */
module Corpus {

  /** `name.split(".")[0]`: everything before the first `.`, or the whole
      name when it has none. */
  function FirstField(name: string): (r: string)
    ensures r <= name
    ensures '.' !in r
    ensures |r| < |name| ==> name[|r|] == '.'
  {
    if |name| == 0 || name[0] == '.' then []
    else [name[0]] + FirstField(name[1..])
  }

  /** The three properties of `FirstField` pin it down: the only dot-free
      prefix that is the whole name or stops just before a `.` is the first field. */
  lemma {:induction false} FirstFieldUnique(name: string, p: string)
    requires p <= name && '.' !in p
    requires |p| < |name| ==> name[|p|] == '.'
    ensures FirstField(name) == p
  {
    if |name| == 0 || name[0] == '.' {
    } else {
      assert |p| > 0 && p[0] == name[0];
      FirstFieldUnique(name[1..], p[1..]);
    }
  }

  /** Python `s[:-n]` for `n > 0`: drops the last `n` characters, leaving
      the empty string when `s` is no longer than `n`. */
  function DropLast(s: string, n: nat): (r: string)
    requires n > 0
    ensures r <= s
    ensures |r| == if |s| >= n then |s| - n else 0
  {
    if |s| >= n then s[..|s| - n] else []
  }

  /** The tag every waveform file carries after its track identifier. */
  const HexTag: string := "_hex"

  /** A waveform file's track stem: the first field with its last
      `len("_hex")` characters cut, whatever those characters are. */
  function WaveStem(fileName: string): string {
    DropLast(FirstField(fileName), |HexTag|)
  }

  /** The waveform stems of a directory listing, in listing order (`sacr`). */
  function WaveStems(listing: seq<string>): seq<string> {
    seq(|listing|, i requires 0 <= i < |listing| => WaveStem(listing[i]))
  }

  /** A file named `<id>_hex<ext>` with a dot-free `id` and an extension that is
      empty or starts with `.` has stem `id`: the naming convention round-trips. */
  lemma WaveStemOfTaggedName(id: string, ext: string)
    requires '.' !in id
    requires ext == [] || ext[0] == '.'
    ensures WaveStem(id + HexTag + ext) == id
  {
    var name := id + HexTag + ext;
    var field := id + HexTag;
    assert field <= name;
    assert '.' !in field;
    FirstFieldUnique(name, field);
    assert field[..|field| - 4] == id;
  }

  /** The stems of `stems` that occur in `wanted`, in their original order,
      each as often as it is listed. */
  function Keep(stems: seq<string>, wanted: seq<string>): (r: seq<string>)
    ensures forall c :: c in r <==> c in stems && c in wanted
  {
    if |stems| == 0 then []
    else (if stems[0] in wanted then [stems[0]] else []) + Keep(stems[1..], wanted)
  }

  /** The annotation stems that also occur among the waveform stems, in the
      order of the annotation listing (`choices`). */
  function Choices(annotationListing: seq<string>, waveStems: seq<string>): (r: seq<string>)
    ensures forall c :: c in r <==> c in waveStems && c in AnnotationStems(annotationListing)
  {
    Keep(AnnotationStems(annotationListing), waveStems)
  }

  /** `sub` can be obtained from `s` by deleting elements: order is kept. */
  predicate IsSubsequence<T(==)>(sub: seq<T>, s: seq<T>)
    decreases |s|
  {
    if |sub| == 0 then true
    else if |s| == 0 then false
    else if sub[0] == s[0] then IsSubsequence(sub[1..], s[1..])
    else IsSubsequence(sub, s[1..])
  }

  /** The annotation stems, in listing order. */
  function AnnotationStems(listing: seq<string>): seq<string> {
    seq(|listing|, i requires 0 <= i < |listing| => FirstField(listing[i]))
  }

  /** `choices` keeps the annotation listing's order: it is a subsequence of
      the annotation stems. */
  lemma ChoicesKeepOrder(annotationListing: seq<string>, waveStems: seq<string>)
    ensures IsSubsequence(Choices(annotationListing, waveStems), AnnotationStems(annotationListing))
  {
    KeepIsSubsequence(AnnotationStems(annotationListing), waveStems);
  }

  /** Filtering keeps order. */
  lemma {:induction false} KeepIsSubsequence(stems: seq<string>, wanted: seq<string>)
    ensures IsSubsequence(Keep(stems, wanted), stems)
  {
    if |stems| > 0 {
      var rest := Keep(stems[1..], wanted);
      KeepIsSubsequence(stems[1..], wanted);
      if stems[0] in wanted {
        assert Keep(stems, wanted) == [stems[0]] + rest;
        assert ([stems[0]] + rest)[1..] == rest;
      } else {
        assert Keep(stems, wanted) == rest;
        SubsequenceOfTail(rest, stems);
      }
    }
  }

  /** Prepending an element to the longer sequence keeps a subsequence one. */
  lemma {:induction false} SubsequenceOfTail<T>(sub: seq<T>, s: seq<T>)
    requires |s| > 0 && IsSubsequence(sub, s[1..])
    ensures IsSubsequence(sub, s)
    decreases |s|, |sub|
  {
    if |sub| > 0 && sub[0] == s[0] {
      SubsequenceDropHead(sub, s[1..]);
    }
  }

  /** Dropping the head of a subsequence keeps it a subsequence. */
  lemma {:induction false} SubsequenceDropHead<T>(sub: seq<T>, s: seq<T>)
    requires |sub| > 0 && IsSubsequence(sub, s)
    ensures IsSubsequence(sub[1..], s)
    decreases |s|, |sub|
  {
    if sub[0] != s[0] {
      SubsequenceDropHead(sub, s[1..]);
    }
    SubsequenceOfTail(sub[1..], s);
  }

  /** Every annotation stem found among the waveform stems is chosen as
      often as it is listed, and no other stem is chosen at all. */
  lemma ChoicesMultiplicity(annotationListing: seq<string>, waveStems: seq<string>, c: string)
    ensures multiset(Choices(annotationListing, waveStems))[c] ==
            if c in waveStems then multiset(AnnotationStems(annotationListing))[c] else 0
  {
    KeepMultiplicity(AnnotationStems(annotationListing), waveStems, c);
  }

  /** Filtering keeps every wanted element's multiplicity and drops the rest. */
  lemma {:induction false} KeepMultiplicity(stems: seq<string>, wanted: seq<string>, c: string)
    ensures multiset(Keep(stems, wanted))[c] == if c in wanted then multiset(stems)[c] else 0
  {
    if |stems| > 0 {
      KeepMultiplicity(stems[1..], wanted, c);
      var head := if stems[0] in wanted then [stems[0]] else [];
      assert Keep(stems, wanted) == head + Keep(stems[1..], wanted);
      assert stems == [stems[0]] + stems[1..];
      assert multiset(stems) == multiset([stems[0]]) + multiset(stems[1..]);
      assert multiset(Keep(stems, wanted)) == multiset(head) + multiset(Keep(stems[1..], wanted));
    }
  }

  /** Path concatenation as `teach` writes it: a `/` goes between the
      directory and the file name only when the directory does not already
      end with one. */
  function JoinPath(base: string, name: string): (r: string)
    ensures base <= r
    ensures |r| > |name| && r[|r| - |name|..] == name && r[|r| - |name| - 1] == '/'
    ensures |r| == |base| + |name| + (if |base| > 0 && base[|base| - 1] == '/' then 0 else 1)
  {
    if |base| > 0 && base[|base| - 1] == '/' then base + name
    else base + "/" + name
  }

  /** A chosen track's waveform path ends in a file name whose stem is the
      track again: `choice + "_hex.wav"` names the waveform it came from. */
  lemma WavePathNamesTrack(musicsPath: string, choice: string)
    requires '.' !in choice
    ensures var path := JoinPath(musicsPath, choice + HexTag + ".wav");
            WaveStem(path[|path| - |choice + HexTag + ".wav"|..]) == choice
  {
    WaveStemOfTaggedName(choice, ".wav");
    assert choice + HexTag + ".wav" == choice + (HexTag + ".wav");
  }

  /** `r` is `s[a..b]` and everything cut off on either side is in `chars`. */
  predicate TrimmedSlice(s: string, chars: set<char>, r: string, a: int, b: int) {
    && 0 <= a <= b <= |s|
    && r == s[a..b]
    && (forall i :: 0 <= i < a ==> s[i] in chars)
    && (forall i :: b <= i < |s| ==> s[i] in chars)
  }

  /** Python `s.strip(chars)`: drops leading and trailing characters that are
      in `chars`. Nothing is left exactly when every character is in `chars`. */
  function Strip(s: string, chars: set<char>): (r: string)
    ensures |r| <= |s|
    ensures r != [] ==> r[0] !in chars && r[|r| - 1] !in chars
    ensures r == [] <==> forall i :: 0 <= i < |s| ==> s[i] in chars
    ensures exists a, b :: TrimmedSlice(s, chars, r, a, b)
  {
    var left := StripLeft(s, chars);
    var r := StripRight(left, chars);
    assert left != [] ==> left[0] in r;
    StripIsTrimmedSlice(s, chars, left, r);
    r
  }

  /** Cutting chars-only text off the left, then off the right, leaves a
      trimmed slice. */
  lemma StripIsTrimmedSlice(s: string, chars: set<char>, left: string, r: string)
    requires |left| <= |s| && left == s[|s| - |left|..]
    requires forall i :: 0 <= i < |s| - |left| ==> s[i] in chars
    requires r <= left
    requires forall i :: |r| <= i < |left| ==> left[i] in chars
    ensures TrimmedSlice(s, chars, r, |s| - |left|, |s| - |left| + |r|)
  {
    var a, b := |s| - |left|, |s| - |left| + |r|;
    assert left == s[a..];
    assert r == left[..|r|];
    assert s[a..][..|r|] == s[a..b];
    forall i | b <= i < |s|
      ensures s[i] in chars
    {
      assert s[i] == left[i - a];
    }
  }

  /** Leading characters in `chars` removed. */
  function StripLeft(s: string, chars: set<char>): (r: string)
    ensures |r| <= |s| && r == s[|s| - |r|..]
    ensures r != [] ==> r[0] !in chars
    ensures forall i :: 0 <= i < |s| - |r| ==> s[i] in chars
  {
    if |s| == 0 || s[0] !in chars then s
    else
      var r := StripLeft(s[1..], chars);
      assert forall i :: 1 <= i < |s| ==> s[i] == s[1..][i - 1];
      r
  }

  /** Trailing characters in `chars` removed. */
  function StripRight(s: string, chars: set<char>): (r: string)
    ensures r <= s
    ensures r != [] ==> r[|r| - 1] !in chars
    ensures forall i :: |r| <= i < |s| ==> s[i] in chars
  {
    if |s| == 0 || s[|s| - 1] !in chars then s else StripRight(s[..|s| - 1], chars)
  }
}
