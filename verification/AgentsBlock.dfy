/**
 The bounded block that adoption keeps inside the project's own AGENTS.md.

 `Merge` is the pure merge of core/adoption/service.py; the lemmas show which part of the file it
 owns and which part it never touches. They hold for any pair of markers that cannot overlap; the
 last section shows that the two markers of the source, and its generated block, are of that kind.
 */
module AgentsBlock {
  import opened Prelude

  datatype Markers = Markers(start: string, end: string)

  /** The managed block: the start marker, the generated text, the end marker. */
  function Block(mk: Markers, middle: string): string {
    mk.start + middle + mk.end
  }

  // ---- searching, counting and stripping text

  predicate OccursAt(s: string, m: string, i: nat) {
    i + |m| <= |s| && s[i..i + |m|] == m
  }

  /** The first occurrence of `m` at or after `from` (see `FindIsFirst`). */
  function Find(s: string, m: string, from: nat): (r: Option<nat>)
    requires from <= |s|
    ensures r.Some? ==> from <= r.value && r.value + |m| <= |s|
    decreases |s| - from
  {
    if OccursAt(s, m, from) then Some(from)
    else if from == |s| then None
    else Find(s, m, from + 1)
  }

  lemma {:induction false} FindIsFirst(s: string, m: string, from: nat)
    requires from <= |s|
    ensures var r := Find(s, m, from);
            && (r.Some? ==> OccursAt(s, m, r.value) && forall i: nat :: from <= i < r.value ==> !OccursAt(s, m, i))
            && (r.None? ==> forall i: nat :: from <= i ==> !OccursAt(s, m, i))
    decreases |s| - from
  {
    if !OccursAt(s, m, from) && from < |s| {
      FindIsFirst(s, m, from + 1);
    }
  }

  /** Python's `str.count`: occurrences that do not overlap, scanned from the left. */
  function Count(s: string, m: string, from: nat): nat
    requires 0 < |m| && from <= |s|
    decreases |s| - from
  {
    match Find(s, m, from)
    case None => 0
    case Some(i) => 1 + Count(s, m, i + |m|)
  }

  // ---- the merge and the extraction

  datatype MergeResult =
    | Merged(text: string)
    | Malformed  // unequal or duplicate markers: reported to the owner
    | Crashed    // the end marker precedes the start marker: unpacking the split raises ValueError

  /** Both splits of the source: at the first start marker, then at the first end marker of the remainder. */
  function Split(mk: Markers, text: string): (r: Option<(nat, nat)>)
    requires |mk.start| > 0 && Count(text, mk.start, 0) == 1
    ensures r.Some? ==> r.value.0 + |mk.start| <= r.value.1 && r.value.1 + |mk.end| <= |text|
  {
    var i := Find(text, mk.start, 0).value;
    match Find(text[i + |mk.start|..], mk.end, 0)
    case None => None
    case Some(j) => Some((i, i + |mk.start| + j))
  }

  function Merge(mk: Markers, existing: Option<string>, middle: string): MergeResult
    requires |mk.start| > 0 && |mk.end| > 0
  {
    match existing
    case None => Merged(Block(mk, middle) + "\n")
    case Some(text) =>
      var starts := Count(text, mk.start, 0);
      var ends := Count(text, mk.end, 0);
      if starts != ends || starts > 1 then Malformed
      else if starts == 1 then
        match Split(mk, text)
        case None => Crashed
        case Some((i, j)) => Merged(Frame(mk, RStrip(text[..i]), middle, text[j + |mk.end|..]))
      else Merged(Frame(mk, RStrip(text), middle, "\n"))
  }

  function Frame(mk: Markers, before: string, middle: string, after: string): string {
    before + "\n\n" + Block(mk, middle) + after
  }

  datatype Extraction = Extracted(block: string) | NoBlock | ExtractCrashed

  function Extract(mk: Markers, text: string): Extraction
    requires |mk.start| > 0 && |mk.end| > 0
  {
    if Count(text, mk.start, 0) != 1 || Count(text, mk.end, 0) != 1 then NoBlock
    else
      match Split(mk, text)
      case None => ExtractCrashed
      case Some((i, j)) => Extracted(mk.start + text[i + |mk.start|..j] + mk.end)
  }

  /** No marker at all, or exactly one start marker followed by exactly one end marker. */
  ghost predicate WellMarked(mk: Markers, text: string) {
    || (Lacks(text, mk.start) && Lacks(text, mk.end))
    || exists i: nat, j: nat :: MarkedAt(mk, text, i, j)
  }

  /** The markers occur once each, the start at `i` and the end, after it, at `j`. */
  ghost predicate MarkedAt(mk: Markers, text: string, i: nat, j: nat) {
    && i + |mk.start| <= j
    && OccursOnlyAt(text, mk.start, i)
    && OccursOnlyAt(text, mk.end, j)
  }

  /** The markers occur once each, the end before the start. */
  ghost predicate Misordered(mk: Markers, text: string) {
    exists i: nat, j: nat :: MisorderedAt(mk, text, i, j)
  }

  ghost predicate MisorderedAt(mk: Markers, text: string, i: nat, j: nat) {
    OccursOnlyAt(text, mk.start, i) && OccursOnlyAt(text, mk.end, j) && j < i
  }

  ghost predicate Lacks(s: string, m: string) {
    forall i: nat :: !OccursAt(s, m, i)
  }

  ghost predicate OccursOnlyAt(s: string, m: string, p: nat) {
    OccursAt(s, m, p) && forall i: nat :: OccursAt(s, m, i) ==> i == p
  }

  ghost predicate Clean(mk: Markers, s: string) {
    Lacks(s, mk.start) && Lacks(s, mk.end)
  }

  /** The text adoption does not own: before the block, trailing blanks aside, and after it. */
  ghost predicate SurroundedBy(mk: Markers, text: string, before: string, after: string) {
    if Clean(mk, text) then before == RStrip(text) && after == "\n"
    else exists i: nat, j: nat ::
      && MarkedAt(mk, text, i, j)
      && before == RStrip(text[..i])
      && after == text[j + |mk.end|..]
  }

  // ---- facts about markers

  /** `<` only first, `>` only last, no line break: such a text cannot overlap itself or its neighbours. */
  ghost predicate IsMarker(m: string) {
    && 13 < |m|
    && m[0] == '<' && m[|m| - 1] == '>'
    && (forall k :: 0 < k < |m| ==> m[k] != '<')
    && (forall k :: 0 <= k < |m| - 1 ==> m[k] != '>')
    && (forall k :: 0 <= k < |m| ==> m[k] != '\n')
  }

  ghost predicate GoodMarkers(mk: Markers) {
    IsMarker(mk.start) && IsMarker(mk.end) && mk.start[13] != mk.end[13]
  }

  lemma {:induction false} NoOverlap(s: string, m: string, i: nat, j: nat)
    requires IsMarker(m) && OccursAt(s, m, i) && OccursAt(s, m, j) && i < j
    ensures i + |m| <= j
  {
    assert s[j] == s[j..j + |m|][0];
    assert forall k :: i <= k < i + |m| ==> s[k] == s[i..i + |m|][k - i];
  }

  lemma {:induction false} NoneCountedNoneThere(s: string, m: string, from: nat, i: nat)
    requires 0 < |m| && from <= i && from <= |s| && Count(s, m, from) == 0
    ensures !OccursAt(s, m, i)
  {
    FindIsFirst(s, m, from);
  }

  /** `count == 1` says what it should for a marker: it occurs once, where `find` finds it... */
  lemma {:induction false} CountOneIsSole(s: string, m: string)
    requires IsMarker(m) && Count(s, m, 0) == 1
    ensures OccursOnlyAt(s, m, Find(s, m, 0).value)
  {
    FindIsFirst(s, m, 0);
    var p := Find(s, m, 0).value;
    forall i: nat | OccursAt(s, m, i)
      ensures i == p
    {
      if p < i {
        NoOverlap(s, m, p, i);
        NoneCountedNoneThere(s, m, p + |m|, i);
      }
    }
  }

  /** ...and the other way round. */
  lemma {:induction false} SoleIsCountOne(s: string, m: string, p: nat)
    requires IsMarker(m) && OccursOnlyAt(s, m, p)
    ensures Count(s, m, 0) == 1 && Find(s, m, 0) == Some(p)
  {
    FindIsFirst(s, m, 0);
    FindIsFirst(s, m, p + |m|);
  }

  /** The angle brackets at the block's ends keep every occurrence inside one of the three parts. */
  lemma {:induction false} OccurrenceStaysInOnePart(a: string, b: string, c: string, m: string, i: nat)
    requires IsMarker(m) && |b| > 0 && b[0] == '<' && b[|b| - 1] == '>'
    requires OccursAt(a + b + c, m, i)
    ensures || OccursAt(a, m, i)
            || (|a| <= i && OccursAt(b, m, i - |a|))
            || (|a| + |b| <= i && OccursAt(c, m, i - |a| - |b|))
  {
    var s := a + b + c;
    assert forall x :: i <= x < i + |m| ==> s[x] == s[i..i + |m|][x - i] == m[x - i];
    assert s[|a|] == '<' && s[|a| + |b| - 1] == '>';
    if i + |m| <= |a| {
      assert a[i..i + |m|] == s[i..i + |m|];
    } else if |a| <= i && i + |m| <= |a| + |b| {
      assert b[i - |a|..i - |a| + |m|] == s[i..i + |m|];
    } else if |a| + |b| <= i {
      assert c[i - |a| - |b|..i - |a| - |b| + |m|] == s[i..i + |m|];
    } else {
      assert false;
    }
  }

  lemma {:induction false} MarkersInSandwich(start: string, middle: string, end: string, j: nat)
    requires IsMarker(start) && IsMarker(end) && start[13] != end[13] && '<' !in middle
    ensures var b := start + middle + end;
            && (OccursAt(b, start, j) <==> j == 0)
            && (OccursAt(b, end, j) <==> j == |start| + |middle|)
            && b[0] == '<' && b[|b| - 1] == '>'
  {
  }

  lemma {:induction false} OccursInSlice(s: string, lo: nat, hi: nat, m: string, i: nat)
    requires lo <= hi <= |s|
    ensures OccursAt(s[lo..hi], m, i) <==> lo + i + |m| <= hi && OccursAt(s, m, lo + i)
  {
    if lo + i + |m| <= hi {
      SliceOfSlice(s, lo, hi, i, i + |m|);
    }
  }

  lemma {:induction false} OccursInMiddle(a: string, b: string, c: string, m: string, j: nat)
    requires OccursAt(b, m, j)
    ensures OccursAt(a + b + c, m, |a| + j)
  {
  }

  lemma {:induction false} MarkerIsFound(a: string, b: string, c: string, m: string, j: nat)
    requires IsMarker(m) && |b| > 0 && b[0] == '<' && b[|b| - 1] == '>'
    requires Lacks(a, m) && Lacks(c, m) && OccursOnlyAt(b, m, j)
    ensures OccursOnlyAt(a + b + c, m, |a| + j)
  {
    OccursInMiddle(a, b, c, m, j);
    forall i: nat | OccursAt(a + b + c, m, i)
      ensures i == |a| + j
    {
      OccurrenceStaysInOnePart(a, b, c, m, i);
    }
  }

  /** A block between texts without markers is found again, exactly. */
  lemma {:induction false} BlockIsFound(mk: Markers, a: string, middle: string, c: string)
    requires GoodMarkers(mk) && '<' !in middle && Clean(mk, a) && Clean(mk, c)
    ensures MarkedAt(mk, a + Block(mk, middle) + c, |a|, |a| + |mk.start| + |middle|)
  {
    var b := Block(mk, middle);
    forall j: nat
      ensures OccursAt(b, mk.start, j) <==> j == 0
      ensures OccursAt(b, mk.end, j) <==> j == |mk.start| + |middle|
    {
      MarkersInSandwich(mk.start, middle, mk.end, j);
    }
    MarkersInSandwich(mk.start, middle, mk.end, 0);
    MarkerIsFound(a, b, c, mk.start, 0);
    MarkerIsFound(a, b, c, mk.end, |mk.start| + |middle|);
  }

  lemma {:induction false} LineBreaksHoldNoMarker(a: string, m: string)
    requires IsMarker(m) && Lacks(a, m)
    ensures Lacks(a + "\n\n", m)
  {
    var s := a + "\n\n";
    forall i: nat | OccursAt(s, m, i)
      ensures OccursAt(a, m, i)
    {
      assert s[i + |m| - 1] == s[i..i + |m|][|m| - 1];
      assert a[i..i + |m|] == s[i..i + |m|];
    }
  }

  /** Cutting a text cannot create a marker. */
  lemma {:induction false} SliceLacks(s: string, m: string, lo: nat, hi: nat)
    requires lo <= hi <= |s|
    requires forall i: nat :: lo <= i && i + |m| <= hi ==> !OccursAt(s, m, i)
    ensures Lacks(s[lo..hi], m)
  {
    forall i: nat {
      OccursInSlice(s, lo, hi, m, i);
    }
  }

  lemma {:induction false} RStripForgetsBlanks(s: string)
    ensures RStrip(RStrip(s)) == RStrip(s)
    ensures RStrip(RStrip(s) + "\n\n") == RStrip(s)
  {
    var r := RStrip(s);
    assert (r + "\n\n")[..|r| + 1] == r + "\n";
    assert (r + "\n")[..|r|] == r;
  }

  // ---- what the merge does

  lemma {:induction false} OccursInRest(s: string, lo: nat, m: string, i: nat)
    requires lo <= |s|
    ensures OccursAt(s[lo..], m, i) <==> OccursAt(s, m, lo + i)
  {
  }

  lemma {:induction false} FindInRest(text: string, m: string, k: nat, j: nat)
    requires k <= j && OccursOnlyAt(text, m, j)
    ensures Find(text[k..], m, 0) == Some(j - k)
  {
    OccursInRest(text, k, m, j - k);
    FindIsFirst(text[k..], m, 0);
    var found := Find(text[k..], m, 0);
    if found.Some? {
      OccursInRest(text, k, m, found.value);
    }
  }

  /** The position of both markers, read back through `count` and `find`. */
  lemma {:induction false} SplitFindsMarkers(mk: Markers, text: string, i: nat, j: nat)
    requires GoodMarkers(mk) && MarkedAt(mk, text, i, j)
    ensures Count(text, mk.start, 0) == 1 && Count(text, mk.end, 0) == 1
    ensures Split(mk, text) == Some((i, j))
  {
    SoleIsCountOne(text, mk.end, j);
    StartIsSplit(mk, text, i, j);
  }

  lemma {:induction false} StartIsSplit(mk: Markers, text: string, i: nat, j: nat)
    requires IsMarker(mk.start) && MarkedAt(mk, text, i, j)
    ensures Count(text, mk.start, 0) == 1
    ensures Split(mk, text) == Some((i, j))
  {
    SoleIsCountOne(text, mk.start, i);
    FindInRest(text, mk.end, i + |mk.start|, j);
  }

  lemma {:induction false} SoleAt(text: string, m: string, j: nat)
    requires IsMarker(m) && Count(text, m, 0) == 1 && OccursAt(text, m, j)
    ensures OccursOnlyAt(text, m, j)
  {
    CountOneIsSole(text, m);
  }

  lemma {:induction false} FoundInRest(text: string, m: string, k: nat)
    requires k <= |text| && Find(text[k..], m, 0).Some?
    ensures OccursAt(text, m, k + Find(text[k..], m, 0).value)
  {
    FindIsFirst(text[k..], m, 0);
    OccursInRest(text, k, m, Find(text[k..], m, 0).value);
  }

  lemma {:induction false} SplitStart(mk: Markers, text: string)
    requires IsMarker(mk.start) && Count(text, mk.start, 0) == 1 && Split(mk, text).Some?
    ensures OccursOnlyAt(text, mk.start, Split(mk, text).value.0)
  {
    CountOneIsSole(text, mk.start);
  }

  lemma {:induction false} SplitEndIsThere(mk: Markers, text: string)
    requires 0 < |mk.start| && 0 < |mk.end|
    requires Count(text, mk.start, 0) == 1 && Count(text, mk.end, 0) == 1 && Split(mk, text).Some?
    ensures OccursAt(text, mk.end, Split(mk, text).value.1)
  {
    var k := Split(mk, text).value.0 + |mk.start|;
    assert Split(mk, text).value.1 == k + Find(text[k..], mk.end, 0).value;
    FoundInRest(text, mk.end, k);
  }

  lemma {:induction false} SplitEnd(mk: Markers, text: string)
    requires IsMarker(mk.start) && IsMarker(mk.end)
    requires Count(text, mk.start, 0) == 1 && Count(text, mk.end, 0) == 1 && Split(mk, text).Some?
    ensures OccursOnlyAt(text, mk.end, Split(mk, text).value.1)
  {
    SplitEndIsThere(mk, text);
    SoleAt(text, mk.end, Split(mk, text).value.1);
  }

  lemma {:induction false} SplitMeansMarked(mk: Markers, text: string)
    requires GoodMarkers(mk)
    requires Count(text, mk.start, 0) == 1 && Count(text, mk.end, 0) == 1 && Split(mk, text).Some?
    ensures var (i, j) := Split(mk, text).value; MarkedAt(mk, text, i, j)
  {
    SplitStart(mk, text);
    SplitEnd(mk, text);
  }

  /** Merge and extraction on a marked file, in terms of where its markers are. */
  lemma {:induction false} MergeOfMarked(mk: Markers, text: string, i: nat, j: nat, middle: string)
    requires GoodMarkers(mk) && MarkedAt(mk, text, i, j)
    ensures Merge(mk, Some(text), middle) == Merged(Frame(mk, RStrip(text[..i]), middle, text[j + |mk.end|..]))
  {
    SplitFindsMarkers(mk, text, i, j);
  }

  lemma {:induction false} ExtractOfMarked(mk: Markers, text: string, i: nat, j: nat)
    requires GoodMarkers(mk) && MarkedAt(mk, text, i, j)
    ensures Extract(mk, text) == Extracted(text[i..j + |mk.end|])
  {
    JoinParts(mk, text, i, j);
    SplitFindsMarkers(mk, text, i, j);
  }

  lemma {:induction false} JoinParts(mk: Markers, text: string, i: nat, j: nat)
    requires OccursAt(text, mk.start, i) && OccursAt(text, mk.end, j) && i + |mk.start| <= j
    ensures mk.start + text[i + |mk.start|..j] + mk.end == text[i..j + |mk.end|]
  {
  }

  lemma {:induction false} MergeOfUnmarked(mk: Markers, text: string, middle: string)
    requires GoodMarkers(mk) && Clean(mk, text)
    ensures Merge(mk, Some(text), middle) == Merged(Frame(mk, RStrip(text), middle, "\n"))
    ensures Extract(mk, text) == NoBlock
  {
    FindIsFirst(text, mk.start, 0);
    FindIsFirst(text, mk.end, 0);
  }

  /** Two different markers do not overlap either. */
  lemma {:induction false} MarkersApart(mk: Markers, text: string, i: nat, j: nat)
    requires GoodMarkers(mk)
    ensures OccursAt(text, mk.start, i) && OccursAt(text, mk.end, j) ==> j < i || i + |mk.start| <= j
  {
    if OccursAt(text, mk.start, i) && i <= j < i + |mk.start| && j + |mk.end| <= |text| {
      var k := if i == j then 13 else 0;
      var here, there := text[i..i + |mk.start|], text[j..j + |mk.end|];
      assert here[j + k - i] == text[j + k] == there[k];
      assert mk.start[j + k - i] != mk.end[k];
      assert there != mk.end;
    }
  }

  /** With one marker of each kind the two splits fail exactly when the end comes first. */
  lemma {:induction false} SplitFailsExactly(mk: Markers, text: string)
    requires GoodMarkers(mk) && Count(text, mk.start, 0) == 1 && Count(text, mk.end, 0) == 1
    ensures Split(mk, text).None? <==> Misordered(mk, text)
  {
    CountOneIsSole(text, mk.start);
    CountOneIsSole(text, mk.end);
    var i, j := Find(text, mk.start, 0).value, Find(text, mk.end, 0).value;
    MarkersApart(mk, text, i, j);
    if j < i {
      assert MisorderedAt(mk, text, i, j);
      if Split(mk, text).Some? {
        SplitEnd(mk, text);
      }
    } else {
      SplitFindsMarkers(mk, text, i, j);
    }
  }

  lemma {:induction false} MisorderedCounts(mk: Markers, text: string)
    requires GoodMarkers(mk) && Misordered(mk, text)
    ensures Count(text, mk.start, 0) == 1 && Count(text, mk.end, 0) == 1
  {
    var i: nat, j: nat :| MisorderedAt(mk, text, i, j);
    SoleIsCountOne(text, mk.start, i);
    SoleIsCountOne(text, mk.end, j);
  }

  /**
   The merge raises instead of reporting exactly on the files with one end marker before one start
   marker; with `MergeIsDefined`, every other file it does not merge is reported as malformed.
   */
  lemma {:induction false} MergeCrashesExactly(mk: Markers, text: string, middle: string)
    requires GoodMarkers(mk)
    ensures Merge(mk, Some(text), middle).Crashed? <==> Misordered(mk, text)
  {
    if Count(text, mk.start, 0) == 1 && Count(text, mk.end, 0) == 1 {
      SplitFailsExactly(mk, text);
    } else if Misordered(mk, text) {
      MisorderedCounts(mk, text);
    }
  }

  /** So does the extraction, which otherwise finds a block exactly between two ordered markers. */
  lemma {:induction false} ExtractCrashesExactly(mk: Markers, text: string)
    requires GoodMarkers(mk)
    ensures Extract(mk, text).ExtractCrashed? <==> Misordered(mk, text)
    ensures Extract(mk, text).Extracted? <==> exists i: nat, j: nat :: MarkedAt(mk, text, i, j)
  {
    if Count(text, mk.start, 0) == 1 && Count(text, mk.end, 0) == 1 {
      SplitFailsExactly(mk, text);
      if Split(mk, text).Some? {
        SplitMeansMarked(mk, text);
      }
    } else if Misordered(mk, text) {
      MisorderedCounts(mk, text);
    }
    if i: nat, j: nat :| MarkedAt(mk, text, i, j) {
      ExtractOfMarked(mk, text, i, j);
    }
  }

  /** The shortest such file: the two markers the wrong way round. */
  lemma {:induction false} SwappedMarkersCrash(mk: Markers, middle: string)
    requires GoodMarkers(mk)
    ensures Misordered(mk, mk.end + mk.start)
    ensures Merge(mk, Some(mk.end + mk.start), middle) == Crashed
    ensures Extract(mk, mk.end + mk.start) == ExtractCrashed
  {
    var text := mk.end + mk.start;
    forall k: nat
      ensures OccursAt(text, mk.end, k) <==> k == 0
      ensures OccursAt(text, mk.start, k) <==> k == |mk.end|
    {
      assert mk.end + "" + mk.start == text;
      MarkersInSandwich(mk.end, "", mk.start, k);
    }
    assert MisorderedAt(mk, text, |mk.end|, 0);
    MergeCrashesExactly(mk, text, middle);
    ExtractCrashesExactly(mk, text);
  }

  /** The merge goes through exactly on the well-marked files. */
  lemma {:induction false} MergeIsDefined(mk: Markers, text: string, middle: string)
    requires GoodMarkers(mk)
    ensures Merge(mk, Some(text), middle).Merged? <==> WellMarked(mk, text)
  {
    if i: nat, j: nat :| MarkedAt(mk, text, i, j) {
      MergeOfMarked(mk, text, i, j, middle);
    } else if Merge(mk, Some(text), middle).Merged? {
      if Count(text, mk.start, 0) == 1 {
        SplitMeansMarked(mk, text);
        assert false;
      }
      FindIsFirst(text, mk.start, 0);
      FindIsFirst(text, mk.end, 0);
    } else if Clean(mk, text) {
      MergeOfUnmarked(mk, text, middle);
    }
  }

  /** The two parts of the file that are not the block. */
  lemma {:induction false} SurroundingsOf(mk: Markers, text: string, middle: string, next: string)
      returns (before: string, after: string)
    requires GoodMarkers(mk) && WellMarked(mk, text)
    ensures SurroundedBy(mk, text, before, after)
    ensures Clean(mk, before) && Clean(mk, after) && RStrip(before) == before
    ensures Merge(mk, Some(text), middle) == Merged(Frame(mk, before, middle, after))
    ensures Merge(mk, Some(text), next) == Merged(Frame(mk, before, next, after))
  {
    if Clean(mk, text) {
      before, after := SurroundingsOfUnmarked(mk, text);
      MergeOfUnmarked(mk, text, middle);
      MergeOfUnmarked(mk, text, next);
    } else {
      var i: nat, j: nat :| MarkedAt(mk, text, i, j);
      before, after := SurroundingsOfMarked(mk, text, i, j);
      MergeOfMarked(mk, text, i, j, middle);
      MergeOfMarked(mk, text, i, j, next);
    }
  }

  lemma {:induction false} SurroundingsOfUnmarked(mk: Markers, text: string) returns (before: string, after: string)
    requires GoodMarkers(mk) && Clean(mk, text)
    ensures before == RStrip(text) && after == "\n"
    ensures Clean(mk, before) && Clean(mk, after) && RStrip(before) == before
  {
    before, after := RStrip(text), "\n";
    RStripForgetsBlanks(text);
    assert text[..|text|] == text;
    PrefixIsClean(mk, text, |text|);
  }

  lemma {:induction false} SurroundingsOfMarked(mk: Markers, text: string, i: nat, j: nat)
      returns (before: string, after: string)
    requires GoodMarkers(mk) && MarkedAt(mk, text, i, j)
    ensures before == RStrip(text[..i]) && after == text[j + |mk.end|..]
    ensures Clean(mk, before) && Clean(mk, after) && RStrip(before) == before
  {
    before, after := RStrip(text[..i]), text[j + |mk.end|..];
    RStripForgetsBlanks(text[..i]);
    PrefixIsClean(mk, text, i);
    SuffixIsClean(mk, text, j + |mk.end|);
  }

  lemma {:induction false} PrefixIsClean(mk: Markers, text: string, n: nat)
    requires GoodMarkers(mk) && n <= |text|
    requires forall i: nat :: i + |mk.start| <= n ==> !OccursAt(text, mk.start, i)
    requires forall i: nat :: i + |mk.end| <= n ==> !OccursAt(text, mk.end, i)
    ensures Clean(mk, RStrip(text[..n]))
  {
    var before := RStrip(text[..n]);
    assert before == text[0..|before|];
    SliceLacks(text, mk.start, 0, |before|);
    SliceLacks(text, mk.end, 0, |before|);
  }

  lemma {:induction false} SuffixIsClean(mk: Markers, text: string, n: nat)
    requires GoodMarkers(mk) && n <= |text|
    requires forall i: nat :: n <= i ==> !OccursAt(text, mk.start, i) && !OccursAt(text, mk.end, i)
    ensures Clean(mk, text[n..])
  {
    assert text[n..] == text[n..|text|];
    SliceLacks(text, mk.start, n, |text|);
    SliceLacks(text, mk.end, n, |text|);
  }

  /** A text the merge wrote is read back: the same surroundings, and exactly the generated block. */
  lemma {:induction false} FrameReadsBack(mk: Markers, before: string, middle: string, after: string, next: string)
    requires GoodMarkers(mk) && '<' !in middle
    requires Clean(mk, before) && Clean(mk, after) && RStrip(before) == before
    ensures var t := Frame(mk, before, middle, after);
            && WellMarked(mk, t)
            && SurroundedBy(mk, t, before, after)
            && Extract(mk, t) == Extracted(Block(mk, middle))
            && Merge(mk, Some(t), next) == Merged(Frame(mk, before, next, after))
  {
    var t := Frame(mk, before, middle, after);
    var i := |before| + 2;
    var j := i + |mk.start| + |middle|;
    LineBreaksHoldNoMarker(before, mk.start);
    LineBreaksHoldNoMarker(before, mk.end);
    BlockIsFound(mk, before + "\n\n", middle, after);
    RStripForgetsBlanks(before);
    CutBlock(before + "\n\n", Block(mk, middle), after);
    MergeOfMarked(mk, t, i, j, next);
    ExtractOfMarked(mk, t, i, j);
  }

  lemma {:induction false} CutBlock(a: string, b: string, c: string)
    ensures (a + b + c)[..|a|] == a
    ensures (a + b + c)[|a|..|a| + |b|] == b
    ensures (a + b + c)[|a| + |b|..] == c
  {
  }

  /**
   Merging into a well-marked file replaces the block and the blanks before it and nothing else; the
   generated block is what verification extracts; and a later merge, with the same or with another
   autonomy level, gives what it would have given on the original file. With one level this is idempotence.
   */
  lemma {:induction false} MergeReplacesOnlyTheBlock(mk: Markers, text: string, middle: string, next: string)
    requires GoodMarkers(mk) && '<' !in middle && WellMarked(mk, text)
    ensures Merge(mk, Some(text), middle).Merged?
    ensures var t := Merge(mk, Some(text), middle).text;
            && WellMarked(mk, t)
            && (exists before, after ::
                  && SurroundedBy(mk, text, before, after)
                  && SurroundedBy(mk, t, before, after)
                  && t == Frame(mk, before, middle, after))
            && Extract(mk, t) == Extracted(Block(mk, middle))
            && Merge(mk, Some(t), next) == Merge(mk, Some(text), next)
  {
    var before, after := SurroundingsOf(mk, text, middle, next);
    FrameReadsBack(mk, before, middle, after, next);
  }

  /** A file created from nothing reaches the fixed point one merge later. */
  lemma {:induction false} FreshFileSettlesAfterOneMerge(mk: Markers, middle: string, next: string)
    requires GoodMarkers(mk) && '<' !in middle && '<' !in next
    ensures var t0 := Block(mk, middle) + "\n";
            var t1 := Frame(mk, "", next, "\n");
            && Merge(mk, None, middle) == Merged(t0)
            && WellMarked(mk, t0)
            && Extract(mk, t0) == Extracted(Block(mk, middle))
            && Merge(mk, Some(t0), next) == Merged(t1)
            && t1 != t0
            && Merge(mk, Some(t1), next) == Merged(t1)
  {
    var t0 := Block(mk, middle) + "\n";
    assert Clean(mk, "\n") && Clean(mk, "");
    BlockIsFound(mk, "", middle, "\n");
    assert "" + Block(mk, middle) + "\n" == t0;
    CutBlock("", Block(mk, middle), "\n");
    assert RStrip(t0[..0]) == "";
    MergeOfMarked(mk, t0, 0, |mk.start| + |middle|, next);
    ExtractOfMarked(mk, t0, 0, |mk.start| + |middle|);
    assert t0[0] == mk.start[0] == '<';
    assert Frame(mk, "", next, "\n")[0] == '\n';
    FrameReadsBack(mk, "", next, "\n", next);
  }
}
