/** Applying a set of text edits to a source file: right to left in place, or all at once. */
module SourceEdits {
  import opened Options

  type Source = seq<char>

  datatype Edit = Edit(start: int, end: int, replacement: Source)

  predicate InBounds(source: Source, edits: seq<Edit>) {
    forall e <- edits :: 0 <= e.start <= e.end <= |source|
  }

  /** Later starts come first, and of equal starts the longer edit. */
  predicate Before(a: Edit, b: Edit) {
    if a.start == b.start then a.end > b.end else a.start > b.start
  }

  // ---- the stable sort ----

  predicate Sorted(edits: seq<Edit>) {
    forall i, j :: 0 <= i < j < |edits| ==> !Before(edits[j], edits[i])
  }

  /** Puts `e` behind everything it does not precede. */
  function Place(sorted: seq<Edit>, e: Edit): (r: seq<Edit>)
    ensures multiset(r) == multiset(sorted) + multiset{e}
  {
    if sorted == [] then [e]
    else
      var last := sorted[|sorted| - 1];
      assert sorted == sorted[..|sorted| - 1] + [last];
      if Before(e, last) then Place(sorted[..|sorted| - 1], e) + [last] else sorted + [e]
  }

  function StableSort(edits: seq<Edit>): (r: seq<Edit>)
    ensures multiset(r) == multiset(edits)
  {
    if edits == [] then []
    else
      assert edits == edits[..|edits| - 1] + [edits[|edits| - 1]];
      Place(StableSort(edits[..|edits| - 1]), edits[|edits| - 1])
  }

  lemma {:induction false} PlaceKeepsSorted(sorted: seq<Edit>, e: Edit)
    requires Sorted(sorted)
    ensures Sorted(Place(sorted, e))
  {
    if sorted != [] {
      var rest, last := sorted[..|sorted| - 1], sorted[|sorted| - 1];
      if Before(e, last) {
        PlaceKeepsSorted(rest, e);
        forall x | x in Place(rest, e)
          ensures !Before(last, x)
        {
          assert x in multiset(Place(rest, e));
        }
      }
    }
  }

  lemma {:induction false} SortSorts(edits: seq<Edit>)
    ensures Sorted(StableSort(edits))
  {
    if edits != [] {
      SortSorts(edits[..|edits| - 1]);
      PlaceKeepsSorted(StableSort(edits[..|edits| - 1]), edits[|edits| - 1]);
    }
  }

  /** The edits of one range, in the order they were given. */
  function OfRange(edits: seq<Edit>, start: int, end: int): seq<Edit> {
    if edits == [] then []
    else
      OfRange(edits[..|edits| - 1], start, end) + IfOfRange(edits[|edits| - 1], start, end)
  }

  function IfOfRange(e: Edit, start: int, end: int): seq<Edit> {
    if e.start == start && e.end == end then [e] else []
  }

  lemma OfRangeGrows(edits: seq<Edit>, e: Edit, start: int, end: int)
    ensures OfRange(edits + [e], start, end) == OfRange(edits, start, end) + IfOfRange(e, start, end)
  {
  }

  lemma SwapEmpty(a: seq<Edit>, b: seq<Edit>, c: seq<Edit>)
    requires b == [] || c == []
    ensures a + b + c == a + c + b
  {
  }

  lemma {:induction false} PlaceIsStable(sorted: seq<Edit>, e: Edit, start: int, end: int)
    ensures OfRange(Place(sorted, e), start, end) == OfRange(sorted, start, end) + IfOfRange(e, start, end)
  {
    hide OfRange;
    if sorted == [] {
      OfRangeGrows([], e, start, end);
      assert [] + [e] == [e];
    } else {
      var rest, last := sorted[..|sorted| - 1], sorted[|sorted| - 1];
      OfRangeGrows(rest, last, start, end);
      assert rest + [last] == sorted;
      if Before(e, last) {
        PlaceIsStable(rest, e, start, end);
        OfRangeGrows(Place(rest, e), last, start, end);
        SwapEmpty(OfRange(rest, start, end), IfOfRange(e, start, end), IfOfRange(last, start, end));
      } else {
        OfRangeGrows(sorted, e, start, end);
      }
    }
  }

  /** Sorting keeps the order of edits of the same range. */
  lemma {:induction false} SortIsStable(edits: seq<Edit>, start: int, end: int)
    ensures OfRange(StableSort(edits), start, end) == OfRange(edits, start, end)
  {
    hide OfRange, Place;
    if edits != [] {
      var rest, last := edits[..|edits| - 1], edits[|edits| - 1];
      SortIsStable(rest, start, end);
      PlaceIsStable(StableSort(rest), last, start, end);
      OfRangeGrows(rest, last, start, end);
      assert rest + [last] == edits;
    }
  }

  // ---- splicing ----

  /** Right to left, no edit reaches into the one before it. */
  predicate Descends(edits: seq<Edit>) {
    forall i :: 0 < i < |edits| ==> edits[i].end <= edits[i - 1].start
  }

  function Reverse(edits: seq<Edit>): (r: seq<Edit>)
    ensures |r| == |edits|
  {
    if edits == [] then [] else [edits[|edits| - 1]] + Reverse(edits[..|edits| - 1])
  }

  predicate Ascends(source: Source, edits: seq<Edit>, from: int) {
    && 0 <= from <= |source|
    && (edits != [] ==> from <= edits[0].start <= edits[0].end <= |source| && Ascends(source, edits[1..], edits[0].end))
  }

  /** All edits at once: the gaps of the source with the replacements between them. */
  function Splice(source: Source, edits: seq<Edit>, from: int): Source
    requires Ascends(source, edits, from)
  {
    if edits == [] then source[from..]
    else source[from..edits[0].start] + edits[0].replacement + Splice(source, edits[1..], edits[0].end)
  }

  function Position(source: Source, done: seq<Edit>): int {
    if done == [] then |source| else done[|done| - 1].start
  }

  lemma {:induction false} ReverseAscends(source: Source, done: seq<Edit>, from: int)
    requires InBounds(source, done) && Descends(done) && 0 <= from <= Position(source, done)
    ensures Ascends(source, Reverse(done), from)
  {
    if done != [] {
      ReverseAscends(source, done[..|done| - 1], done[|done| - 1].end);
    }
  }

  /** One in-place replacement of the text behind an already spliced tail. */
  lemma SpliceStep(source: Source, done: seq<Edit>, e: Edit, from: int)
    requires InBounds(source, done + [e]) && Descends(done + [e]) && 0 <= from <= e.start
    ensures InBounds(source, done) && Descends(done) && e.end <= Position(source, done)
    ensures Ascends(source, Reverse(done), e.end) && Ascends(source, Reverse(done + [e]), from)
    ensures Splice(source, Reverse(done + [e]), from)
            == source[from..e.start] + e.replacement + Splice(source, Reverse(done), e.end)
  {
    var all := done + [e];
    assert forall x <- done :: x in all;
    assert all[..|done|] == done;
    assert e == all[|done|] && e in all;
    if done != [] {
      assert all[|done|].end <= all[|done| - 1].start;
    }
    ReverseAscends(source, done, e.end);
    ReverseAscends(source, all, from);
    assert all[..|all| - 1] == done;
    assert Reverse(all) == [e] + Reverse(done);
    assert Reverse(all)[1..] == Reverse(done);
  }

  lemma Glue(x: Source, y: Source, r: Source, t: Source)
    ensures (x + y) + r + t == x + (y + r + t)
  {
  }

  lemma CutPoint(x: Source, t: Source, i: nat)
    requires i <= |x|
    ensures (x + t)[..i] == x[..i] && (x + t)[|x|..] == t
  {
  }

  /** The start of a splice can be moved within its first gap. */
  lemma SpliceFrom(source: Source, edits: seq<Edit>, b: int)
    requires 0 <= b && Ascends(source, edits, b) && Ascends(source, edits, 0)
    ensures Splice(source, edits, 0) == source[..b] + Splice(source, edits, b)
  {
    if edits == [] {
      assert source[0..] == source[..b] + source[b..];
    } else {
      var start, r, t := edits[0].start, edits[0].replacement, Splice(source, edits[1..], edits[0].end);
      Halves(source, b, start);
      assert Splice(source, edits, 0) == source[0..start] + r + t;
      assert Splice(source, edits, b) == source[b..start] + r + t;
      hide Splice, Ascends;
      Glue(source[..b], source[b..start], r, t);
    }
  }

  lemma Halves(source: Source, b: int, start: int)
    requires 0 <= b <= start <= |source|
    ensures source[0..start] == source[..b] + source[b..start]
  {
  }

  /** Replacing in the spliced text what lies before everything spliced so far is one more edit. */
  lemma InPlaceStep(source: Source, done: seq<Edit>, e: Edit)
    requires InBounds(source, done + [e]) && Descends(done + [e])
    requires Ascends(source, Reverse(done), 0)
    ensures var result := Splice(source, Reverse(done), 0);
            && 0 <= e.start <= e.end <= |result| && Ascends(source, Reverse(done + [e]), 0)
            && Splice(source, Reverse(done + [e]), 0) == result[..e.start] + e.replacement + result[e.end..]
  {
    assert e in done + [e];
    SpliceStep(source, done, e, 0);
    SpliceFrom(source, Reverse(done), e.end);
    var tail := Splice(source, Reverse(done), e.end);
    CutPoint(source[..e.end], tail, e.start);
    assert source[..e.end][..e.start] == source[0..e.start];
  }

  lemma OneMore(source: Source, sorted: seq<Edit>, k: nat)
    requires k < |sorted| && InBounds(source, sorted) && Descends(sorted[..k]) && (k > 0 ==> sorted[k].end <= sorted[k - 1].start)
    ensures sorted[..k + 1] == sorted[..k] + [sorted[k]] && Descends(sorted[..k + 1]) && InBounds(source, sorted[..k + 1])
  {
  }

  lemma SortedInBounds(source: Source, edits: seq<Edit>)
    requires InBounds(source, edits)
    ensures InBounds(source, StableSort(edits))
  {
    forall e <- StableSort(edits)
      ensures 0 <= e.start <= e.end <= |source|
    {
      assert e in multiset(StableSort(edits));
    }
  }

  /**
   The in-place loop. It succeeds exactly when every edit is in bounds and no two
   neighbours of the sorted order overlap, and then its result is the simultaneous splice.
   */
  method ApplySourceEdits(source: Source, edits: seq<Edit>) returns (r: Option<Source>)
    ensures r.Some? <==> InBounds(source, edits) && Descends(StableSort(edits))
    ensures r.Some? ==> Ascends(source, Reverse(StableSort(edits)), 0)
                        && r.value == Splice(source, Reverse(StableSort(edits)), 0)
  {
    hide StableSort, Splice, Reverse, Ascends;
    var k := 0;
    while k < |edits|
      invariant 0 <= k <= |edits| && InBounds(source, edits[..k])
    {
      if edits[k].start < 0 || edits[k].end < edits[k].start || edits[k].end > |source| {
        assert edits[k] in edits;
        return None;
      }
      k := k + 1;
    }
    assert edits[..k] == edits;
    var sorted := StableSort(edits);
    SortedInBounds(source, edits);
    var previousStart := |source| + 1;
    var result := source;
    k := 0;
    NothingSpliced(source);
    while k < |sorted|
      invariant 0 <= k <= |sorted| && Descends(sorted[..k])
      invariant previousStart == if k == 0 then |source| + 1 else sorted[k - 1].start
      invariant Ascends(source, Reverse(sorted[..k]), 0) && result == Splice(source, Reverse(sorted[..k]), 0)
    {
      var e := sorted[k];
      assert e in sorted;
      if e.end > previousStart {
        assert !Descends(sorted);
        return None;
      }
      OneMore(source, sorted, k);
      InPlaceStep(source, sorted[..k], e);
      result := result[..e.start] + e.replacement + result[e.end..];
      previousStart := e.start;
      k := k + 1;
    }
    assert sorted[..k] == sorted;
    r := Some(result);
  }

  lemma NothingSpliced(source: Source)
    ensures Reverse([]) == [] && Ascends(source, [], 0) && Splice(source, [], 0) == source
  {
  }

  // ---- what a splice keeps ----

  ghost predicate Outside(edits: seq<Edit>, q: int) {
    forall e <- edits :: !(e.start <= q < e.end)
  }

  /** Where the byte at `q` is afterwards. */
  function Shifted(edits: seq<Edit>, q: int): int {
    if edits == [] then q
    else Shifted(edits[1..], q) + if edits[0].end <= q then |edits[0].replacement| - (edits[0].end - edits[0].start) else 0
  }

  lemma {:induction false} NoShiftBefore(source: Source, edits: seq<Edit>, from: int, q: int)
    requires Ascends(source, edits, from) && (edits != [] ==> q < edits[0].start || (q == edits[0].start && q < edits[0].end))
    ensures Shifted(edits, q) == q
  {
    if |edits| > 1 {
      NoShiftBefore(source, edits[1..], edits[0].end, q);
    }
  }

  lemma AtGap(gap: Source, r: Source, t: Source, i: nat)
    requires i < |gap|
    ensures (gap + r + t)[i] == gap[i] && |gap + r + t| > i
  {
  }

  lemma AtTail(gap: Source, r: Source, t: Source, i: nat)
    requires i < |t|
    ensures |gap + r + t| == |gap| + |r| + |t| && (gap + r + t)[|gap| + |r| + i] == t[i]
  {
  }

  /** Every byte outside the edited ranges is kept, shifted by the growth of the edits before it. */
  lemma {:induction false} UntouchedByteKept(source: Source, edits: seq<Edit>, from: int, q: int)
    requires Ascends(source, edits, from) && from <= q < |source| && Outside(edits, q)
    ensures 0 <= Shifted(edits, q) - from < |Splice(source, edits, from)|
    ensures Splice(source, edits, from)[Shifted(edits, q) - from] == source[q]
  {
    if edits != [] {
      var e := edits[0];
      assert e in edits;
      var gap, tail := source[from..e.start], Splice(source, edits[1..], e.end);
      assert Splice(source, edits, from) == gap + e.replacement + tail;
      if q < e.start {
        NoShiftBefore(source, edits, from, q);
        AtGap(gap, e.replacement, tail, q - from);
      } else {
        OutsideRest(edits, q);
        UntouchedByteKept(source, edits[1..], e.end, q);
        AtTail(gap, e.replacement, tail, Shifted(edits[1..], q) - e.end);
      }
    }
  }

  lemma OutsideRest(edits: seq<Edit>, q: int)
    requires edits != [] && Outside(edits, q)
    ensures Outside(edits[1..], q)
  {
  }

  /** Edits that put back what they cover change nothing. */
  lemma {:induction false} IdentityEdits(source: Source, edits: seq<Edit>, from: int)
    requires Ascends(source, edits, from)
    requires forall e <- edits :: 0 <= e.start <= e.end <= |source| && e.replacement == source[e.start..e.end]
    ensures 0 <= from <= |source| && Splice(source, edits, from) == source[from..]
  {
    if edits != [] {
      var e := edits[0];
      assert e in edits;
      IdentityEdits(source, edits[1..], e.end);
      assert source[from..] == source[from..e.start] + source[e.start..e.end] + source[e.end..];
    }
  }
}
