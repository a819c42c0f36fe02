/** Provider versions: finding the one version core in some output, printing it, and its canonical form. */
module Version {
  import opened Decimal
  import opened Options

  datatype Triple = Triple(major: nat, minor: nat, patch: nat) {

    predicate Fits() {
      major <= MAX_UINT64 && minor <= MAX_UINT64 && patch <= MAX_UINT64
    }

    function Text(): string {
      Format(major) + "." + Format(minor) + "." + Format(patch)
    }

    predicate LessThan(other: Triple) {
      || major < other.major
      || (major == other.major && (minor < other.minor || (minor == other.minor && patch < other.patch)))
    }
  }

  datatype Range = Range(minInclusive: Triple, maxExclusive: Triple) {

    predicate Contains(v: Triple) {
      !v.LessThan(minInclusive) && v.LessThan(maxExclusive)
    }
  }

  /** Earlier at the first number that differs. */
  ghost predicate Earlier(v: Triple, w: Triple) {
    var a, b := [v.major, v.minor, v.patch], [w.major, w.minor, w.patch];
    exists k | 0 <= k < 3 :: a[k] < b[k] && forall j | 0 <= j < k :: a[j] == b[j]
  }

  lemma LessIsEarlier(v: Triple, w: Triple)
    ensures v.LessThan(w) <==> Earlier(v, w)
  {
    var a, b := [v.major, v.minor, v.patch], [w.major, w.minor, w.patch];
    if v.LessThan(w) {
      var k := if v.major < w.major then 0 else if v.minor < w.minor then 1 else 2;
      assert a[k] < b[k] && forall j | 0 <= j < k :: a[j] == b[j];
    }
    if Earlier(v, w) {
      var k :| 0 <= k < 3 && a[k] < b[k] && forall j | 0 <= j < k :: a[j] == b[j];
      assert k > 0 ==> a[0] == b[0];
      assert k > 1 ==> a[1] == b[1];
    }
  }

  /** A range has the versions from its lower bound on, that bound included, up to its upper bound, that one left out. */
  lemma RangeIs(r: Range, v: Triple)
    ensures r.Contains(v) <==> (v == r.minInclusive || Earlier(r.minInclusive, v)) && Earlier(v, r.maxExclusive)
    ensures !r.Contains(r.maxExclusive) && (r.Contains(r.minInclusive) <==> Earlier(r.minInclusive, r.maxExclusive))
  {
    hide Earlier;
    LessIsEarlier(v, r.minInclusive);
    LessIsEarlier(r.minInclusive, v);
    LessIsEarlier(v, r.maxExclusive);
    LessIsEarlier(r.minInclusive, r.maxExclusive);
    LessIsEarlier(r.maxExclusive, r.maxExclusive);
  }

  const MAX_OUTPUT_BYTES := 4096

  const MAX_COMPONENT_BYTES := 20

  const MAX_VERSION_BYTES := 32

  datatype Core = Core(start: nat, end: nat, major: string, minor: string, patch: string)

  // ---- finding cores ----

  function DigitsFrom(s: string, start: nat): (end: nat)
    requires start <= |s|
    ensures start <= end <= |s| && AllDigits(s[start..end]) && (end < |s| ==> !IsDigit(s[end]))
    decreases |s| - start
  {
    if start < |s| && IsDigit(s[start]) then
      var end := DigitsFrom(s, start + 1);
      assert s[start..end] == [s[start]] + s[start + 1..end];
      end
    else start
  }

  method ConsumeDigits(s: string, start: nat) returns (end: nat)
    requires start <= |s|
    ensures end == DigitsFrom(s, start)
  {
    end := start;
    while end < |s| && IsDigit(s[end])
      invariant start <= end <= |s| && DigitsFrom(s, start) == DigitsFrom(s, end)
    {
      end := end + 1;
    }
  }

  predicate DigitAt(s: string, i: nat) {
    i < |s| && IsDigit(s[i])
  }

  predicate DotAt(s: string, i: nat) {
    i < |s| && s[i] == '.'
  }

  /** The version core that starts at `start`, if one does. */
  function CoreAt(s: string, start: nat): Option<Core>
    requires start < |s|
  {
    if !DigitAt(s, start) || (start > 0 && DigitAt(s, start - 1)) then None
    else
      var majorEnd := DigitsFrom(s, start);
      if !DotAt(s, majorEnd) || !DigitAt(s, majorEnd + 1) then None
      else
        var minorEnd := DigitsFrom(s, majorEnd + 1);
        if !DotAt(s, minorEnd) || !DigitAt(s, minorEnd + 1) then None
        else
          var patchEnd := DigitsFrom(s, minorEnd + 1);
          Some(Core(start, patchEnd, s[start..majorEnd], s[majorEnd + 1..minorEnd], s[minorEnd + 1..patchEnd]))
  }

  function CoresFrom(s: string, start: nat): seq<Core>
    requires start <= |s|
    decreases |s| - start
  {
    if start == |s| then []
    else (if CoreAt(s, start).Some? then [CoreAt(s, start).value] else []) + CoresFrom(s, start + 1)
  }

  method FindVersionCores(s: string) returns (cores: seq<Core>)
    ensures cores == CoresFrom(s, 0)
  {
    cores := [];
    var start := 0;
    while start < |s|
      invariant 0 <= start <= |s| && cores + CoresFrom(s, start) == CoresFrom(s, 0)
    {
      var here := CoreAt(s, start);
      if here.Some? {
        assert cores + ([here.value] + CoresFrom(s, start + 1)) == (cores + [here.value]) + CoresFrom(s, start + 1);
        cores := cores + [here.value];
      }
      start := start + 1;
    }
  }

  // ---- parsing ----

  /** The number of bytes a character takes in UTF-8. */
  function Width(c: char): nat {
    var n := c as int;
    if n < 0x80 then 1 else if n < 0x800 then 2 else if n < 0x10000 then 3 else 4
  }

  function ByteLength(s: string): nat {
    if s == "" then 0 else ByteLength(s[..|s| - 1]) + Width(s[|s| - 1])
  }

  /** `identifier` says which neighbouring characters make a core part of something longer. */
  predicate Standalone(identifier: char -> bool, s: string, core: Core)
    requires core.start <= |s|
  {
    && (core.start > 0 ==> !identifier(s[core.start - 1]))
    && (core.end < |s| ==> !identifier(s[core.end]))
  }

  function ParseVersion(identifier: char -> bool, output: string): Option<Triple> {
    if output == "" || ByteLength(output) > MAX_OUTPUT_BYTES then None
    else
      var cores := CoresFrom(output, 0);
      if |cores| != 1 || cores[0].start > |output| || !Standalone(identifier, output, cores[0]) then None
      else
        var c := cores[0];
        if |c.major| > MAX_COMPONENT_BYTES || |c.minor| > MAX_COMPONENT_BYTES || |c.patch| > MAX_COMPONENT_BYTES then None
        else
          var major, minor, patch := ParseUint(c.major), ParseUint(c.minor), ParseUint(c.patch);
          if major.None? || minor.None? || patch.None? then None
          else Some(Triple(major.value, minor.value, patch.value))
  }

  /** The ranges of UTF-8 (section 3 of RFC 3629). */
  lemma WidthIs(c: char)
    ensures Width(c) == 1 <==> c as int <= 0x7F
    ensures Width(c) == 2 <==> 0x80 <= c as int <= 0x7FF
    ensures Width(c) == 3 <==> 0x800 <= c as int <= 0xFFFF
    ensures Width(c) == 4 <==> 0x10000 <= c as int
  {
  }

  /** A version is read exactly where there is one core, nothing next to it makes it part of something longer, and its numbers have 64 bits. */
  lemma ParsesExactly(identifier: char -> bool, output: string, v: Triple)
    ensures ParseVersion(identifier, output) == Some(v) <==>
            && 0 < |output| && ByteLength(output) <= 4096 && |CoresFrom(output, 0)| == 1
            && var core := CoresFrom(output, 0)[0];
               && core.start <= |output|
               && (forall k | (k == core.start - 1 || k == core.end) && 0 <= k < |output| :: !identifier(output[k]))
               && (forall digits <- [core.major, core.minor, core.patch] :: |digits| <= 20)
               && [ParseUint(core.major), ParseUint(core.minor), ParseUint(core.patch)] == [Some(v.major), Some(v.minor), Some(v.patch)]
  {
    hide CoresFrom, ByteLength, ParseUint;
    if |CoresFrom(output, 0)| == 1 {
      var core := CoresFrom(output, 0)[0];
      var components := [core.major, core.minor, core.patch];
      assert components[0] in components && components[1] in components && components[2] in components;
    }
  }

  // ---- the round trip ----

  predicate DigitRun(s: string, from: nat, to: nat) {
    from < to <= |s| && forall k :: from <= k < to ==> IsDigit(s[k])
  }

  lemma RunEnds(s: string, from: nat, to: nat)
    requires DigitRun(s, from, to) && (to < |s| ==> !IsDigit(s[to]))
    ensures DigitsFrom(s, from) == to
  {
  }

  predicate TripleShape(s: string, i: nat, j: nat) {
    DigitRun(s, 0, i) && DotAt(s, i) && DigitRun(s, i + 1, j) && DotAt(s, j) && DigitRun(s, j + 1, |s|)
  }

  lemma CoreAtStart(s: string, i: nat, j: nat)
    requires TripleShape(s, i, j)
    ensures CoreAt(s, 0) == Some(Core(0, |s|, s[0..i], s[i + 1..j], s[j + 1..|s|]))
  {
    RunEnds(s, 0, i);
    RunEnds(s, i + 1, j);
    RunEnds(s, j + 1, |s|);
  }

  lemma NoCoreLater(s: string, i: nat, j: nat, k: nat)
    requires TripleShape(s, i, j) && 0 < k < |s|
    ensures CoreAt(s, k).None?
  {
  }

  lemma OneCore(s: string, i: nat, j: nat)
    requires TripleShape(s, i, j)
    ensures CoresFrom(s, 0) == [Core(0, |s|, s[0..i], s[i + 1..j], s[j + 1..|s|])]
  {
    CoreAtStart(s, i, j);
    forall k | 1 <= k < |s|
      ensures CoreAt(s, k).None?
    {
      NoCoreLater(s, i, j, k);
    }
    hide CoreAt;
    NoCoresFrom(s, 1);
  }

  lemma Slices(a: string, b: string, c: string)
    ensures var s := a + "." + b + "." + c;
            && s[..|a|] == a && s[|a|] == '.' && s[|a| + 1..] == b + "." + c
            && s[|a| + 1..|a| + 1 + |b|] == b && s[|a| + 1 + |b|] == '.' && s[|a| + |b| + 2..] == c
  {
  }

  /** Digits, a dot, digits, a dot and digits hold exactly one core. */
  lemma TripleHasOneCore(a: string, b: string, c: string)
    requires AllDigits(a) && AllDigits(b) && AllDigits(c) && a != "" && b != "" && c != ""
    ensures var s := a + "." + b + "." + c; CoresFrom(s, 0) == [Core(0, |s|, a, b, c)]
  {
    var s, i, j := a + "." + b + "." + c, |a|, |a| + 1 + |b|;
    Slices(a, b, c);
    forall k | 0 <= k < |s| && k != i && k != j
      ensures IsDigit(s[k])
    {
      assert s[k] == if k < i then a[k] else if k < j then b[k - i - 1] else c[k - j - 1];
      assert k < i ==> a[k] in a;
      assert i < k < j ==> b[k - i - 1] in b;
      assert j < k ==> c[k - j - 1] in c;
    }
    OneCore(s, i, j);
    assert s[0..i] == s[..|a|] && s[j + 1..|s|] == s[|a| + |b| + 2..];
  }

  lemma {:induction false} NoCoresFrom(s: string, start: nat)
    requires start <= |s| && forall k | start <= k < |s| :: CoreAt(s, k).None?
    ensures CoresFrom(s, start) == []
    decreases |s| - start
  {
    if start < |s| {
      NoCoresFrom(s, start + 1);
    }
  }

  lemma {:induction false} AsciiLength(s: string)
    requires forall c <- s :: IsDigit(c) || c == '.'
    ensures ByteLength(s) == |s|
  {
    if s != "" {
      AsciiLength(s[..|s| - 1]);
      assert s[|s| - 1] in s;
      assert s[|s| - 1] as int <= '9' as int;
    }
  }

  /** Printing a version and parsing it gives it back, for all 64-bit components. */
  lemma ParseText(identifier: char -> bool, v: Triple)
    requires v.Fits()
    ensures ParseVersion(identifier, v.Text()) == Some(v)
  {
    FormatIsCanonical(v.major);
    FormatIsCanonical(v.minor);
    FormatIsCanonical(v.patch);
    Uint64Width(v.major);
    Uint64Width(v.minor);
    Uint64Width(v.patch);
    AsciiLength(v.Text());
    ParseFormat(v.major);
    ParseFormat(v.minor);
    ParseFormat(v.patch);
    hide Format, Value, CoresFrom, AllDigits, ByteLength, ParseUint, NoLeadingZero;
    var a, b, c := Format(v.major), Format(v.minor), Format(v.patch);
    TripleHasOneCore(a, b, c);
    assert v.Text() == a + "." + b + "." + c;
  }

  /** Only 64-bit versions are ever parsed. */
  lemma ParsedFits(identifier: char -> bool, output: string)
    ensures ParseVersion(identifier, output).Some? ==> ParseVersion(identifier, output).value.Fits()
  {
  }

  /** A text that parses to itself is exactly the print of a 64-bit version. */
  lemma ParsesToItself(identifier: char -> bool, s: string)
    ensures (ParseVersion(identifier, s).Some? && ParseVersion(identifier, s).value.Text() == s)
            <==> exists v: Triple :: v.Fits() && v.Text() == s
  {
    if v: Triple :| v.Fits() && v.Text() == s {
      ParseText(identifier, v);
    }
    ParsedFits(identifier, s);
  }

  // ---- the canonical form ----

  /** The first dot, or the length. */
  function DotIndex(s: string): (i: nat)
    ensures i <= |s| && (i < |s| ==> s[i] == '.') && '.' !in s[..i]
  {
    if s == "" || s[0] == '.' then 0
    else
      var rest := DotIndex(s[1..]);
      assert s[..rest + 1] == [s[0]] + s[1..][..rest];
      rest + 1
  }

  predicate CanonicalComponent(s: string) {
    s != "" && !(|s| > 1 && s[0] == '0') && AllDigits(s) && ParseUint(s).Some?
  }

  /** The three components between exactly two dots, each nonempty. */
  function Components(s: string): Option<(string, string, string)> {
    var majorEnd := DotIndex(s);
    if majorEnd == 0 || majorEnd == |s| then None
    else
      var tail := s[majorEnd + 1..];
      var minorWidth := DotIndex(tail);
      if minorWidth == 0 || minorWidth == |tail| then None
      else
        var patch := tail[minorWidth + 1..];
        if patch == "" || DotIndex(patch) != |patch| then None
        else Some((s[..majorEnd], tail[..minorWidth], patch))
  }

  predicate IsCanonicalVersion(s: string) {
    if s == "" then true
    else if ByteLength(s) > MAX_VERSION_BYTES then false
    else
      var parts := Components(s);
      && parts.Some?
      && CanonicalComponent(parts.value.0) && CanonicalComponent(parts.value.1) && CanonicalComponent(parts.value.2)
  }

  lemma {:induction false} DotAfterDigits(a: string, rest: string)
    requires AllDigits(a)
    ensures DotIndex(a + "." + rest) == |a|
  {
    if a != "" {
      assert a[0] in a;
      assert (a + "." + rest)[1..] == a[1..] + "." + rest;
      DotAfterDigits(a[1..], rest);
    }
  }

  lemma {:induction false} NoDotInDigits(a: string)
    requires AllDigits(a)
    ensures DotIndex(a) == |a|
  {
    if a != "" {
      assert a[0] in a;
      NoDotInDigits(a[1..]);
    }
  }

  /** A canonical version is the empty text or the print of a 64-bit version in at most 32 bytes. */
  lemma CanonicalVersionIs(s: string)
    ensures IsCanonicalVersion(s) <==> s == "" || (|s| <= MAX_VERSION_BYTES && exists v: Triple :: v.Fits() && v.Text() == s)
  {
    if s != "" && IsCanonicalVersion(s) {
      var v := CanonicalIsText(s);
    }
    if v: Triple :| v.Fits() && v.Text() == s {
      TextIsCanonical(v);
    }
  }

  lemma ComponentsJoin(s: string)
    requires Components(s).Some?
    ensures var parts := Components(s).value; s == parts.0 + "." + parts.1 + "." + parts.2
  {
  }

  lemma CanonicalIsText(s: string) returns (v: Triple)
    requires s != "" && IsCanonicalVersion(s)
    ensures v.Fits() && v.Text() == s && |s| <= MAX_VERSION_BYTES
  {
    var parts := Components(s).value;
    ComponentsJoin(s);
    CanonicalIsFormat(parts.0);
    CanonicalIsFormat(parts.1);
    CanonicalIsFormat(parts.2);
    v := Triple(Value(parts.0), Value(parts.1), Value(parts.2));
    hide Format, Components, DotIndex, Value;
    TextLength(v);
  }

  lemma Associate(a: string, b: string, c: string)
    ensures a + "." + (b + "." + c) == a + "." + b + "." + c
  {
  }

  lemma TextLength(v: Triple)
    ensures ByteLength(v.Text()) == |v.Text()| && v.Text() != ""
  {
    FormatIsCanonical(v.major);
    FormatIsCanonical(v.minor);
    FormatIsCanonical(v.patch);
    AsciiLength(v.Text());
  }

  lemma TextComponents(a: string, b: string, c: string)
    requires AllDigits(a) && AllDigits(b) && AllDigits(c) && a != "" && b != "" && c != ""
    ensures Components(a + "." + b + "." + c) == Some((a, b, c))
  {
    Associate(a, b, c);
    DotAfterDigits(a, b + "." + c);
    DotAfterDigits(b, c);
    NoDotInDigits(c);
    SplitAt(a, b + "." + c);
    SplitAt(b, c);
    hide DotIndex, AllDigits;
    var s := a + "." + (b + "." + c);
    assert s[..|a|] == a && s[|a| + 1..] == b + "." + c;
  }

  lemma SplitAt(b: string, c: string)
    ensures (b + "." + c)[..|b|] == b && (b + "." + c)[|b| + 1..] == c
  {
  }

  lemma FormatIsComponent(n: nat)
    requires n <= MAX_UINT64
    ensures CanonicalComponent(Format(n)) && AllDigits(Format(n)) && Format(n) != ""
  {
    FormatIsCanonical(n);
  }

  lemma TextIsCanonical(v: Triple)
    requires v.Fits()
    ensures IsCanonicalVersion(v.Text()) <==> |v.Text()| <= MAX_VERSION_BYTES
    ensures v.Text() != ""
  {
    hide Format, Components, CanonicalComponent, AllDigits;
    FormatIsComponent(v.major);
    FormatIsComponent(v.minor);
    FormatIsComponent(v.patch);
    TextLength(v);
    TextComponents(Format(v.major), Format(v.minor), Format(v.patch));
  }
}
