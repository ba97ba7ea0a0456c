/** public/MobileCSSGenerator.js: the analysis of generated CSS (three
    global-match counts, two tests and the verdict drawn from them), the
    generator component's state changes when it asks for mobile CSS, and the
    list of target devices it offers. */
module MobileCss {
  import opened Text
  import opened DevicePresets

  // ---------------------------------------------------------------------
  // Global matches, as `css.match(/.../g)` counts them

  /** The patterns `analyzeCss` counts: a literal, as in /@media/g, and
      /display\s*:\s*V/g for a value V. */
  datatype Pattern = Literal(text: string) | DisplayOf(value: string)

  const MediaPattern: Pattern := Literal("@media")
  const FlexPattern: Pattern := DisplayOf("flex")
  const GridPattern: Pattern := DisplayOf("grid")

  /** A value that can follow `\s*`: it starts with a character that is not
      white space, as "flex" and "grid" do. */
  predicate WellFormed(p: Pattern) {
    match p
    case Literal(t) => t != []
    case DisplayOf(v) => v != [] && !IsJsSpace(v[0])
  }

  /** The pieces of a match of /display\s*:\s*V/ at `i`: the colon at `c` and
      the value at `f`, with only white space in between. */
  ghost predicate IsDisplayMatch(s: string, v: string, i: nat, c: nat, f: nat) {
    && OccursAt(s, "display", i)
    && i + 7 <= c < f && c < |s| && s[c] == ':'
    && OccursAt(s, v, f)
    && (forall k :: i + 7 <= k < c ==> IsJsSpace(s[k]))
    && (forall k :: c < k < f ==> IsJsSpace(s[k]))
  }

  /** Where the match that starts exactly at `i` ends, if there is one. Each
      `\s*` is followed by something that is not white space (the colon, the
      value's first letter), so backtracking into a run of white space never
      helps: only the whole run can be taken. */
  function MatchEndAt(p: Pattern, s: string, i: nat): (r: Option<nat>)
    requires WellFormed(p)
    ensures r.Some? ==> i < r.value <= |s|
  {
    match p
    case Literal(t) =>
      if OccursAt(s, t, i) then Some(i + |t|) else None
    case DisplayOf(v) =>
      if !OccursAt(s, "display", i) then None
      else
        var c := SpaceEnd(s, i + 7);
        if c < |s| && s[c] == ':' then
          var f := SpaceEnd(s, c + 1);
          if OccursAt(s, v, f) then Some(f + |v|) else None
        else None
  }

  /** MatchEndAt finds a match of /display\s*:\s*V/ exactly where there is
      one, and ends it after the value. */
  lemma DisplayMatchExactly(s: string, v: string, i: nat)
    requires WellFormed(DisplayOf(v))
    ensures MatchEndAt(DisplayOf(v), s, i).Some? <==> exists c: nat, f: nat :: IsDisplayMatch(s, v, i, c, f)
    ensures forall c: nat, f: nat :: IsDisplayMatch(s, v, i, c, f) ==> MatchEndAt(DisplayOf(v), s, i) == Some(f + |v|)
  {
    if MatchEndAt(DisplayOf(v), s, i).Some? {
      var c := SpaceEnd(s, i + 7);
      var f := SpaceEnd(s, c + 1);
      assert IsDisplayMatch(s, v, i, c, f);
    }
    forall c: nat, f: nat | IsDisplayMatch(s, v, i, c, f)
      ensures MatchEndAt(DisplayOf(v), s, i) == Some(f + |v|)
    {
      SpaceRunEnds(s, i + 7, c);
      assert s[f..f + |v|][0] == v[0];
      SpaceRunEnds(s, c + 1, f);
    }
  }

  /** Where a match of `p` ends, for each index of `s` where one starts. */
  function MatchEnds(p: Pattern, s: string): (m: seq<Option<nat>>)
    requires WellFormed(p)
    ensures |m| == |s| && EndsAfter(m)
  {
    EndsBeforeAt(p, s, |s|);
    EndsBefore(p, s, |s|)
  }

  /** The entry at each index is where the match starting there ends. */
  lemma MatchEndsAt(p: Pattern, s: string)
    requires WellFormed(p)
    ensures forall i :: 0 <= i < |s| ==> MatchEnds(p, s)[i] == MatchEndAt(p, s, i)
  {
    EndsBeforeAt(p, s, |s|);
  }

  /** The match ends for the indices below `n`. */
  function EndsBefore(p: Pattern, s: string, n: nat): (m: seq<Option<nat>>)
    requires WellFormed(p) && n <= |s|
    ensures |m| == n
  {
    if n == 0 then [] else EndsBefore(p, s, n - 1) + [MatchEndAt(p, s, n - 1)]
  }

  lemma {:induction false} EndsBeforeAt(p: Pattern, s: string, n: nat)
    requires WellFormed(p) && n <= |s|
    ensures forall i :: 0 <= i < n ==> EndsBefore(p, s, n)[i] == MatchEndAt(p, s, i)
  {
    if n > 0 {
      EndsBeforeAt(p, s, n - 1);
    }
  }

  /** Every match ends after its start and within the text. */
  ghost predicate EndsAfter(m: seq<Option<nat>>) {
    forall i :: 0 <= i < |m| && m[i].Some? ==> i < m[i].value <= |m|
  }

  /** The leftmost match at or after `from`: its start and its end. */
  function NextMatch(m: seq<Option<nat>>, from: nat): (r: Option<(nat, nat)>)
    requires EndsAfter(m) && from <= |m|
    decreases |m| - from
    ensures r.Some? ==> from <= r.value.0 < r.value.1 <= |m| && m[r.value.0] == Some(r.value.1)
    ensures r.Some? ==> forall i :: from <= i < r.value.0 ==> m[i].None?
    ensures r.None? ==> forall i :: from <= i < |m| ==> m[i].None?
  {
    if from == |m| then None
    else if m[from].Some? then Some((from, m[from].value))
    else NextMatch(m, from + 1)
  }

  /** The length of `s.match(p)` for a global pattern, 0 for no match: each
      search resumes where the previous match ended. */
  function MatchCount(m: seq<Option<nat>>, from: nat): (n: nat)
    requires EndsAfter(m) && from <= |m|
    decreases |m| - from
    ensures n <= |m| - from
    ensures n == 0 <==> NextMatch(m, from).None?
  {
    match NextMatch(m, from)
    case None => 0
    case Some((_, e)) => 1 + MatchCount(m, e)
  }

  /** The reference count: the number of indices at or after `from` where a
      match starts, overlapping or not. */
  function StartCount(m: seq<Option<nat>>, from: nat): nat
    requires from <= |m|
    decreases |m| - from
  {
    if from == |m| then 0
    else (if m[from].Some? then 1 else 0) + StartCount(m, from + 1)
  }

  /** No match starts inside another. */
  ghost predicate NoOverlap(m: seq<Option<nat>>) {
    forall i, j :: 0 <= i < j < |m| && m[i].Some? && j < m[i].value ==> m[j].None?
  }

  lemma {:induction false} StartsSkip(m: seq<Option<nat>>, a: nat, b: nat)
    requires a <= b <= |m|
    requires forall k :: a <= k < b ==> m[k].None?
    ensures StartCount(m, a) == StartCount(m, b)
    decreases b - a
  {
    if a < b {
      StartsSkip(m, a + 1, b);
    }
  }

  /** When matches cannot overlap, the global count is the number of places
      where the pattern occurs. */
  lemma {:induction false} CountIsStarts(m: seq<Option<nat>>, from: nat)
    requires EndsAfter(m) && from <= |m| && NoOverlap(m)
    ensures MatchCount(m, from) == StartCount(m, from)
    decreases |m| - from
  {
    match NextMatch(m, from)
    case None =>
      StartsSkip(m, from, |m|);
    case Some((i, e)) =>
      StartsSkip(m, from, i);
      StartsSkip(m, i + 1, e);
      CountIsStarts(m, e);
  }

  /** "@media" has only one '@', so two of its occurrences never overlap. */
  lemma MediaNoOverlap(s: string)
    ensures NoOverlap(MatchEnds(MediaPattern, s))
  {
    var m := MatchEnds(MediaPattern, s);
    MatchEndsAt(MediaPattern, s);
    forall i, j | 0 <= i < j < |m| && m[i].Some? && j < m[i].value
      ensures m[j].None?
    {
      assert s[i..i + 6][j - i] == s[j];
      if j + 6 <= |s| {
        assert s[j..j + 6][0] == s[j];
      }
    }
  }

  /** A match of /display\s*:\s*flex/ holds no 'd' after its first letter,
      so no other match starts inside it. */
  lemma FlexNoOverlap(s: string)
    ensures NoOverlap(MatchEnds(FlexPattern, s))
  {
    var m := MatchEnds(FlexPattern, s);
    MatchEndsAt(FlexPattern, s);
    forall i, j | 0 <= i < j < |m| && m[i].Some? && j < m[i].value
      ensures m[j].None?
    {
      FlexHoldsNoD(s, i, j);
      if j + 7 <= |s| {
        assert s[j..j + 7][0] == s[j];
      }
    }
  }

  lemma FlexHoldsNoD(s: string, i: nat, j: nat)
    requires MatchEndAt(FlexPattern, s, i).Some? && i < j < MatchEndAt(FlexPattern, s, i).value
    ensures s[j] != 'd'
  {
    var c := SpaceEnd(s, i + 7);
    var f := SpaceEnd(s, c + 1);
    if j < i + 7 {
      assert s[i..i + 7][j - i] == s[j];
    } else if f <= j {
      assert s[f..f + 4] == "flex";
      assert s[f..f + 4][j - f] == s[j];
    }
  }

  /** The media-query count of `analyzeCss` is the number of occurrences of
      "@media" in the text. */
  lemma MediaCountIsOccurrences(css: string)
    ensures MatchCount(MatchEnds(MediaPattern, css), 0) == StartCount(MatchEnds(MediaPattern, css), 0)
  {
    MediaNoOverlap(css);
    CountIsStarts(MatchEnds(MediaPattern, css), 0);
  }

  /** The flexbox count is the number of places where a
      `display : flex` declaration starts. */
  lemma FlexCountIsOccurrences(css: string)
    ensures MatchCount(MatchEnds(FlexPattern, css), 0) == StartCount(MatchEnds(FlexPattern, css), 0)
  {
    FlexNoOverlap(css);
    CountIsStarts(MatchEnds(FlexPattern, css), 0);
  }

  /** "grid" ends with a 'd', so a match can run into the next "display":
      in "display:gridisplay:grid" matches start at 0 and at 11, but the
      global search, resuming at 12, counts one. */
  lemma GridMatchesCanOverlap(s: string)
    requires s == "display:gridisplay:grid"
    ensures MatchEnds(GridPattern, s)[0] == Some(12)
    ensures MatchEnds(GridPattern, s)[11] == Some(23)
    ensures MatchCount(MatchEnds(GridPattern, s), 0) == 1
    ensures StartCount(MatchEnds(GridPattern, s), 0) >= 2
  {
    var m := MatchEnds(GridPattern, s);
    MatchEndsAt(GridPattern, s);
    assert s[0..7] == "display";
    assert s[8..12] == "grid";
    assert s[11..18] == "display";
    assert s[19..23] == "grid";
    assert m[0] == Some(12);
    assert m[11] == Some(23);
    forall k | 12 <= k < 23 ensures m[k].None? {
      if k + 7 <= |s| {
        assert s[k..k + 7][0] == s[k];
      }
    }
    assert NextMatch(m, 12).None?;
    assert StartCount(m, 11) >= 1;
    assert StartCount(m, 0) >= StartCount(m, 11) + 1 by {
      StartCountGrows(m, 1, 11);
    }
  }

  lemma {:induction false} StartCountGrows(m: seq<Option<nat>>, a: nat, b: nat)
    requires a <= b <= |m|
    ensures StartCount(m, a) >= StartCount(m, b)
    decreases b - a
  {
    if a < b {
      StartCountGrows(m, a + 1, b);
    }
  }

  // ---------------------------------------------------------------------
  // The two tests

  /** /touch-action|tap-highlight-color|user-select/.test(css). */
  predicate HasTouchProperties(css: string)
    ensures HasTouchProperties(css) <==>
      Contains(css, "touch-action") || Contains(css, "tap-highlight-color") || Contains(css, "user-select")
  {
    Includes(css, "touch-action") || Includes(css, "tap-highlight-color") || Includes(css, "user-select")
  }

  /** One of the units vw, vh, vmin, vmax starts at `k`. */
  predicate UnitAt(s: string, k: nat) {
    OccursAt(s, "vw", k) || OccursAt(s, "vh", k) || OccursAt(s, "vmin", k) || OccursAt(s, "vmax", k)
  }

  /** A match of /[0-9]+\s*(vw|vh|vmin|vmax)/ whose last digit is at `j` and
      whose unit starts at `k`. */
  ghost predicate IsUnitMatch(s: string, j: nat, k: nat) {
    j < k <= |s| && IsDecimalDigit(s[j]) && (forall m :: j < m < k ==> IsJsSpace(s[m])) && UnitAt(s, k)
  }

  /** The test scans for a digit whose following white space ends at a
      unit. */
  function UnitFrom(s: string, from: nat): bool
    requires from <= |s|
    decreases |s| - from
  {
    if from == |s| then false
    else (IsDecimalDigit(s[from]) && UnitAt(s, SpaceEnd(s, from + 1))) || UnitFrom(s, from + 1)
  }

  predicate HasViewportUnits(css: string) {
    UnitFrom(css, 0)
  }

  lemma {:induction false} UnitFromWitness(s: string, from: nat) returns (j: nat)
    requires from <= |s| && UnitFrom(s, from)
    ensures from <= j < |s| && IsUnitMatch(s, j, SpaceEnd(s, j + 1))
    decreases |s| - from
  {
    if IsDecimalDigit(s[from]) && UnitAt(s, SpaceEnd(s, from + 1)) {
      j := from;
    } else {
      j := UnitFromWitness(s, from + 1);
    }
  }

  lemma {:induction false} UnitFromReaches(s: string, from: nat, j: nat)
    requires from <= j < |s|
    requires IsDecimalDigit(s[j]) && UnitAt(s, SpaceEnd(s, j + 1))
    ensures UnitFrom(s, from)
    decreases j - from
  {
    if from < j {
      UnitFromReaches(s, from + 1, j);
    }
  }

  /** The viewport-unit test holds exactly when some digit is followed, after
      optional white space, by vw, vh, vmin or vmax. */
  lemma HasViewportUnitsExactly(css: string)
    ensures HasViewportUnits(css) <==> exists j: nat, k: nat :: IsUnitMatch(css, j, k)
  {
    if HasViewportUnits(css) {
      var j := UnitFromWitness(css, 0);
      assert IsUnitMatch(css, j, SpaceEnd(css, j + 1));
    }
    forall j: nat, k: nat | IsUnitMatch(css, j, k) ensures HasViewportUnits(css) {
      assert css[k..k + 2][0] == 'v';
      SpaceRunEnds(css, j + 1, k);
      UnitFromReaches(css, 0, j);
    }
  }

  // ---------------------------------------------------------------------
  // The analysis

  datatype Status = Perfect | Excellent | Good | Basic

  /** A value of the analysis: a count, 'Yes', 'No' or 'N/A'. */
  datatype Metric = Count(n: nat) | Yes | No | NotApplicable

  /** The record `analyzeCss` returns. Its `message` is fixed by the status
      and is given by StatusMessage. */
  datatype Analysis = Analysis(
    status: Status,
    mediaQueries: Metric,
    flexboxUsage: Metric,
    gridUsage: Metric,
    touchProperties: Metric,
    viewportUnits: Metric)

  /** The verdict: excellent with many media queries, flex or grid layouts,
      touch properties and viewport units; basic with no media query, flex or
      grid at all; good otherwise. Never 'perfect', which only the
      already-optimised short cut gives. */
  function Classify(media: nat, flex: nat, grid: nat, touch: bool, units: bool): (st: Status)
    ensures st == Excellent <==> media > 3 && (flex > 2 || grid > 1) && touch && units
    ensures st == Basic <==> media == 0 && flex == 0 && grid == 0
    ensures st == Good <==> !(media > 3 && (flex > 2 || grid > 1) && touch && units) && !(media == 0 && flex == 0 && grid == 0)
    ensures st != Perfect
  {
    if media > 3 && (flex > 2 || grid > 1) && touch && units then Excellent
    else if media == 0 && flex == 0 && grid == 0 then Basic
    else Good
  }

  /** The message that goes with each status. */
  function StatusMessage(st: Status): (m: string)
    ensures m != []
  {
    match st
    case Perfect => "This site is already well-optimized for mobile devices! No additional CSS needed for basic compatibility."
    case Excellent => "Excellent! The generated CSS is highly optimized for mobile devices."
    case Good => "The generated CSS includes mobile-responsive features."
    case Basic => "Basic mobile compatibility. Consider using the \"comprehensive\" optimization level for better results."
  }

  function YesNo(b: bool): (m: Metric)
    ensures m == Yes <==> b
    ensures m == No <==> !b
  {
    if b then Yes else No
  }

  /** analyzeCss. */
  function AnalyzeCss(css: string): (a: Analysis)
    ensures a.mediaQueries.Count? && a.flexboxUsage.Count? && a.gridUsage.Count?
    ensures a.touchProperties in {Yes, No} && a.viewportUnits in {Yes, No}
    ensures a.status == Basic <==> a.mediaQueries.n == 0 && a.flexboxUsage.n == 0 && a.gridUsage.n == 0
    ensures a.status == Excellent <==>
      && a.mediaQueries.n > 3 && (a.flexboxUsage.n > 2 || a.gridUsage.n > 1)
      && a.touchProperties == Yes && a.viewportUnits == Yes
    ensures a.status != Perfect
  {
    var media := MatchCount(MatchEnds(MediaPattern, css), 0);
    var flex := MatchCount(MatchEnds(FlexPattern, css), 0);
    var grid := MatchCount(MatchEnds(GridPattern, css), 0);
    var touch := HasTouchProperties(css);
    var units := HasViewportUnits(css);
    var st := Classify(media, flex, grid, touch, units);
    Analysis(st, Count(media), Count(flex), Count(grid), YesNo(touch), YesNo(units))
  }

  /** What each field of the analysis reports about the text. */
  lemma AnalyzeCssReports(css: string)
    ensures AnalyzeCss(css).mediaQueries == Count(StartCount(MatchEnds(MediaPattern, css), 0))
    ensures AnalyzeCss(css).flexboxUsage == Count(StartCount(MatchEnds(FlexPattern, css), 0))
    ensures AnalyzeCss(css).gridUsage.Count?
    ensures AnalyzeCss(css).touchProperties == Yes <==>
      Contains(css, "touch-action") || Contains(css, "tap-highlight-color") || Contains(css, "user-select")
    ensures AnalyzeCss(css).viewportUnits == Yes <==> exists j: nat, k: nat :: IsUnitMatch(css, j, k)
    ensures AnalyzeCss(css).touchProperties in {Yes, No} && AnalyzeCss(css).viewportUnits in {Yes, No}
  {
    MediaCountIsOccurrences(css);
    FlexCountIsOccurrences(css);
    HasViewportUnitsExactly(css);
  }

  /** Text without "@media" and without any `display : flex` or
      `display : grid` is rated basic, whatever else it holds. */
  lemma NoLayoutIsBasic(css: string)
    requires forall i :: MatchEndAt(MediaPattern, css, i).None?
    requires forall i :: MatchEndAt(FlexPattern, css, i).None?
    requires forall i :: MatchEndAt(GridPattern, css, i).None?
    ensures AnalyzeCss(css).status == Basic
  {
    MatchEndsAt(MediaPattern, css);
    MatchEndsAt(FlexPattern, css);
    MatchEndsAt(GridPattern, css);
  }

  /** The analysis shown by the already-optimised short cut. */
  const PerfectAnalysis: Analysis := Analysis(
    Perfect, NotApplicable, NotApplicable, NotApplicable, NotApplicable, NotApplicable)

  /** The CSS shown by the already-optimised short cut. */
  const AlreadyOptimizedCss: string :=
    "/* This site appears to be already well-optimized for mobile devices! */\n\n/* No additional CSS modifications necessary for basic mobile compatibility. */"

  // ---------------------------------------------------------------------
  // The target-device list

  /** A device the generator offers: its name contains "Mobile", "iPhone",
      "Pixel" or "Samsung". */
  predicate IsMobileName(name: string) {
    Includes(name, "Mobile") || Includes(name, "iPhone") || Includes(name, "Pixel") || Includes(name, "Samsung")
  }

  /** The filter over the presets. */
  function MobileDevices(devices: seq<Device>): (r: seq<Device>)
    ensures |r| <= |devices|
    ensures forall d :: d in r <==> d in devices && IsMobileName(d.name)
  {
    if devices == [] then []
    else (if IsMobileName(devices[0].name) then [devices[0]] else []) + MobileDevices(devices[1..])
  }

  /** Filtering keeps the order of the table: the devices kept from a first
      part come before those kept from the rest. */
  lemma {:induction false} MobileDevicesOfConcat(a: seq<Device>, b: seq<Device>)
    ensures MobileDevices(a + b) == MobileDevices(a) + MobileDevices(b)
  {
    if a != [] {
      assert (a + b)[0] == a[0];
      assert (a + b)[1..] == a[1..] + b;
      MobileDevicesOfConcat(a[1..], b);
    } else {
      assert a + b == b;
    }
  }

  lemma {:induction false} AllMobileKept(ds: seq<Device>)
    requires forall i :: 0 <= i < |ds| ==> IsMobileName(ds[i].name)
    ensures MobileDevices(ds) == ds
  {
    if ds != [] {
      AllMobileKept(ds[1..]);
    }
  }

  lemma {:induction false} NoMobileDropped(ds: seq<Device>)
    requires forall i :: 0 <= i < |ds| ==> !IsMobileName(ds[i].name)
    ensures MobileDevices(ds) == []
  {
    if ds != [] {
      NoMobileDropped(ds[1..]);
    }
  }

  /** The generator offers the first seven presets, in table order: the
      three "Mobile" ones, two iPhones, the Pixel and the Samsung. */
  lemma TargetDevices()
    ensures MobileDevices(Presets) == Presets[..7]
  {
    MobilePresets();
    OtherPresets();
    AllMobileKept(Presets[..7]);
    NoMobileDropped(Presets[7..]);
    MobileDevicesOfConcat(Presets[..7], Presets[7..]);
    assert Presets == Presets[..7] + Presets[7..];
  }

  lemma MobilePresets()
    ensures forall i :: 0 <= i < 7 ==> IsMobileName(Presets[i].name)
  {
    forall i | 0 <= i < 7 ensures IsMobileName(Presets[i].name) {
      var pat := if i < 3 then "Mobile" else if i < 5 then "iPhone" else if i == 5 then "Pixel" else "Samsung";
      assert Presets[i].name[0..|pat|] == pat;
      assert OccursAt(Presets[i].name, pat, 0);
    }
  }

  lemma OtherPresets()
    ensures forall i :: 7 <= i < 11 ==> !IsMobileName(Presets[i].name)
  {
    forall i | 7 <= i < 11 ensures !IsMobileName(Presets[i].name) {
      NotMobile(Presets[i].name);
    }
  }

  /** A name without the letters 'M', 'h', 'x' and 'u' contains none of the
      four words. */
  lemma NotMobile(name: string)
    requires forall i :: 0 <= i < |name| ==> name[i] != 'M' && name[i] != 'h' && name[i] != 'x' && name[i] != 'u'
    ensures !IsMobileName(name)
  {
    LetterAbsent(name, "Mobile", 0);
    LetterAbsent(name, "iPhone", 2);
    LetterAbsent(name, "Pixel", 2);
    LetterAbsent(name, "Samsung", 4);
  }

  /** A word with a letter the text lacks does not occur in it. */
  lemma LetterAbsent(name: string, pat: string, k: nat)
    requires k < |pat| && forall i :: 0 <= i < |name| ==> name[i] != pat[k]
    ensures !Contains(name, pat)
  {
    forall i: nat ensures !OccursAt(name, pat, i) {
      if i + |pat| <= |name| {
        assert name[i..i + |pat|][k] == name[i + k];
      }
    }
  }

  // ---------------------------------------------------------------------
  // The generator component

  datatype Level = Minimal | Standard | Comprehensive

  /** The request body posted to the back end (the pixel ratio, a floating
      point value from the browser, is left out) and where it goes. */
  datatype MobileRequest = MobileRequest(
    endpoint: string,
    url: string,
    projectId: Option<string>,
    deviceName: string,
    width: int,
    height: int,
    orientation: Orientation,
    optimizationLevel: Level,
    isAlreadyOptimized: bool)

  /** How the call to the back end ends: it throws with a message (network,
      JSON), answers with a status that is not ok, or answers with data whose
      `css` field is given or not. */
  datatype FetchOutcome = Thrown(message: string) | NotOk(status: nat, statusText: string) | Received(css: Option<string>)

  /** A project id is used when it is truthy. */
  function Endpoint(projectId: Option<string>): (e: string)
    ensures e == "/api/generate-mobile-css" <==> projectId.Some? && projectId.value != ""
    ensures e == "/api/generate-mobile-css-for-url" <==> !(projectId.Some? && projectId.value != "")
  {
    if projectId.Some? && projectId.value != "" then "/api/generate-mobile-css" else "/api/generate-mobile-css-for-url"
  }

  /** The request for the selected device: its size in the chosen
      orientation. */
  function RequestFor(projectId: Option<string>, url: string, isAlreadyOptimized: bool,
                      d: Device, o: Orientation, level: Level): (q: MobileRequest)
    ensures q.deviceName == d.name
    ensures o == Portrait ==> q.width == d.width && q.height == d.height
    ensures o == Landscape ==> q.width == d.height && q.height == d.width
  {
    var size := Oriented(SizeOf(d), o);
    MobileRequest(Endpoint(projectId), url, projectId, d.name, size.width, size.height, o, level, isAlreadyOptimized)
  }

  /** The CSS the back end returned, when it returned some. */
  function ReceivedCss(outcome: FetchOutcome): Option<string> {
    if outcome.Received? && outcome.css.Some? && outcome.css.value != "" then outcome.css else None
  }

  /** The error shown for an outcome without CSS: the thrown message, or the
      fixed text when that message is empty. */
  function FailureMessage(outcome: FetchOutcome): (m: string)
    ensures m != ""
  {
    match outcome
    case Thrown(message) => if message != "" then message else "Failed to generate mobile CSS"
    case NotOk(status, text) => "Error: " + NumberString(status) + " " + text
    case Received(_) => "No CSS was generated"
  }

  /** The preview iframe as applyCSS finds it: absent, present with a
      document it may not reach (a page of another origin), or present with
      one it can reach. */
  datatype PreviewFrame = NoFrame | Unreachable | Reachable

  const CorsError: string := "Failed to apply CSS to preview. This may be due to CORS restrictions."

  /** What applyCSS leaves behind: the text it writes into the preview's
      style element, if any, and the component's error. */
  datatype Applied = Applied(styleText: Option<string>, error: Option<string>)

  /** applyCSS given the CSS it reads and the error before it: with no
      frame or no CSS it does nothing; otherwise the preview's style becomes
      that CSS and the error is cleared, or, when the document cannot be
      reached, the error names the cross-origin restriction. */
  function ApplyCssEffect(css: string, frame: PreviewFrame, error: Option<string>): (r: Applied)
    ensures r.styleText.Some? <==> css != "" && frame == Reachable
    ensures r.styleText.Some? ==> r.styleText.value == css && r.error.None?
    ensures css == "" || frame == NoFrame ==> r.error == error
    ensures css != "" && frame == Unreachable ==> r.error == Some(CorsError)
  {
    if css == "" || frame == NoFrame then Applied(None, error)
    else if frame == Reachable then Applied(Some(css), None)
    else Applied(None, Some(CorsError))
  }

  /** As written, generateMobileCSS hands applyCSS the `generatedCSS` of the
      render it was created in, so a first generation writes nothing into
      the preview and a later one writes the CSS of the generation before
      it. */
  lemma PreviousCssApplied(previous: string, received: string)
    requires received != "" && previous != received
    ensures ApplyCssEffect("", Reachable, None).styleText.None?
    ensures previous != "" ==> ApplyCssEffect(previous, Reachable, None).styleText == Some(previous)
    ensures ApplyCssEffect(received, Reachable, None).styleText == Some(received)
    ensures ApplyCssEffect(previous, Reachable, None) != ApplyCssEffect(received, Reachable, None)
  {
  }

  class Generator {
    var generatedCss: string
    var isGenerating: bool
    var error: Option<string>
    var selectedDevice: Device
    var orientation: Orientation
    var optimizationLevel: Level
    var analysis: Option<Analysis>

    /** An analysis is shown exactly when CSS is, and it is the analysis of
        that CSS or the already-optimised one with its fixed text. (An error
        can come with both: applyCSS sets one after a success.) */
    ghost predicate Valid()
      reads this
    {
      && (analysis.None? <==> generatedCss == "")
      && (analysis.Some? ==>
            analysis.value == AnalyzeCss(generatedCss)
            || (analysis.value == PerfectAnalysis && generatedCss == AlreadyOptimizedCss))
    }

    constructor()
      ensures Valid()
      ensures generatedCss == "" && !isGenerating && error.None? && analysis.None?
      ensures selectedDevice == Presets[2] && orientation == Portrait && optimizationLevel == Standard
    {
      generatedCss := "";
      isGenerating := false;
      error := None;
      selectedDevice := Presets[2];
      orientation := Portrait;
      optimizationLevel := Standard;
      analysis := None;
    }

    /** The device, orientation and level buttons. */
    method SelectDevice(d: Device)
      modifies this
      requires Valid()
      ensures Valid()
      ensures selectedDevice == d
      ensures generatedCss == old(generatedCss) && error == old(error) && analysis == old(analysis)
      ensures isGenerating == old(isGenerating) && orientation == old(orientation) && optimizationLevel == old(optimizationLevel)
    {
      selectedDevice := d;
    }

    method SetOrientation(o: Orientation)
      modifies this
      requires Valid()
      ensures Valid()
      ensures orientation == o
      ensures generatedCss == old(generatedCss) && error == old(error) && analysis == old(analysis)
      ensures isGenerating == old(isGenerating) && selectedDevice == old(selectedDevice) && optimizationLevel == old(optimizationLevel)
    {
      orientation := o;
    }

    method SetOptimizationLevel(level: Level)
      modifies this
      requires Valid()
      ensures Valid()
      ensures optimizationLevel == level
      ensures generatedCss == old(generatedCss) && error == old(error) && analysis == old(analysis)
      ensures isGenerating == old(isGenerating) && selectedDevice == old(selectedDevice) && orientation == old(orientation)
    {
      optimizationLevel := level;
    }

    /** generateMobileCSS, up to its end: after the short cut's timer has
        fired, or after the back end's outcome. It returns the request that
        was sent, None when nothing was, and the text applyCSS writes into
        the preview. After a success applyCSS runs on the CSS that was shown
        before the request, as the source does. */
    method GenerateMobileCss(projectId: Option<string>, url: string, isAlreadyOptimized: bool,
                             outcome: FetchOutcome, frame: PreviewFrame)
      returns (sent: Option<MobileRequest>, styleText: Option<string>)
      modifies this
      requires Valid()
      ensures Valid()
      ensures !isGenerating
      ensures selectedDevice == old(selectedDevice) && orientation == old(orientation)
      ensures optimizationLevel == old(optimizationLevel)
      ensures sent.None? <==> isAlreadyOptimized && optimizationLevel == Minimal
      ensures sent.None? ==>
        generatedCss == AlreadyOptimizedCss && analysis == Some(PerfectAnalysis) && error.None?
      ensures sent.Some? ==>
        sent.value == RequestFor(projectId, url, isAlreadyOptimized, selectedDevice, orientation, optimizationLevel)
      ensures sent.Some? && ReceivedCss(outcome).Some? ==>
        && generatedCss == ReceivedCss(outcome).value && analysis == Some(AnalyzeCss(generatedCss))
        && styleText == ApplyCssEffect(old(generatedCss), frame, None).styleText
        && error == ApplyCssEffect(old(generatedCss), frame, None).error
      ensures sent.Some? && ReceivedCss(outcome).None? ==>
        generatedCss == "" && analysis.None? && error == Some(FailureMessage(outcome))
      ensures sent.None? || ReceivedCss(outcome).None? ==> styleText.None?
    {
      var shown := generatedCss;
      styleText := None;
      Start();
      if isAlreadyOptimized && optimizationLevel == Minimal {
        ShowAlreadyOptimized();
        return None, None;
      }
      var dimensions := Oriented(SizeOf(selectedDevice), orientation);
      sent := Some(MobileRequest(Endpoint(projectId), url, projectId, selectedDevice.name,
        dimensions.width, dimensions.height, orientation, optimizationLevel, isAlreadyOptimized));
      Finish(outcome);
      if ReceivedCss(outcome).Some? {
        styleText := ApplyCss(shown, frame);
      }
    }

    /** generateMobileCSS as intended: the CSS just received is the one
        written into the preview. */
    method GenerateMobileCssIntended(projectId: Option<string>, url: string, isAlreadyOptimized: bool,
                                     outcome: FetchOutcome, frame: PreviewFrame)
      returns (sent: Option<MobileRequest>, styleText: Option<string>)
      modifies this
      requires Valid()
      ensures Valid()
      ensures !isGenerating
      ensures selectedDevice == old(selectedDevice) && orientation == old(orientation)
      ensures optimizationLevel == old(optimizationLevel)
      ensures sent.None? <==> isAlreadyOptimized && optimizationLevel == Minimal
      ensures sent.None? ==>
        generatedCss == AlreadyOptimizedCss && analysis == Some(PerfectAnalysis) && error.None?
      ensures sent.Some? ==>
        sent.value == RequestFor(projectId, url, isAlreadyOptimized, selectedDevice, orientation, optimizationLevel)
      ensures sent.Some? && ReceivedCss(outcome).Some? ==>
        && generatedCss == ReceivedCss(outcome).value && analysis == Some(AnalyzeCss(generatedCss))
        && (styleText.Some? <==> frame == Reachable)
        && (styleText.Some? ==> styleText.value == generatedCss && error.None?)
        && (frame == NoFrame ==> error.None?)
        && (frame == Unreachable ==> error == Some(CorsError))
      ensures sent.Some? && ReceivedCss(outcome).None? ==>
        generatedCss == "" && analysis.None? && error == Some(FailureMessage(outcome))
      ensures sent.None? || ReceivedCss(outcome).None? ==> styleText.None?
    {
      styleText := None;
      Start();
      if isAlreadyOptimized && optimizationLevel == Minimal {
        ShowAlreadyOptimized();
        return None, None;
      }
      var dimensions := Oriented(SizeOf(selectedDevice), orientation);
      sent := Some(MobileRequest(Endpoint(projectId), url, projectId, selectedDevice.name,
        dimensions.width, dimensions.height, orientation, optimizationLevel, isAlreadyOptimized));
      Finish(outcome);
      if ReceivedCss(outcome).Some? {
        styleText := ApplyCss(generatedCss, frame);
      }
    }

    /** applyCSS with the `generatedCSS` of the render it belongs to: the
        Apply button passes the CSS on show, generateMobileCSS the CSS of
        the render it started from. Returns the text written into the
        preview's style element. */
    method ApplyCss(css: string, frame: PreviewFrame) returns (styleText: Option<string>)
      modifies this
      requires Valid()
      ensures Valid()
      ensures styleText == ApplyCssEffect(css, frame, old(error)).styleText
      ensures error == ApplyCssEffect(css, frame, old(error)).error
      ensures generatedCss == old(generatedCss) && analysis == old(analysis) && isGenerating == old(isGenerating)
      ensures selectedDevice == old(selectedDevice) && orientation == old(orientation)
      ensures optimizationLevel == old(optimizationLevel)
    {
      styleText := None;
      if css == "" || frame == NoFrame {
        return;
      }
      if frame == Reachable {
        styleText := Some(css);
        error := None;
      } else {
        error := Some(CorsError);
      }
    }

    /** The first four state updates: generating, no error, no CSS and no
        analysis. */
    method Start()
      modifies this
      ensures Valid()
      ensures isGenerating && error.None? && generatedCss == "" && analysis.None?
      ensures selectedDevice == old(selectedDevice) && orientation == old(orientation)
      ensures optimizationLevel == old(optimizationLevel)
    {
      isGenerating := true;
      error := None;
      generatedCss := "";
      analysis := None;
    }

    /** What the short cut's timer sets. */
    method ShowAlreadyOptimized()
      modifies this
      requires error.None?
      ensures Valid()
      ensures !isGenerating && error.None?
      ensures generatedCss == AlreadyOptimizedCss && analysis == Some(PerfectAnalysis)
      ensures selectedDevice == old(selectedDevice) && orientation == old(orientation)
      ensures optimizationLevel == old(optimizationLevel)
    {
      isGenerating := false;
      generatedCss := AlreadyOptimizedCss;
      analysis := Some(PerfectAnalysis);
    }

    /** The CSS the back end returned, with its analysis. */
    method ShowCss(css: string)
      modifies this
      requires css != "" && error.None?
      ensures Valid()
      ensures generatedCss == css && analysis == Some(AnalyzeCss(css)) && error.None?
      ensures isGenerating == old(isGenerating) && selectedDevice == old(selectedDevice)
      ensures orientation == old(orientation) && optimizationLevel == old(optimizationLevel)
    {
      generatedCss := css;
      analysis := Some(AnalyzeCss(css));
    }

    /** The rest of the `try` block, the `catch` and the `finally`, once the
        back end's outcome is known. */
    method Finish(outcome: FetchOutcome)
      modifies this
      requires error.None? && generatedCss == "" && analysis.None?
      ensures Valid()
      ensures !isGenerating
      ensures selectedDevice == old(selectedDevice) && orientation == old(orientation)
      ensures optimizationLevel == old(optimizationLevel)
      ensures ReceivedCss(outcome).Some? ==>
        generatedCss == ReceivedCss(outcome).value && analysis == Some(AnalyzeCss(generatedCss)) && error.None?
      ensures ReceivedCss(outcome).None? ==>
        generatedCss == "" && analysis.None? && error == Some(FailureMessage(outcome))
    {
      match ReceivedCss(outcome) {
        case Some(css) => ShowCss(css);
        case None => error := Some(FailureMessage(outcome));
      }
      isGenerating := false;
    }
  }
}
