/** lib/utils.js, extractCSSProperties: the global regular expression
    /([a-zA-Z-]+)\s*:\s*([^;]+);/g is run with repeated `exec` calls whose
    hidden `lastIndex` cursor moves past each match, and every match writes
    its name and trimmed value into a plain object. */
module CssProperties {
  import opened Text

  /** One match of the declaration pattern: it starts at `start`, has
      property name `name`, its ':' at index `colon`, `capture` is all the
      text between the ':' and the ';', and `end` is the index just past
      that ';'. The regular expression's second `\s*` takes the white space
      at the front of `capture` out of group 2 (all of it but one character
      when `capture` is only white space), so group 2 and `capture` differ
      only in leading white space and trim to the same value. */
  datatype Decl = Decl(start: nat, name: string, colon: nat, capture: string, end: nat)

  predicate IsNameChar(c: char) {
    ('a' <= c <= 'z') || ('A' <= c <= 'Z') || c == '-'
  }

  ghost predicate IsName(s: string) {
    |s| > 0 && forall i :: 0 <= i < |s| ==> IsNameChar(s[i])
  }

  /** End of the run of name characters that starts at `i`. */
  function NameEnd(s: string, i: nat): (j: nat)
    requires i <= |s|
    decreases |s| - i
    ensures i <= j <= |s|
    ensures forall k :: i <= k < j ==> IsNameChar(s[k])
    ensures j < |s| ==> !IsNameChar(s[j])
  {
    if i < |s| && IsNameChar(s[i]) then NameEnd(s, i + 1) else i
  }

  /** Index of the first ';' at or after `i`. */
  function NextSemicolon(s: string, i: nat): (r: Option<nat>)
    requires i <= |s|
    decreases |s| - i
    ensures r.Some? ==> i <= r.value < |s| && s[r.value] == ';'
    ensures r.Some? ==> forall k :: i <= k < r.value ==> s[k] != ';'
    ensures r.None? ==> forall k :: i <= k < |s| ==> s[k] != ';'
  {
    if i == |s| then None
    else if s[i] == ';' then Some(i)
    else NextSemicolon(s, i + 1)
  }

  /** What a match of the pattern in `s` is: a name written at `d.start`,
      then nothing but white space up to a ':' at `d.colon`, then at least
      one character and no ';' (the capture), then the ';' just before
      `d.end`. */
  ghost predicate IsMatch(s: string, d: Decl) {
    && d.start + |d.name| < d.end <= |s|
    && IsName(d.name) && s[d.start..d.start + |d.name|] == d.name
    && d.start + |d.name| <= d.colon && d.colon + 1 < d.end - 1 && s[d.colon] == ':'
    && (forall k :: d.start + |d.name| <= k < d.colon ==> IsJsSpace(s[k]))
    && s[d.end - 1] == ';'
    && (forall k :: d.start <= k < d.end - 1 ==> s[k] != ';')
    && d.capture == s[d.colon + 1..d.end - 1]
  }

  /** The pattern tried at exactly index `i`. The name is the whole run of
      name characters from `i` (a shorter one would leave a name character
      where `\s*:` must follow); the white space before ':' is taken
      greedily; `[^;]+;` then needs some text before the next ';', and the
      capture is all of that text. */
  function MatchAt(s: string, i: nat): (r: Option<Decl>)
    requires i <= |s|
    ensures r.Some? ==> r.value.start == i < r.value.end <= |s|
  {
    if i < |s| && IsNameChar(s[i]) then
      var j := NameEnd(s, i);
      var c := SpaceEnd(s, j);
      if c < |s| && s[c] == ':' then
        var semi := NextSemicolon(s, c + 1);
        if semi.Some? && semi.value > c + 1 then
          var e := semi.value;
          Some(Decl(i, s[i..j], c, s[c + 1..e], e + 1))
        else None
      else None
    else None
  }

  /** What MatchAt finds is a match of the pattern. */
  lemma MatchAtIsMatch(s: string, i: nat)
    requires i <= |s|
    ensures MatchAt(s, i).Some? ==> IsMatch(s, MatchAt(s, i).value)
  {
    if MatchAt(s, i).Some? {
      var j := NameEnd(s, i);
      var c := SpaceEnd(s, j);
      PiecesFormMatch(s, i, j, c, NextSemicolon(s, c + 1).value);
    }
  }

  /** The pieces MatchAt finds form a match: a name run `s[i..j]`, white
      space up to the ':' at `c`, and text up to the ';' at `e`. */
  lemma PiecesFormMatch(s: string, i: nat, j: nat, c: nat, e: nat)
    requires i < j <= c < e < |s| && c + 1 < e
    requires forall k :: i <= k < j ==> IsNameChar(s[k])
    requires forall k :: j <= k < c ==> IsJsSpace(s[k])
    requires s[c] == ':' && s[e] == ';'
    requires forall k :: c < k < e ==> s[k] != ';'
    ensures IsMatch(s, Decl(i, s[i..j], c, s[c + 1..e], e + 1))
  {
    var d := Decl(i, s[i..j], c, s[c + 1..e], e + 1);
    assert s[d.colon + 1..d.end - 1] == s[c + 1..e];
    assert IsName(d.name) by {
      forall k | 0 <= k < |d.name| ensures IsNameChar(d.name[k]) {
        assert d.name[k] == s[i + k];
      }
    }
    forall k | i <= k < e ensures s[k] != ';' {
      if k < j { assert IsNameChar(s[k]); }
      else if k < c { assert IsJsSpace(s[k]); }
    }
  }

  /** Every match of the pattern at an index is the one MatchAt finds there:
      the regular expression has no other way to match at `d.start`. */
  lemma MatchAtComplete(s: string, d: Decl)
    requires IsMatch(s, d)
    ensures MatchAt(s, d.start) == Some(d)
  {
    var i, j := d.start, d.start + |d.name|;
    assert s[i] == d.name[0];
    forall k | i <= k < j ensures IsNameChar(s[k]) {
      assert s[k] == d.name[k - i];
    }
    assert !IsNameChar(s[j]) by {
      if j < d.colon { assert IsJsSpace(s[j]); }
    }
    NameRunEnds(s, i, j);
    SpaceRunEnds(s, j, d.colon);
    SemicolonAt(s, d.colon + 1, d.end - 1);
    assert s[i..j] == d.name;
  }

  /** The run of name characters from `i` ends at the first character that
      is not one. */
  lemma {:induction false} NameRunEnds(s: string, i: nat, j: nat)
    requires i <= j <= |s|
    requires forall k :: i <= k < j ==> IsNameChar(s[k])
    requires j < |s| ==> !IsNameChar(s[j])
    ensures NameEnd(s, i) == j
    decreases j - i
  {
    if i < j {
      NameRunEnds(s, i + 1, j);
    }
  }

  /** The first ';' from `i` on is the one with none before it. */
  lemma {:induction false} SemicolonAt(s: string, i: nat, e: nat)
    requires i <= e < |s| && s[e] == ';'
    requires forall k :: i <= k < e ==> s[k] != ';'
    ensures NextSemicolon(s, i) == Some(e)
    decreases e - i
  {
    if i < e {
      SemicolonAt(s, i + 1, e);
    }
  }

  /** What `exec` returns when called with the cursor at `from`: the
      leftmost match that starts at or after `from`. */
  function FirstMatch(s: string, from: nat): (r: Option<Decl>)
    requires from <= |s|
    decreases |s| - from
    ensures r.Some? ==> from <= r.value.start < r.value.end <= |s| && MatchAt(s, r.value.start) == r
  {
    if from == |s| then None
    else if MatchAt(s, from).Some? then MatchAt(s, from)
    else FirstMatch(s, from + 1)
  }

  /** The match `exec` returns is the leftmost one: no match of the
      pattern starts between the cursor and its start. */
  lemma FirstMatchIsLeftmost(s: string, from: nat)
    requires from <= |s| && FirstMatch(s, from).Some?
    ensures IsMatch(s, FirstMatch(s, from).value)
    ensures forall d: Decl :: from <= d.start < FirstMatch(s, from).value.start ==> !IsMatch(s, d)
  {
    MatchAtIsMatch(s, FirstMatch(s, from).value.start);
    FirstMatchMisses(s, from);
    forall d: Decl | from <= d.start < FirstMatch(s, from).value.start && IsMatch(s, d) ensures false {
      MatchAtComplete(s, d);
    }
  }

  lemma {:induction false} FirstMatchMisses(s: string, from: nat)
    requires from <= |s| && FirstMatch(s, from).Some?
    ensures forall i :: from <= i < FirstMatch(s, from).value.start ==> MatchAt(s, i).None?
    decreases |s| - from
  {
    if MatchAt(s, from).None? {
      assert FirstMatch(s, from) == FirstMatch(s, from + 1);
      FirstMatchMisses(s, from + 1);
    } else {
      assert FirstMatch(s, from).value.start == from;
    }
  }

  /** When `exec` finds nothing, no match of the pattern starts at or after
      the cursor. */
  lemma NoMatchAfter(s: string, from: nat)
    requires from <= |s| && FirstMatch(s, from).None?
    ensures forall d: Decl :: from <= d.start ==> !IsMatch(s, d)
  {
    NoMatchAtAfter(s, from);
    forall d: Decl | from <= d.start && IsMatch(s, d) ensures false {
      MatchAtComplete(s, d);
    }
  }

  lemma {:induction false} NoMatchAtAfter(s: string, from: nat)
    requires from <= |s| && FirstMatch(s, from).None?
    ensures forall i :: from <= i <= |s| ==> MatchAt(s, i).None?
    decreases |s| - from
  {
    if from < |s| {
      NoMatchAtAfter(s, from + 1);
    }
  }

  /** Every match the exec loop sees once its cursor is at `from`, in order. */
  function Matches(s: string, from: nat): seq<Decl>
    requires from <= |s|
    decreases |s| - from
  {
    match FirstMatch(s, from)
    case None => []
    case Some(d) => [d] + Matches(s, d.end)
  }

  /** Writing the matches into the object one after the other. */
  function Record(m: map<string, string>, ds: seq<Decl>): map<string, string>
    decreases |ds|
  {
    if ds == [] then m else Record(m[ds[0].name := Trim(ds[0].capture)], ds[1..])
  }

  /** The object extractCSSProperties returns. */
  function Properties(css: string): map<string, string> {
    Record(map[], Matches(css, 0))
  }

  /** One call of `regex.exec(css)` with the cursor at `lastIndex`: a scan
      that tries the pattern at each index in turn. */
  method Exec(css: string, lastIndex: nat) returns (m: Option<Decl>)
    requires lastIndex <= |css|
    ensures m == FirstMatch(css, lastIndex)
  {
    var i := lastIndex;
    while i < |css|
      invariant lastIndex <= i <= |css|
      invariant forall k :: lastIndex <= k < i ==> MatchAt(css, k).None?
    {
      var r := MatchAt(css, i);
      if r.Some? {
        FirstMatchAfterMisses(css, lastIndex, i);
        return r;
      }
      i := i + 1;
    }
    FirstMatchAfterMisses(css, lastIndex, i);
    return None;
  }

  /** Indices where the pattern does not match can be skipped. */
  lemma {:induction false} FirstMatchAfterMisses(s: string, from: nat, i: nat)
    requires from <= i <= |s|
    requires forall k :: from <= k < i ==> MatchAt(s, k).None?
    ensures FirstMatch(s, from) == FirstMatch(s, i)
    decreases i - from
  {
    if from < i {
      assert FirstMatch(s, from) == FirstMatch(s, from + 1);
      FirstMatchAfterMisses(s, from + 1, i);
    }
  }

  /** extractCSSProperties: loop on `exec`, storing each match. */
  method ExtractCssProperties(css: string) returns (properties: map<string, string>)
    ensures properties == Properties(css)
  {
    properties := map[];
    var lastIndex := 0;
    var done := false;
    while !done
      invariant lastIndex <= |css|
      invariant !done ==> Record(properties, Matches(css, lastIndex)) == Properties(css)
      invariant done ==> properties == Properties(css)
      decreases |css| - lastIndex, if done then 0 else 1
    {
      var m := Exec(css, lastIndex);
      match m {
        case None =>
          done := true;
        case Some(d) =>
          properties := properties[d.name := Trim(d.capture)];
          lastIndex := d.end;
      }
    }
  }

  // ---------------------------------------------------------------------
  // Properties of the matches and of the resulting object

  /** Matches are found left to right and do not overlap: each starts at or
      after the end of the one before, and all lie inside the text. */
  lemma {:induction false} MatchesOrdered(s: string, from: nat)
    requires from <= |s|
    ensures forall k :: 0 <= k < |Matches(s, from)| ==>
      from <= Matches(s, from)[k].start < Matches(s, from)[k].end <= |s|
    ensures forall k :: 0 <= k < |Matches(s, from)| - 1 ==>
      Matches(s, from)[k].end <= Matches(s, from)[k + 1].start
    decreases |s| - from
  {
    match FirstMatch(s, from)
    case None =>
    case Some(d) =>
      MatchesOrdered(s, d.end);
  }

  /** Every match is a genuine match of the pattern at its start index. */
  lemma {:induction false} MatchesAreMatches(s: string, from: nat)
    requires from <= |s|
    ensures forall d :: d in Matches(s, from) ==> IsMatch(s, d)
    decreases |s| - from
  {
    match FirstMatch(s, from)
    case None =>
    case Some(d) =>
      MatchAtIsMatch(s, d.start);
      MatchesAreMatches(s, d.end);
  }

  /** Each match holds exactly one ';', its last character, so a ';' ends at
      most one recorded declaration. */
  lemma MatchHoldsOneSemicolon(s: string, d: Decl, k: nat)
    requires d in Matches(s, 0)
    requires d.start <= k < d.end
    ensures d.end <= |s| && (s[k] == ';' <==> k == d.end - 1)
  {
    MatchesAreMatches(s, 0);
    assert IsMatch(s, d);
    SemicolonOfMatch(s, d, k);
  }

  lemma SemicolonOfMatch(s: string, d: Decl, k: nat)
    requires IsMatch(s, d)
    requires d.start <= k < d.end
    ensures d.end <= |s| && (s[k] == ';' <==> k == d.end - 1)
  {
    if k < d.end - 1 {
      assert s[k] != ';';
    }
  }

  /** A declaration needs its ';': text with no ';' yields an empty object. */
  lemma NoSemicolonNoProperties(css: string)
    requires forall k :: 0 <= k < |css| ==> css[k] != ';'
    ensures Properties(css) == map[]
  {
    NoSemicolonAfter(css, 0);
  }

  lemma {:induction false} RecordKeys(m: map<string, string>, ds: seq<Decl>)
    ensures Record(m, ds).Keys == m.Keys + set d | d in ds :: d.name
    decreases |ds|
  {
    if ds != [] {
      RecordKeys(m[ds[0].name := Trim(ds[0].capture)], ds[1..]);
      assert forall d :: d in ds <==> d == ds[0] || d in ds[1..];
    }
  }

  /** The object's keys are exactly the names matched, nothing else. */
  lemma PropertiesKeys(css: string)
    ensures Properties(css).Keys == set d | d in Matches(css, 0) :: d.name
  {
    RecordKeys(map[], Matches(css, 0));
  }

  /** Every key is a non-empty run of ASCII letters and '-', as written in
      the text (no case folding). */
  lemma PropertiesKeysAreNames(css: string)
    ensures forall name :: name in Properties(css) ==> IsName(name)
  {
    PropertiesKeys(css);
    MatchesAreMatches(css, 0);
  }

  /** Every value is trimmed and holds no ';'. */
  lemma PropertiesValuesTrimmed(css: string)
    ensures forall name :: name in Properties(css) ==>
      Trimmed(Properties(css)[name]) && ';' !in Properties(css)[name]
  {
    MatchesAreMatches(css, 0);
    ValuesFromMatches(map[], Matches(css, 0));
    forall d | d in Matches(css, 0)
      ensures Trimmed(Trim(d.capture)) && ';' !in Trim(d.capture)
    {
      CaptureHasNoSemicolon(css, d);
      TrimHasNo(d.capture, ';');
    }
  }

  lemma CaptureHasNoSemicolon(s: string, d: Decl)
    requires IsMatch(s, d)
    ensures ';' !in d.capture
  {
    forall k | 0 <= k < |d.capture| ensures d.capture[k] != ';' {
      assert d.capture[k] == s[d.colon + 1 + k];
    }
  }

  /** Every value in the object is the value of some match with that name. */
  lemma {:induction false} ValuesFromMatches(m: map<string, string>, ds: seq<Decl>)
    ensures forall name :: name in Record(m, ds) ==>
      (name in m && Record(m, ds)[name] == m[name]) || exists d :: d in ds && d.name == name && Trim(d.capture) == Record(m, ds)[name]
    decreases |ds|
  {
    if ds != [] {
      ValuesFromMatches(m[ds[0].name := Trim(ds[0].capture)], ds[1..]);
    }
  }

  /** The last write to a name wins: if match `k` is the last one with its
      name, the object maps that name to match `k`'s value. */
  lemma {:induction false} RecordLastWins(m: map<string, string>, ds: seq<Decl>, k: nat)
    requires k < |ds|
    requires forall j :: k < j < |ds| ==> ds[j].name != ds[k].name
    ensures ds[k].name in Record(m, ds) && Record(m, ds)[ds[k].name] == Trim(ds[k].capture)
    decreases |ds|
  {
    if k == 0 {
      RecordUntouched(m[ds[0].name := Trim(ds[0].capture)], ds[1..], ds[0].name);
    } else {
      RecordLastWins(m[ds[0].name := Trim(ds[0].capture)], ds[1..], k - 1);
    }
  }

  /** Names that no later match writes keep their current value. */
  lemma {:induction false} RecordUntouched(m: map<string, string>, ds: seq<Decl>, name: string)
    requires forall j :: 0 <= j < |ds| ==> ds[j].name != name
    ensures (name in Record(m, ds)) == (name in m)
    ensures name in m ==> Record(m, ds)[name] == m[name]
    decreases |ds|
  {
    if ds != [] {
      RecordUntouched(m[ds[0].name := Trim(ds[0].capture)], ds[1..], name);
    }
  }

  /** When a property name occurs more than once, the value of its last
      occurrence is the one kept. */
  lemma LastOccurrenceWins(css: string, k: nat)
    requires k < |Matches(css, 0)|
    requires forall j :: k < j < |Matches(css, 0)| ==> Matches(css, 0)[j].name != Matches(css, 0)[k].name
    ensures Matches(css, 0)[k].name in Properties(css)
    ensures Properties(css)[Matches(css, 0)[k].name] == Trim(Matches(css, 0)[k].capture)
  {
    RecordLastWins(map[], Matches(css, 0), k);
  }

  /** Once no ';' is left after the cursor, `exec` finds nothing more. */
  lemma NoSemicolonAfter(s: string, from: nat)
    requires from <= |s|
    requires forall k :: from <= k < |s| ==> s[k] != ';'
    ensures FirstMatch(s, from).None?
  {
  }
}
