/** The fenced-code extractor that server.js and src/lib/openai.js share: the
    model's reply is trimmed, the first match of the regular expression
    /```([a-zA-Z0-9_+-]+)?\s*\n([\s\S]+?)\n```/ is looked for, and its body
    (trimmed) becomes the code and its tag, when there is one, the language. */
module CodeFence {
  import opened Text

  const Ticks: string := "```"
  const Closing: string := "\n```"

  /** The characters of the language tag, [a-zA-Z0-9_+-]. */
  predicate IsTagChar(c: char) {
    ('a' <= c <= 'z') || ('A' <= c <= 'Z') || ('0' <= c <= '9') || c == '_' || c == '+' || c == '-'
  }

  ghost predicate IsTag(s: string) {
    |s| > 0 && forall i :: 0 <= i < |s| ==> IsTagChar(s[i])
  }

  /** End of the run of tag characters that starts at `i`. */
  function TagEnd(s: string, i: nat): (j: nat)
    requires i <= |s|
    decreases |s| - i
    ensures i <= j <= |s|
    ensures forall k :: i <= k < j ==> IsTagChar(s[k])
    ensures j < |s| ==> !IsTagChar(s[j])
  {
    if i < |s| && IsTagChar(s[i]) then TagEnd(s, i + 1) else i
  }

  /** A match of the pattern at `p`, given by its pieces: "```" at `p`, tag
      characters from `p + 3` up to `t`, white space from `t` up to the
      newline at `r`, a body `s[r + 1..e]` of at least one character, and the
      closing "\n```" at `e`. These are all the ways the pattern can match. */
  ghost predicate IsFence(s: string, p: nat, t: nat, r: nat, e: nat) {
    && OccursAt(s, Ticks, p)
    && p + 3 <= t <= r && r + 2 <= e
    && OccursAt(s, Closing, e)
    && (forall k :: p + 3 <= k < t ==> IsTagChar(s[k]))
    && (forall k :: t <= k < r ==> IsJsSpace(s[k]))
    && s[r] == '\n'
  }

  /** The match the regular expression reports at `start`: the captured tag
      (None when the optional group did not take part), the index `open` of
      the newline that ends the opening line and the index `close` of the
      closing "\n```". The body is the text strictly between the two. */
  datatype Fence = Fence(start: nat, tag: Option<string>, open: nat, close: nat)

  function TagLength(f: Fence): nat {
    if f.tag.Some? then |f.tag.value| else 0
  }

  /** The first group's capture when the tag characters run from `p + 3` to
      `t`: absent when the run is empty. */
  function TagOf(s: string, p: nat, t: nat): Option<string>
    requires p + 3 <= t <= |s|
  {
    if t == p + 3 then None else Some(s[p + 3..t])
  }

  /** A newline at `k` from which the lazy body reaches a closing fence. */
  predicate Opens(s: string, k: nat)
    requires k < |s|
  {
    s[k] == '\n' && Find(s, Closing, k + 2).Some?
  }

  /** Backtracking into the greedy `\s*`: the newlines in `s[q..hi)` are tried
      from the last one down, and for each the lazy body stops at the first
      closing fence that leaves it at least one character long. */
  function OpenAt(s: string, q: nat, hi: nat): (r: Option<(nat, nat)>)
    requires q <= hi <= |s|
    decreases hi - q
    ensures r.Some? ==> q <= r.value.0 < hi && Opens(s, r.value.0)
    ensures r.Some? ==> Find(s, Closing, r.value.0 + 2) == Some(r.value.1)
    ensures r.Some? ==> forall k :: r.value.0 < k < hi ==> !Opens(s, k)
    ensures r.None? ==> forall k :: q <= k < hi ==> !Opens(s, k)
  {
    if hi == q then None
    else if Opens(s, hi - 1) then Some((hi - 1, Find(s, Closing, hi + 1).value))
    else OpenAt(s, q, hi - 1)
  }

  /** The pattern tried at exactly index `p`. Only the whole run of tag
      characters can be the tag (after a shorter one, or none, a tag
      character stands where `\s*\n` must follow), so the group takes part
      exactly when that run is not empty. */
  function FenceAt(s: string, p: nat): (r: Option<Fence>)
    ensures r.Some? ==> r.value.start == p
    ensures r.Some? ==> p + 3 + TagLength(r.value) <= r.value.open
    ensures r.Some? ==> r.value.open + 2 <= r.value.close && r.value.close + 4 <= |s|
  {
    if !OccursAt(s, Ticks, p) then None
    else
      var q := TagEnd(s, p + 3);
      match OpenAt(s, q, SpaceEnd(s, q))
      case None => None
      case Some((r, e)) =>
        Some(Fence(p, TagOf(s, p, q), r, e))
  }

  /** What FenceAt reports is a match of the pattern, and its tag is the
      text after the backticks. */
  lemma FenceAtSound(s: string, p: nat)
    requires FenceAt(s, p).Some?
    ensures var f := FenceAt(s, p).value;
      IsFence(s, p, p + 3 + TagLength(f), f.open, f.close)
    ensures var f := FenceAt(s, p).value;
      f.tag == TagOf(s, p, p + 3 + TagLength(f))
    ensures var f := FenceAt(s, p).value;
      f.tag.Some? ==> IsTag(f.tag.value)
  {
    var f := FenceAt(s, p).value;
    var q := TagEnd(s, p + 3);
    assert p + 3 + TagLength(f) == q;
    if f.tag.Some? {
      forall i | 0 <= i < |f.tag.value| ensures IsTagChar(f.tag.value[i]) {
        assert f.tag.value[i] == s[p + 3 + i];
      }
    }
  }

  /** Every match of the pattern at `p` is found by FenceAt, and FenceAt
      prefers it no less: its opening newline is the last usable one, and
      for that newline its closing fence is the first one. */
  lemma FenceAtComplete(s: string, p: nat, t: nat, r: nat, e: nat)
    requires IsFence(s, p, t, r, e)
    ensures FenceAt(s, p).Some?
    ensures t == p + 3 + TagLength(FenceAt(s, p).value)
    ensures r <= FenceAt(s, p).value.open
    ensures r == FenceAt(s, p).value.open ==> FenceAt(s, p).value.close <= e
  {
    TagRunEnds(s, p + 3, t);
    SpaceRunReaches(s, t, r);
    assert Opens(s, r);
  }

  lemma {:induction false} TagRunEnds(s: string, i: nat, t: nat)
    requires i <= t <= |s|
    requires forall k :: i <= k < t ==> IsTagChar(s[k])
    requires t < |s| ==> !IsTagChar(s[t])
    ensures TagEnd(s, i) == t
    decreases t - i
  {
    if i < t {
      TagRunEnds(s, i + 1, t);
    }
  }

  lemma {:induction false} SpaceRunReaches(s: string, i: nat, r: nat)
    requires i <= r < |s|
    requires forall k :: i <= k <= r ==> IsJsSpace(s[k])
    ensures r < SpaceEnd(s, i)
    decreases r - i
  {
    if i < r {
      SpaceRunReaches(s, i + 1, r);
    }
  }

  /** What the regular expression's `match` reports when scanning from
      `from`: the leftmost index at which the pattern matches. */
  function FirstFence(s: string, from: nat): (r: Option<Fence>)
    decreases |s| - from
    ensures r.Some? ==> from <= r.value.start && FenceAt(s, r.value.start) == r
    ensures r.Some? ==> forall p :: from <= p < r.value.start ==> FenceAt(s, p).None?
    ensures r.None? ==> forall p :: from <= p ==> FenceAt(s, p).None?
  {
    if from + 3 > |s| then None
    else if FenceAt(s, from).Some? then FenceAt(s, from)
    else FirstFence(s, from + 1)
  }

  /** The result of an extraction: the code and its language. */
  datatype Extracted = Extracted(code: string, language: string)

  /** The extraction both handlers perform on the model's reply. With no
      fenced block the code is the whole trimmed reply; with one, the first
      block's body trimmed, and the language is its tag when it has one. In
      both cases `fallback` is the language otherwise. */
  function Extract(reply: string, fallback: string): (x: Extracted)
    ensures Trimmed(x.code) && |x.code| <= |reply|
  {
    var text := Trim(reply);
    match FirstFence(text, 0)
    case None => Extracted(text, fallback)
    case Some(f) =>
      Extracted(Trim(text[f.open + 1..f.close]), if f.tag.Some? then f.tag.value else fallback)
  }

  /** With no fenced block anywhere in the trimmed reply, the code is the
      trimmed reply and the language the fallback. */
  lemma ExtractWithoutFence(reply: string, fallback: string)
    requires forall p: nat, t: nat, r: nat, e: nat :: !IsFence(Trim(reply), p, t, r, e)
    ensures Extract(reply, fallback) == Extracted(Trim(reply), fallback)
  {
    var text := Trim(reply);
    if FirstFence(text, 0).Some? {
      var f := FirstFence(text, 0).value;
      FenceAtSound(text, f.start);
    }
  }

  /** The match the regular expression reports among all the matches of the
      pattern in `s`: the leftmost start, then the last usable opening
      newline, then the first closing fence after it. */
  ghost predicate IsFirstFence(s: string, p: nat, t: nat, r: nat, e: nat) {
    && IsFence(s, p, t, r, e)
    && (forall p': nat, t': nat, r': nat, e': nat :: p' < p ==> !IsFence(s, p', t', r', e'))
    && (forall t': nat, r': nat, e': nat :: IsFence(s, p, t', r', e') ==> r' <= r)
    && (forall e': nat :: IsFence(s, p, t, r, e') ==> e <= e')
  }

  /** FirstFence finds exactly the regular expression's choice. */
  lemma FirstFenceIs(s: string, p: nat, t: nat, r: nat, e: nat)
    requires IsFirstFence(s, p, t, r, e)
    ensures FirstFence(s, 0) == Some(Fence(p, TagOf(s, p, t), r, e))
  {
    FenceAtComplete(s, p, t, r, e);
    var f := FirstFence(s, 0).value;
    FenceAtSound(s, f.start);
    assert f.start == p;
    assert f.open == r;
    assert IsFence(s, p, t, r, f.close);
    assert f.close == e;
    assert f.tag == TagOf(s, p, t);
    assert f == Fence(p, TagOf(s, p, t), r, e);
  }

  /** With a fenced block, the code is the body of the regular expression's
      choice, trimmed, and the language its tag or, without a tag, the
      fallback. */
  lemma ExtractWithFence(reply: string, fallback: string, p: nat, t: nat, r: nat, e: nat)
    requires IsFirstFence(Trim(reply), p, t, r, e)
    ensures r + 1 <= e <= |Trim(reply)|
    ensures Extract(reply, fallback).code == Trim(Trim(reply)[r + 1..e])
    ensures Extract(reply, fallback).language == if t == p + 3 then fallback else Trim(reply)[p + 3..t]
  {
    var text := Trim(reply);
    FirstFenceIs(text, p, t, r, e);
    var f := Fence(p, TagOf(text, p, t), r, e);
    ExtractOfFirst(reply, fallback, f);
    assert text[f.open + 1..f.close] == text[r + 1..e];
  }

  lemma ExtractOfFirst(reply: string, fallback: string, f: Fence)
    requires FirstFence(Trim(reply), 0) == Some(f)
    ensures f.open + 1 <= f.close <= |Trim(reply)|
    ensures Extract(reply, fallback).code == Trim(Trim(reply)[f.open + 1..f.close])
    ensures Extract(reply, fallback).language == if f.tag.Some? then f.tag.value else fallback
  {
  }

  /** The code is always trimmed, and the language is either the fallback
      or a tag: a non-empty run of [a-zA-Z0-9_+-]. */
  lemma ExtractShape(reply: string, fallback: string)
    ensures Trimmed(Extract(reply, fallback).code)
    ensures var lang := Extract(reply, fallback).language; lang == fallback || IsTag(lang)
  {
    var text := Trim(reply);
    if FirstFence(text, 0).Some? {
      FenceAtSound(text, FirstFence(text, 0).value.start);
    }
  }
}
