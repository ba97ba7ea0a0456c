/** The generation history both App components keep: a new entry goes in
    front of at most nine of the earlier ones,
    `[newEntry, ...prevHistory.slice(0, 9)]`. */
module History {

  /** The entries a history holds at most. */
  const Capacity: nat := 10

  /** The first ten elements of `s`, or all of them when there are fewer. */
  function Newest<T>(s: seq<T>): (r: seq<T>)
    ensures |r| == if |s| < Capacity then |s| else Capacity
    ensures r == s[..|r|]
  {
    if |s| <= Capacity then s else s[..Capacity]
  }

  /** `[entry, ...prev.slice(0, 9)]`. */
  function Push<T>(entry: T, prev: seq<T>): (r: seq<T>)
    ensures |r| == if |prev| < Capacity - 1 then |prev| + 1 else Capacity
    ensures r[0] == entry
    ensures r[1..] == prev[..|r| - 1]
  {
    [entry] + prev[..if |prev| < 9 then |prev| else 9]
  }

  /** Pushing is keeping the ten newest of the entry followed by the old
      history. */
  lemma PushIsNewest<T>(entry: T, prev: seq<T>)
    ensures Push(entry, prev) == Newest([entry] + prev)
  {
    var r := Push(entry, prev);
    var n := Newest([entry] + prev);
    assert |r| == |n|;
    forall i | 0 <= i < |r| ensures r[i] == n[i] {
      if i > 0 {
        assert r[i] == r[1..][i - 1];
      }
    }
  }

  /** The older entries that survive keep their order, and every entry past
      index 8 of the old history is dropped. */
  lemma PushKeepsOrder<T>(entry: T, prev: seq<T>)
    ensures forall i :: 0 <= i < |Push(entry, prev)| - 1 ==> Push(entry, prev)[i + 1] == prev[i]
    ensures |prev| >= Capacity - 1 ==> Push(entry, prev)[1..] == prev[..Capacity - 1]
  {
    var r := Push(entry, prev);
    forall i | 0 <= i < |r| - 1 ensures r[i + 1] == prev[i] {
      assert r[i + 1] == r[1..][i];
    }
  }

  /** The entries in the opposite order. */
  function Reverse<T>(s: seq<T>): (r: seq<T>)
    ensures |r| == |s|
  {
    if s == [] then [] else Reverse(s[1..]) + [s[0]]
  }

  /** A history after the entries `es` have been pushed one after the
      other, the first of `es` first. */
  function PushAll<T>(es: seq<T>, h: seq<T>): seq<T>
    decreases |es|
  {
    if es == [] then h else PushAll(es[1..], Push(es[0], h))
  }

  lemma NewestOfNewest<T>(a: seq<T>, b: seq<T>)
    ensures Newest(a + Newest(b)) == Newest(a + b)
  {
    var l := Newest(a + Newest(b));
    var r := Newest(a + b);
    assert |l| == |r|;
    forall i | 0 <= i < |l| ensures l[i] == r[i] {
      if i >= |a| {
        assert (a + Newest(b))[i] == Newest(b)[i - |a|];
      }
    }
  }

  /** However many entries are pushed, the history holds the ten newest of
      them and of the old history, newest first. (A history read back from
      storage may be longer than ten until the first push.) */
  lemma {:induction false} PushAllIsNewest<T>(es: seq<T>, h: seq<T>)
    requires es != [] || |h| <= Capacity
    ensures PushAll(es, h) == Newest(Reverse(es) + h)
    decreases |es|
  {
    if es == [] {
      assert Reverse(es) + h == h;
    } else {
      PushIsNewest(es[0], h);
      PushAllIsNewest(es[1..], Push(es[0], h));
      NewestOfNewest(Reverse(es[1..]), [es[0]] + h);
      assert Reverse(es[1..]) + ([es[0]] + h) == Reverse(es) + h;
    }
  }
}
