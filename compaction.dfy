/** Removal of destroyed objects from a container with the erase-remove
    idiom: `remove_if` shifts every survivor forward over the destroyed ones,
    keeping their order, and `erase` cuts off the tail it leaves behind. Both
    iterations run it once per frame on each of their containers. */
module Compaction {

  /** The survivors of a container: its elements that are not destroyed, in
      their original relative order. */
  function Survivors<T>(s: seq<T>, destroyed: T -> bool): (r: seq<T>)
    ensures |r| <= |s|
    ensures forall i :: 0 <= i < |r| ==> !destroyed(r[i])
  {
    if s == [] then []
    else Survivors(s[..|s| - 1], destroyed) + (if destroyed(s[|s| - 1]) then [] else [s[|s| - 1]])
  }

  /** Compaction distributes over concatenation: the survivors of one part
      all come before those of the next, so relative order is preserved. */
  lemma {:induction false} SurvivorsAppend<T>(a: seq<T>, b: seq<T>, destroyed: T -> bool)
    ensures Survivors(a + b, destroyed) == Survivors(a, destroyed) + Survivors(b, destroyed)
    decreases |b|
  {
    if b == [] {
      assert a + b == a;
    } else {
      var front := b[..|b| - 1];
      assert (a + b)[..|a + b| - 1] == a + front;
      SurvivorsAppend(a, front, destroyed);
    }
  }

  /** A container without destroyed elements is left exactly as it is. */
  lemma {:induction false} SurvivorsOfLive<T>(s: seq<T>, destroyed: T -> bool)
    requires forall i :: 0 <= i < |s| ==> !destroyed(s[i])
    ensures Survivors(s, destroyed) == s
    decreases |s|
  {
    if s != [] {
      SurvivorsOfLive(s[..|s| - 1], destroyed);
    }
  }

  /** A live prefix stays in front: only the rest is compacted. */
  lemma {:induction false} SurvivorsOfLivePrefix<T>(s: seq<T>, n: nat, destroyed: T -> bool)
    requires n <= |s|
    requires forall i :: 0 <= i < n ==> !destroyed(s[i])
    ensures Survivors(s, destroyed) == s[..n] + Survivors(s[n..], destroyed)
    decreases |s|
  {
    if |s| == n {
      SurvivorsOfLive(s, destroyed);
      assert s[..n] == s && s[n..] == [];
    } else {
      var front := s[..|s| - 1];
      SurvivorsOfLivePrefix(front, n, destroyed);
      assert front[..n] == s[..n];
      assert s[n..][..|s[n..]| - 1] == front[n..];
    }
  }

  /** Compacting twice removes nothing more than compacting once. */
  lemma SurvivorsIdempotent<T>(s: seq<T>, destroyed: T -> bool)
    ensures Survivors(Survivors(s, destroyed), destroyed) == Survivors(s, destroyed)
  {
    SurvivorsOfLive(Survivors(s, destroyed), destroyed);
  }

  /** No element that is still alive is lost. */
  lemma {:induction false} SurvivorsKeepLive<T>(s: seq<T>, i: nat, destroyed: T -> bool)
    requires i < |s| && !destroyed(s[i])
    ensures s[i] in Survivors(s, destroyed)
    decreases |s|
  {
    if i < |s| - 1 {
      SurvivorsKeepLive(s[..|s| - 1], i, destroyed);
    }
  }

  /** `remove_if` followed by `erase`: a write index trails the read index,
      every survivor is copied down to the write index, and the container is
      finally cut at the write index. */
  method EraseRemove<T>(s: seq<T>, destroyed: T -> bool) returns (kept: seq<T>)
    ensures kept == Survivors(s, destroyed)
  {
    var buf := s;
    var w := 0;
    var r := 0;
    while r < |buf|
      invariant |buf| == |s| && w <= r <= |s|
      invariant buf[..w] == Survivors(s[..r], destroyed)
      invariant forall k :: r <= k < |s| ==> buf[k] == s[k]
    {
      assert s[..r + 1] == s[..r] + [s[r]];
      assert buf[r] == s[r];
      if !destroyed(buf[r]) {
        buf := buf[w := buf[r]];
        w := w + 1;
      }
      r := r + 1;
    }
    assert s[..r] == s;
    kept := buf[..w];
  }
}
