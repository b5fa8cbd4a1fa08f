/** The "callback returns an error to abort" walking contract shared by
    Envelope.Walk, Multipart.Walk and Object.WalkHeaders: the callback is
    applied to the items in order, and the walk stops at, and returns, the
    first error. A callback is modelled as a pure function from the item to
    an optional error. */
module Walks {
  import opened Util

  /** What a walk did: the items the callback was invoked on, in order, and
      the error it returned (None for Go's nil). */
  datatype Walked<T, E> = Walked(visited: seq<T>, err: Option<E>)

  /** The outcome of walking `items` with `cb`. */
  function WalkAll<T, E>(items: seq<T>, cb: T -> Option<E>): Walked<T, E>
  {
    if items == [] then Walked([], None)
    else
      match cb(items[0])
      case Some(e) => Walked([items[0]], Some(e))
      case None =>
        var rest := WalkAll(items[1..], cb);
        Walked([items[0]] + rest.visited, rest.err)
  }

  /** What a walk means: the callback sees a prefix of the items in order; a
      nil result means every item was visited and every call returned nil; an
      error is the result of the last call, and every earlier call returned
      nil. */
  lemma {:induction false} WalkAllMeaning<T, E>(items: seq<T>, cb: T -> Option<E>)
    ensures var w := WalkAll(items, cb);
      && |w.visited| <= |items| && w.visited == items[..|w.visited|]
      && (w.err.None? ==> w.visited == items && forall j :: 0 <= j < |items| ==> cb(items[j]).None?)
      && (w.err.Some? ==>
            |w.visited| > 0 && cb(w.visited[|w.visited| - 1]) == w.err &&
            forall j :: 0 <= j < |w.visited| - 1 ==> cb(w.visited[j]).None?)
  {
    if items != [] && cb(items[0]).None? {
      var tail := items[1..];
      WalkAllMeaning(tail, cb);
      var r := WalkAll(tail, cb);
      var w := WalkAll(items, cb);
      assert w == Walked([items[0]] + r.visited, r.err);
      assert items == [items[0]] + tail;
      assert items[..|w.visited|] == [items[0]] + tail[..|r.visited|];
      if w.err.None? {
        forall j | 0 <= j < |items| ensures cb(items[j]).None? {
          if j > 0 { assert items[j] == tail[j - 1]; }
        }
      } else {
        assert w.visited[|w.visited| - 1] == r.visited[|r.visited| - 1];
        forall j | 0 <= j < |w.visited| - 1 ensures cb(w.visited[j]).None? {
          if j > 0 { assert w.visited[j] == r.visited[j - 1]; }
        }
      }
    }
  }

  /** Skipping a prefix on which the callback returned nil: the walk of the
      whole sequence is that prefix followed by the walk of the rest. */
  lemma {:induction false} WalkAllSkip<T, E>(items: seq<T>, cb: T -> Option<E>, i: nat)
    requires i <= |items|
    requires forall j :: 0 <= j < i ==> cb(items[j]).None?
    ensures WalkAll(items, cb) ==
      Walked(items[..i] + WalkAll(items[i..], cb).visited, WalkAll(items[i..], cb).err)
  {
    if i > 0 {
      var tail := items[1..];
      assert cb(items[0]).None?;
      assert WalkAll(items, cb) ==
        Walked([items[0]] + WalkAll(tail, cb).visited, WalkAll(tail, cb).err);
      forall j | 0 <= j < i - 1 ensures cb(tail[j]).None? {
        assert tail[j] == items[j + 1];
      }
      WalkAllSkip(tail, cb, i - 1);
      assert tail[i - 1..] == items[i..];
      assert [items[0]] + tail[..i - 1] == items[..i];
    } else {
      assert items[..0] == [] && items[0..] == items;
    }
  }

  /** After `p` items have been visited with no error, the walk of all of
      them is those items followed by the walk of the rest. */
  ghost predicate WalkedUpTo<T, E>(items: seq<T>, cb: T -> Option<E>, p: nat, visited: seq<T>)
    requires p <= |items|
  {
    var rest := WalkAll(items[p..], cb);
    WalkAll(items, cb) == Walked(visited + rest.visited, rest.err)
  }

  /** Visiting item `p`: an error ends the walk there, nil carries it on to
      item `p + 1`. */
  lemma {:induction false} WalkStep<T, E>(items: seq<T>, cb: T -> Option<E>, p: nat, visited: seq<T>)
    requires p < |items| && WalkedUpTo(items, cb, p, visited)
    ensures cb(items[p]).Some? ==> WalkAll(items, cb) == Walked(visited + [items[p]], cb(items[p]))
    ensures cb(items[p]).None? ==> WalkedUpTo(items, cb, p + 1, visited + [items[p]])
  {
    var tail := items[p + 1..];
    assert items[p..] == [items[p]] + tail;
    if cb(items[p]).None? {
      var r := WalkAll(tail, cb);
      assert visited + ([items[p]] + r.visited) == (visited + [items[p]]) + r.visited;
    }
  }

  /** Once every item has been visited with no error, the walk is exactly
      those items and nil. */
  lemma {:induction false} WalkDone<T, E>(items: seq<T>, cb: T -> Option<E>, visited: seq<T>)
    requires WalkedUpTo(items, cb, |items|, visited)
    ensures WalkAll(items, cb) == Walked(visited, None)
  {
    assert items[|items|..] == [];
    assert visited + [] == visited;
  }

  /** Nothing visited yet: the walk is the walk of everything. */
  lemma WalkStart<T, E>(items: seq<T>, cb: T -> Option<E>)
    ensures WalkedUpTo(items, cb, 0, [])
  {
    assert items[0..] == items;
    assert [] + WalkAll(items, cb).visited == WalkAll(items, cb).visited;
  }

  /** The walk reaches an item only if the callback returned nil on every
      earlier item: an error at position k hides everything after k. */
  lemma {:induction false} WalkAllStopsAt<T, E>(items: seq<T>, cb: T -> Option<E>, k: nat)
    requires k < |items|
    requires forall j :: 0 <= j < k ==> cb(items[j]).None?
    requires cb(items[k]).Some?
    ensures WalkAll(items, cb) == Walked(items[..k + 1], cb(items[k]))
  {
    WalkAllSkip(items, cb, k);
    assert items[k..][0] == items[k];
    assert items[..k] + [items[k]] == items[..k + 1];
  }
}
