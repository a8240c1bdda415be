/** Breadcrumbs: a bounded first-in first-out log of the most recent 25 breadcrumbs,
    kept in memory and attached to each crash report. */
module Breadcrumbs {
  import opened Common

  /** RaygunBreadcrumb: message, category, custom data and a millisecond timestamp. */
  datatype Breadcrumb = Breadcrumb(message: Option<string>, category: Option<string>, customData: Data, timestamp: int)

  const MaxSize := 25

  /** The list after storing `b`: at exactly MaxSize items the oldest one is dropped
      first. A list that already holds more than MaxSize items is not trimmed. */
  function Stored(items: seq<Breadcrumb>, b: Breadcrumb): (r: seq<Breadcrumb>)
    ensures |r| == (if |items| == MaxSize then MaxSize else |items| + 1)
    ensures r[|r| - 1] == b
    // the result is what remains of items + [b] once its oldest entries are dropped
    ensures r == (items + [b])[|items| + 1 - |r|..]
  {
    if |items| == MaxSize then items[1..] + [b] else items + [b]
  }

  /** The most recent MaxSize entries of `s` (all of `s` when it is shorter). */
  function Recent(s: seq<Breadcrumb>): seq<Breadcrumb> {
    if |s| <= MaxSize then s else s[|s| - MaxSize..]
  }

  /** Storing one breadcrumb after another, starting from `items`. */
  function StoredAll(items: seq<Breadcrumb>, bs: seq<Breadcrumb>): seq<Breadcrumb>
    decreases |bs|
  {
    if bs == [] then items else StoredAll(Stored(items, bs[0]), bs[1..])
  }

  /** Storing below capacity keeps the bound: a list of at most MaxSize items stays so. */
  lemma StoredBounded(items: seq<Breadcrumb>, b: Breadcrumb)
    requires |items| <= MaxSize
    ensures |Stored(items, b)| <= MaxSize
    ensures |items| < MaxSize ==> Stored(items, b) == items + [b]
  {
  }

  /** From a list of at most MaxSize items, any sequence of stores keeps exactly the
      most recent MaxSize breadcrumbs, oldest first. */
  lemma {:induction false} StoredAllKeepsRecent(items: seq<Breadcrumb>, bs: seq<Breadcrumb>)
    requires |items| <= MaxSize
    ensures StoredAll(items, bs) == Recent(items + bs)
    ensures |StoredAll(items, bs)| <= MaxSize
    decreases |bs|
  {
    if bs == [] {
      assert items + bs == items;
    } else {
      var next := Stored(items, bs[0]);
      StoredAllKeepsRecent(next, bs[1..]);
      assert Recent(next + bs[1..]) == Recent(items + bs) by {
        RecentStep(items, bs);
      }
    }
  }

  lemma RecentStep(items: seq<Breadcrumb>, bs: seq<Breadcrumb>)
    requires |items| <= MaxSize && bs != []
    ensures Recent(Stored(items, bs[0]) + bs[1..]) == Recent(items + bs)
  {
    var next := Stored(items, bs[0]);
    assert items + bs == (items + [bs[0]]) + bs[1..];
    if |items| == MaxSize {
      assert items + [bs[0]] == [items[0]] + next;
      assert items + bs == [items[0]] + (next + bs[1..]);
    } else {
      assert next == items + [bs[0]];
    }
  }

  /** A list injected with more than MaxSize items is never trimmed: every store
      grows it by one. */
  lemma {:induction false} OversizedNeverTrimmed(items: seq<Breadcrumb>, bs: seq<Breadcrumb>)
    requires |items| > MaxSize
    ensures StoredAll(items, bs) == items + bs
    decreases |bs|
  {
    if bs != [] {
      assert Stored(items, bs[0]) == items + [bs[0]];
      OversizedNeverTrimmed(items + [bs[0]], bs[1..]);
      assert (items + [bs[0]]) + bs[1..] == items + bs;
    }
  }

  /** InMemoryBreadcrumbStorage */
  class InMemoryBreadcrumbStorage {
    var items: seq<Breadcrumb>

    /** new InMemoryBreadcrumbStorage(breadcrumbs): the given list, or an empty one. */
    constructor (initial: Option<seq<Breadcrumb>>)
      ensures items == (if initial.Some? then initial.value else [])
    {
      items := if initial.Some? then initial.value else [];
    }

    method Store(b: Breadcrumb)
      modifies this
      ensures items == Stored(old(items), b)
    {
      if |items| == MaxSize {
        items := items[1..];
      }
      items := items + [b];
    }

    method Clear()
      modifies this
      ensures items == []
    {
      items := [];
    }

    method Size() returns (n: nat)
      ensures n == |items|
    {
      n := |items|;
    }

    /** A copy of the list: a value, so later stores and clears do not change it. */
    method ToList() returns (r: seq<Breadcrumb>)
      ensures r == items
    {
      r := items;
    }
  }

  /** RaygunBreadcrumbs: a facade over a private in-memory storage. */
  class RaygunBreadcrumbs {
    const storage: InMemoryBreadcrumbStorage

    constructor ()
      ensures fresh(storage) && storage.items == []
    {
      storage := new InMemoryBreadcrumbStorage(None);
    }

    method Record(b: Breadcrumb)
      modifies storage
      ensures storage.items == Stored(old(storage.items), b)
    {
      storage.Store(b);
    }

    method Clear()
      modifies storage
      ensures storage.items == []
    {
      storage.Clear();
    }

    method Size() returns (n: nat)
      ensures n == |storage.items|
    {
      n := storage.Size();
    }

    method ToList() returns (r: seq<Breadcrumb>)
      ensures r == storage.items
    {
      r := storage.ToList();
    }
  }
}
