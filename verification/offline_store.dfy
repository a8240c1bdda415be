/** The offline crash-report store: a folder of numbered files
    RaygunCrashReport<n>.txt, modelled as a map from the file number to the stored
    payload. A save takes the lowest free number, deletes the file numbered one
    higher, and, when the free number is 11, deletes file 1; so at most ten files
    are kept, in a ring of eleven numbers. A flush replays every stored file in the
    order the folder lists them and deletes them all. */
module OfflineStore {
  import opened Common

  /** The stored files, by number. */
  type Folder = map<int, string>

  const OfflineDataFolder := "Raygun4UWPOfflineCrashReports"

  /** The free number at which the ring wraps round to evict file 1. */
  const WrapSlot := 11

  /** The name of file number `n`. */
  function FileName(n: nat): (r: string)
    ensures |r| == 21 + |DigitsOf(n)|
    ensures StartsWith(r, "RaygunCrashReport") && r[|r| - 4..] == ".txt"
    ensures r[17..|r| - 4] == DigitsOf(n)
  {
    "RaygunCrashReport" + DigitsOf(n) + ".txt"
  }

  /** Distinct numbers name distinct files, so a folder is a map from numbers. */
  lemma FileNameInjective(a: nat, b: nat)
    requires FileName(a) == FileName(b)
    ensures a == b
  {
    assert DigitsOf(a) == DigitsOf(b);
    DigitsRoundTrip(a);
    DigitsRoundTrip(b);
  }

  /** The stored numbers not below `n`. */
  function Above(folder: Folder, n: int): set<int> {
    set k | k in folder && k >= n
  }

  /** The lowest number from `n` upwards that has no file. */
  function FirstFreeFrom(folder: Folder, n: int): (r: int)
    ensures r >= n && r !in folder
    ensures forall k :: n <= k < r ==> k in folder
    decreases |Above(folder, n)|
  {
    if n !in folder then n
    else
      assert Above(folder, n + 1) == Above(folder, n) - {n};
      FirstFreeFrom(folder, n + 1)
  }

  /** The number a new payload is saved under: the lowest free number from 1. */
  function FreeSlot(folder: Folder): (n: int)
    ensures n >= 1 && n !in folder
    ensures forall k :: 1 <= k < n ==> k in folder
  {
    FirstFreeFrom(folder, 1)
  }

  /** The free slot is the one number from 1 up that has no file while every
      number below it has one. */
  lemma FreeSlotIs(folder: Folder, n: int)
    requires n >= 1 && n !in folder
    requires forall k :: 1 <= k < n ==> k in folder
    ensures FreeSlot(folder) == n
  {
    var m := FreeSlot(folder);
    assert m < n ==> m in folder;
    assert m > n ==> n in folder;
  }

  /** SaveCrashReportAsync: the folder after saving `payload`. */
  function Saved(folder: Folder, payload: string): (r: Folder)
    ensures var n := FreeSlot(folder);
      n in r && r[n] == payload && n + 1 !in r && (n == WrapSlot ==> 1 !in r) &&
      (forall k :: k in folder && k != n + 1 && !(n == WrapSlot && k == 1) ==> k in r && r[k] == folder[k]) &&
      (forall k :: k in r ==> k == n || k in folder)
  {
    var n := FreeSlot(folder);
    var next := folder - {n + 1};
    var evicted := if n == WrapSlot then next - {1} else next;
    evicted[n := payload]
  }

  /** Saving one payload after another. */
  function SavedAll(folder: Folder, payloads: seq<string>): Folder
    decreases |payloads|
  {
    if payloads == [] then folder else SavedAll(Saved(folder, payloads[0]), payloads[1..])
  }

  /** Saving one more payload after a run of saves. */
  lemma {:induction false} SavedAllSnoc(folder: Folder, payloads: seq<string>, payload: string)
    ensures SavedAll(folder, payloads + [payload]) == Saved(SavedAll(folder, payloads), payload)
    decreases |payloads|
  {
    if payloads != [] {
      assert (payloads + [payload])[1..] == payloads[1..] + [payload];
      SavedAllSnoc(Saved(folder, payloads[0]), payloads[1..], payload);
    }
  }

  // ---------------------------------------------------------------------------
  // The ring invariant

  /** The numbers lo..hi-1. */
  function Range(lo: int, hi: int): (r: set<int>)
    ensures forall k :: k in r <==> lo <= k < hi
    decreases hi - lo
  {
    if hi <= lo then {} else Range(lo, hi - 1) + {hi - 1}
  }

  /** The folder fills up: files 1..k. */
  predicate Filling(keys: set<int>, k: int) {
    0 <= k <= 10 && keys == Range(1, k + 1)
  }

  /** The folder is full: every number of 1..11 but `j`. */
  predicate Cycling(keys: set<int>, j: int) {
    1 <= j <= WrapSlot && keys == Range(1, WrapSlot + 1) - {j}
  }

  /** The stored numbers are 1..k with k at most ten, or 1..11 less one number. */
  ghost predicate RingShape(keys: set<int>) {
    (exists k :: Filling(keys, k)) || (exists j :: Cycling(keys, j))
  }

  lemma {:induction false} RangeSize(lo: int, hi: int)
    requires lo <= hi
    ensures |Range(lo, hi)| == hi - lo
    decreases hi - lo
  {
    if lo < hi {
      RangeSize(lo, hi - 1);
    }
  }

  /** A folder of this shape holds at most ten files, numbered 1 to 11. */
  lemma RingBounded(keys: set<int>)
    requires RingShape(keys)
    ensures |keys| <= 10
    ensures forall k :: k in keys ==> 1 <= k <= WrapSlot
  {
    if k :| Filling(keys, k) {
      RangeSize(1, k + 1);
    } else {
      var j :| Cycling(keys, j);
      RangeSize(1, WrapSlot + 1);
    }
  }

  /** While filling up, a save takes the next number. */
  lemma SavedWhileFilling(folder: Folder, payload: string, k: int)
    requires Filling(folder.Keys, k)
    ensures k < 10 ==> Filling(Saved(folder, payload).Keys, k + 1)
    ensures k == 10 ==> Cycling(Saved(folder, payload).Keys, 1)
  {
    assert FreeSlot(folder) == k + 1 by {
      assert forall i :: i in folder <==> i in Range(1, k + 1);
      var n := FreeSlot(folder);
      assert n in Range(1, k + 1) ==> n in folder;
      assert k + 1 !in folder;
      assert n < k + 1 ==> n in Range(1, k + 1);
      assert n > k + 1 ==> k + 1 in folder;
    }
    var r := Saved(folder, payload);
    if k < 10 {
      assert r.Keys == Range(1, k + 2);
    } else {
      assert r.Keys == Range(1, WrapSlot + 1) - {1};
    }
  }

  /** Once full, a save fills the gap and opens the next one (file 1 after 11). */
  lemma SavedWhileCycling(folder: Folder, payload: string, j: int)
    requires Cycling(folder.Keys, j)
    ensures j < WrapSlot ==> Cycling(Saved(folder, payload).Keys, j + 1)
    ensures j == WrapSlot ==> Cycling(Saved(folder, payload).Keys, 1)
  {
    assert FreeSlot(folder) == j by {
      assert forall i :: i in folder <==> i in Range(1, WrapSlot + 1) - {j};
      var n := FreeSlot(folder);
      assert n in Range(1, WrapSlot + 1) - {j} ==> n in folder;
    }
    var r := Saved(folder, payload);
    if j < WrapSlot {
      assert r.Keys == Range(1, WrapSlot + 1) - {j + 1};
    } else {
      assert r.Keys == Range(1, WrapSlot + 1) - {1};
    }
  }

  /** A save keeps the ring shape. */
  lemma SavedKeepsShape(folder: Folder, payload: string)
    ensures RingShape(folder.Keys) ==> RingShape(Saved(folder, payload).Keys)
  {
    if k :| Filling(folder.Keys, k) {
      SavedWhileFilling(folder, payload, k);
    } else if j :| Cycling(folder.Keys, j) {
      SavedWhileCycling(folder, payload, j);
    }
  }

  /** The folder with the files `keys` deleted one after another. */
  function Deleted(folder: Folder, keys: seq<int>): (r: Folder)
    ensures forall k :: k in r <==> k in folder && k !in keys
    ensures forall k :: k in r ==> r[k] == folder[k]
  {
    if keys == [] then folder else Deleted(folder, keys[..|keys| - 1]) - {keys[|keys| - 1]}
  }

  /** The flush state after one more file: the posts and the folder after file
      `i` are those of the first i + 1 files of the listing. */
  lemma ReplayedAfterStep(folder: Folder, order: seq<int>, i: nat, unreadable: set<int>,
                          posts0: seq<string>, posts1: seq<string>, posts2: seq<string>,
                          folder1: Folder, folder2: Folder)
    requires i < |order| && forall k :: 0 <= k < |order| ==> order[k] in folder
    requires forall j, k :: 0 <= j < k < |order| ==> order[j] != order[k]
    requires posts1 == posts0 + Replayed(folder, order[..i], unreadable)
    requires folder1 == Deleted(folder, order[..i]) && order[i] in folder1
    requires posts2 == posts1 + (if order[i] in unreadable then [] else [folder1[order[i]]])
    requires folder2 == folder1 - {order[i]}
    ensures posts2 == posts0 + Replayed(folder, order[..i + 1], unreadable)
    ensures folder2 == Deleted(folder, order[..i + 1])
  {
    ReplayedStep(folder, order, i, unreadable);
    assert order[..i + 1][..i] == order[..i];
  }

  /** From an empty folder (or any folder of ring shape), any sequence of saves
      keeps at most ten files, numbered within 1..11. */
  lemma {:induction false} SavesStayInRing(folder: Folder, payloads: seq<string>)
    requires RingShape(folder.Keys)
    ensures RingShape(SavedAll(folder, payloads).Keys)
    ensures |SavedAll(folder, payloads).Keys| <= 10
    ensures forall k :: k in SavedAll(folder, payloads) ==> 1 <= k <= WrapSlot
    decreases |payloads|
  {
    if payloads == [] {
      RingBounded(folder.Keys);
    } else {
      SavedKeepsShape(folder, payloads[0]);
      SavesStayInRing(Saved(folder, payloads[0]), payloads[1..]);
    }
  }

  lemma EmptyIsRing(folder: Folder)
    requires folder == map[]
    ensures RingShape(folder.Keys)
  {
    assert Filling(folder.Keys, 0);
  }

  // ---------------------------------------------------------------------------
  // Flush

  /** GetFilesAsync: `order` lists every stored number exactly once. */
  predicate IsListing(order: seq<int>, folder: Folder) {
    (forall i, j :: 0 <= i < j < |order| ==> order[i] != order[j]) &&
    (forall i :: 0 <= i < |order| ==> order[i] in folder) &&
    (forall k :: k in folder ==> k in order)
  }

  /** The payloads a flush resends: the stored files in listing order, skipping
      those whose read raises. */
  function Replayed(folder: Folder, order: seq<int>, unreadable: set<int>): (r: seq<string>)
    requires forall i :: 0 <= i < |order| ==> order[i] in folder
    ensures |r| <= |order|
    ensures unreadable == {} ==> |r| == |order|
  {
    if order == [] then []
    else
      var last := order[|order| - 1];
      Replayed(folder, order[..|order| - 1], unreadable) + (if last in unreadable then [] else [folder[last]])
  }

  /** One more file of the listing: its payload, unless its read raises, is
      resent after the earlier ones; and the file is still stored, unchanged,
      while the earlier (distinct) files are deleted. */
  lemma ReplayedStep(folder: Folder, order: seq<int>, i: nat, unreadable: set<int>)
    requires i < |order| && forall k :: 0 <= k < |order| ==> order[k] in folder
    requires forall j, k :: 0 <= j < k < |order| ==> order[j] != order[k]
    ensures Replayed(folder, order[..i + 1], unreadable) ==
      Replayed(folder, order[..i], unreadable) + (if order[i] in unreadable then [] else [folder[order[i]]])
    ensures order[i] in Deleted(folder, order[..i]) && Deleted(folder, order[..i])[order[i]] == folder[order[i]]
  {
    assert order[..i + 1][..i] == order[..i];
    assert order[i] !in order[..i] by {
      assert forall j :: 0 <= j < i ==> order[..i][j] != order[i];
    }
  }

  /** With every file readable, the flush resends each stored payload once, in
      listing order. */
  lemma {:induction false} ReplayedAll(folder: Folder, order: seq<int>)
    requires forall i :: 0 <= i < |order| ==> order[i] in folder
    ensures forall i :: 0 <= i < |order| ==> Replayed(folder, order, {})[i] == folder[order[i]]
  {
    if order != [] {
      ReplayedAll(folder, order[..|order| - 1]);
    }
  }

  /** A flush of a folder holding one file resends that payload (if readable). */
  lemma ReplayedSingle(n: int, payload: string, unreadable: set<int>)
    ensures Replayed(map[n := payload], [n], unreadable) == (if n in unreadable then [] else [payload])
  {
    assert [n][..0] == [];
  }
}
