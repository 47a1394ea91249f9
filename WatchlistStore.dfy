/**
 * The persisted watchlist (utils/watchlistStore.ts): full Recommendation records,
 * one per title, in the order they were added.
 */
module WatchlistStore {
  import opened Types
  import opened Seqs
  import opened Storage

  /** `watchlist.some(item => item.title === title)` */
  predicate HasTitle(list: seq<Recommendation>, title: string) {
    exists r :: r in list && r.title == title
  }

  /** No two entries share a title. */
  predicate DistinctTitles(list: seq<Recommendation>) {
    forall i, j :: 0 <= i < j < |list| ==> list[i].title != list[j].title
  }

  /** The list `addToWatchlist` computes from what it read. */
  function Added(list: seq<Recommendation>, rec: Recommendation): (r: seq<Recommendation>)
    ensures !HasTitle(list, rec.title) ==> r == list + [rec]
    ensures HasTitle(list, rec.title) ==> r == list
    ensures HasTitle(r, rec.title)
  {
    if HasTitle(list, rec.title) then list else list + [rec]
  }

  /** The list `removeFromWatchlist` computes from what it read. */
  function Removed(list: seq<Recommendation>, title: string): (r: seq<Recommendation>)
    ensures !HasTitle(r, title)
    ensures forall x :: x in r <==> x in list && x.title != title
    ensures forall x :: multiset(r)[x] == if x.title != title then multiset(list)[x] else 0
    ensures !HasTitle(list, title) ==> r == list
  {
    KeepCounts(list, (x: Recommendation) => x.title != title);
    Keep(list, (x: Recommendation) => x.title != title)
  }

  lemma AddedKeepsTitlesDistinct(list: seq<Recommendation>, rec: Recommendation)
    requires DistinctTitles(list)
    ensures DistinctTitles(Added(list, rec))
  {
    if !HasTitle(list, rec.title) {
      var r := list + [rec];
      forall i, j | 0 <= i < j < |r| ensures r[i].title != r[j].title {
        if j == |list| {
          assert r[i] in list;
        }
      }
    }
  }

  /** Removal keeps the other entries in their original relative order. */
  lemma RemovedPreservesOrder(list: seq<Recommendation>, title: string)
    ensures SubsequenceOf(Removed(list, title), list)
  {
    KeepIsSubsequence(list, (x: Recommendation) => x.title != title);
  }

  /** Adding a title that is not stored and then removing it restores the list. */
  lemma RemoveUndoesAdd(list: seq<Recommendation>, rec: Recommendation)
    requires !HasTitle(list, rec.title)
    ensures Removed(Added(list, rec), rec.title) == list
  {
    var p := (x: Recommendation) => x.title != rec.title;
    KeepAppend(list, [rec], p);
    assert Keep([rec], p) == [];
  }

  /** The single storage slot under 'vibeFlowWatchlist'. */
  class Watchlist {
    var stored: seq<Recommendation>

    /** The slot as found at start-up; a missing key is the empty list. */
    constructor (initial: seq<Recommendation>)
      ensures stored == initial
    {
      stored := initial;
    }

    /** `getWatchlist`: the stored list, or [] when it cannot be read. */
    method GetWatchlist(readOk: bool) returns (items: seq<Recommendation>)
      ensures readOk ==> items == stored
      ensures !readOk ==> items == []
    {
      items := Read(stored, readOk, []);
    }

    /** `saveWatchlist`: overwrite the slot unless the write fails. */
    method SaveWatchlist(items: seq<Recommendation>, writeOk: bool)
      modifies this
      ensures stored == if writeOk then items else old(stored)
    {
      if writeOk {
        stored := items;
      }
    }

    /** `addToWatchlist`: append `rec` unless its title is already in what was read. */
    method AddToWatchlist(rec: Recommendation, io: Io)
      modifies this
      ensures io.readOk && io.writeOk ==> stored == Added(old(stored), rec)
      ensures io.readOk && HasTitle(old(stored), rec.title) ==> stored == old(stored)
      ensures !io.readOk && io.writeOk ==> stored == [rec]
      ensures !io.writeOk ==> stored == old(stored)
      ensures DistinctTitles(old(stored)) ==> DistinctTitles(stored)
    {
      var watchlist := GetWatchlist(io.readOk);
      if !HasTitle(watchlist, rec.title) {
        SaveWatchlist(watchlist + [rec], io.writeOk);
      }
      if DistinctTitles(old(stored)) {
        AddedKeepsTitlesDistinct(old(stored), rec);
      }
    }

    /** `removeFromWatchlist`: keep every entry whose title differs from `title`. */
    method RemoveFromWatchlist(title: string, io: Io)
      modifies this
      ensures io.readOk && io.writeOk ==> stored == Removed(old(stored), title)
      ensures !io.readOk && io.writeOk ==> stored == []
      ensures !io.writeOk ==> stored == old(stored)
      ensures io.writeOk ==> !HasTitle(stored, title)
      ensures DistinctTitles(old(stored)) ==> DistinctTitles(stored)
    {
      var watchlist := GetWatchlist(io.readOk);
      var updated := Removed(watchlist, title);
      SaveWatchlist(updated, io.writeOk);
      if DistinctTitles(old(stored)) {
        RemovedKeepsTitlesDistinct(old(stored), title);
      }
    }
  }

  lemma RemovedKeepsTitlesDistinct(list: seq<Recommendation>, title: string)
    requires DistinctTitles(list)
    ensures DistinctTitles(Removed(list, title))
  {
    RemovedPreservesOrder(list, title);
    SubsequenceKeepsTitlesDistinct(Removed(list, title), list);
  }

  lemma {:induction false} SubsequenceKeepsTitlesDistinct(xs: seq<Recommendation>, ys: seq<Recommendation>)
    requires SubsequenceOf(xs, ys) && DistinctTitles(ys)
    ensures DistinctTitles(xs)
    decreases |ys|
  {
    if xs != [] && ys != [] {
      assert DistinctTitles(ys[1..]) by {
        forall i, j | 0 <= i < j < |ys[1..]| ensures ys[1..][i].title != ys[1..][j].title {
          assert ys[1..][i] == ys[i + 1] && ys[1..][j] == ys[j + 1];
        }
      }
      if xs[0] == ys[0] && SubsequenceOf(xs[1..], ys[1..]) {
        SubsequenceKeepsTitlesDistinct(xs[1..], ys[1..]);
        forall j | 0 < j < |xs| ensures xs[0].title != xs[j].title {
          SubsequenceMembers(xs[1..], ys[1..], j - 1);
          var k :| 0 <= k < |ys[1..]| && ys[1..][k] == xs[1..][j - 1];
          assert ys[k + 1] == xs[j];
        }
      } else {
        SubsequenceKeepsTitlesDistinct(xs, ys[1..]);
      }
    }
  }
}
