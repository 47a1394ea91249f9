/**
 * The type-filter tab bar (components/FilterTabs.tsx): 'All' plus one tab per type
 * present in the batch, in a fixed order, hidden when it would offer at most two tabs.
 */
module FilterTabs {
  import opened Types
  import opened Seqs

  /** `allFilters`: every tab the bar can offer, in display order. */
  const AllFilters: seq<Filter> := [All, OfType(Movie), OfType(TVShow), OfType(Book), OfType(Game)]

  /** `availableTypes`: the types occurring in the batch. */
  function AvailableTypes(recs: seq<Recommendation>): (types: set<EntertainmentType>)
    ensures forall i :: 0 <= i < |recs| ==> recs[i].kind in types
    ensures forall t :: t in types ==> exists i :: 0 <= i < |recs| && recs[i].kind == t
    ensures types == {} <==> recs == []
  {
    var types := set r | r in recs :: r.kind;
    assert forall t :: t in types ==> exists i :: 0 <= i < |recs| && recs[i].kind == t;
    assert recs != [] ==> recs[0].kind in types;
    types
  }

  /** Whether `relevantFilters` keeps filter `f`. */
  predicate Offered(types: set<EntertainmentType>, f: Filter) {
    f.All? || f.kind in types
  }

  /** The filter callback of `relevantFilters`, for a given set of available types. */
  function OfferedIn(types: set<EntertainmentType>): Filter -> bool {
    (f: Filter) => Offered(types, f)
  }

  /** `relevantFilters`: `allFilters` restricted to 'All' and the available types. */
  function RelevantFilters(recs: seq<Recommendation>): (fs: seq<Filter>)
    ensures forall f :: f in fs <==> f in AllFilters && Offered(AvailableTypes(recs), f)
  {
    Keep(AllFilters, OfferedIn(AvailableTypes(recs)))
  }

  /**
   * The bar renders only when it offers more than two tabs, which is exactly when the
   * batch spans at least two types.
   */
  function TabsShown(recs: seq<Recommendation>): (shown: bool)
    ensures shown <==> |AvailableTypes(recs)| >= 2
  {
    TabCount(recs);
    |RelevantFilters(recs)| > 2
  }

  /** 1 if `b` holds, else 0. */
  function Ind(b: bool): nat {
    if b then 1 else 0
  }

  /** The tab for type `t`, when `t` is available. */
  function TabFor(ts: set<EntertainmentType>, t: EntertainmentType): seq<Filter> {
    if t in ts then [OfType(t)] else []
  }

  /** `relevantFilters` spelled out: 'All', then each present type in the fixed order. */
  lemma RelevantFiltersSpelledOut(recs: seq<Recommendation>)
    ensures var ts := AvailableTypes(recs);
      RelevantFilters(recs) == [All]
        + (TabFor(ts, Movie) + (TabFor(ts, TVShow) + (TabFor(ts, Book) + TabFor(ts, Game))))
  {
    OfferedSpelledOut(AvailableTypes(recs));
  }

  lemma OfferedSpelledOut(ts: set<EntertainmentType>)
    ensures Keep(AllFilters, OfferedIn(ts)) == [All]
        + (TabFor(ts, Movie) + (TabFor(ts, TVShow) + (TabFor(ts, Book) + TabFor(ts, Game))))
  {
    var p := OfferedIn(ts);
    var rm, rtv, rb, rg := TabFor(ts, Movie), TabFor(ts, TVShow), TabFor(ts, Book), TabFor(ts, Game);
    var g, b, tv, m := [OfType(Game)], [OfType(Book), OfType(Game)],
      [OfType(TVShow), OfType(Book), OfType(Game)], [OfType(Movie), OfType(TVShow), OfType(Book), OfType(Game)];
    assert [OfType(Game)] + [] == g && [OfType(Book)] + g == b && [OfType(TVShow)] + b == tv;
    assert [OfType(Movie)] + tv == m && [All] + m == AllFilters;
    assert p(OfType(Game)) == (Game in ts) && p(OfType(Book)) == (Book in ts);
    assert p(OfType(TVShow)) == (TVShow in ts) && p(OfType(Movie)) == (Movie in ts) && p(All);
    KeepCons(OfType(Game), [], p);
    assert Keep(g, p) == rg;
    KeepCons(OfType(Book), g, p);
    assert Keep(b, p) == rb + rg;
    KeepCons(OfType(TVShow), b, p);
    assert Keep(tv, p) == rtv + (rb + rg);
    KeepCons(OfType(Movie), tv, p);
    assert Keep(m, p) == rm + (rtv + (rb + rg));
    KeepCons(All, m, p);
    assert Keep(AllFilters, p) == [All] + (rm + (rtv + (rb + rg)));
  }

  /** Taking one element out of a set shrinks it by one exactly when it was there. */
  lemma RemoveOne<T>(s: set<T>, x: T)
    ensures |s| == |s - {x}| + Ind(x in s)
  {
    if x in s {
      assert s == (s - {x}) + {x};
    } else {
      assert s == s - {x};
    }
  }

  /** A set of types has one element per type it contains. */
  lemma TypeSetSize(ts: set<EntertainmentType>)
    ensures |ts| == Ind(Movie in ts) + Ind(TVShow in ts) + Ind(Book in ts) + Ind(Game in ts)
  {
    var a := ts - {Movie};
    var b := a - {TVShow};
    var c := b - {Book};
    var d := c - {Game};
    RemoveOne(ts, Movie);
    RemoveOne(a, TVShow);
    RemoveOne(b, Book);
    RemoveOne(c, Game);
    assert TVShow in a <==> TVShow in ts;
    assert Book in b <==> Book in ts;
    assert Game in c <==> Game in ts;
    assert Movie !in d && TVShow !in d && Book !in d && Game !in d;
    if d != {} {
      var t :| t in d;
      match t
      case Movie => assert false;
      case TVShow => assert false;
      case Book => assert false;
      case Game => assert false;
    }
  }

  /** 'All' is always offered, and always first. */
  lemma AllComesFirst(recs: seq<Recommendation>)
    ensures |RelevantFilters(recs)| >= 1 && RelevantFilters(recs)[0] == All
  {
    RelevantFiltersSpelledOut(recs);
  }

  /** A type is offered exactly when some recommendation has that type. */
  lemma TypeOfferedIffPresent(recs: seq<Recommendation>, t: EntertainmentType)
    ensures OfType(t) in RelevantFilters(recs) <==> exists r :: r in recs && r.kind == t
  {
    var ts := AvailableTypes(recs);
    assert OfType(t) in AllFilters by {
      match t
      case Movie => assert AllFilters[1] == OfType(t);
      case TVShow => assert AllFilters[2] == OfType(t);
      case Book => assert AllFilters[3] == OfType(t);
      case Game => assert AllFilters[4] == OfType(t);
    }
    assert OfType(t) in RelevantFilters(recs) <==> t in ts;
    if t in ts {
      var r :| r in recs && r.kind == t;
    }
  }

  lemma AllFiltersDistinct()
    ensures Distinct(AllFilters)
  {
    forall i, j | 0 <= i < j < |AllFilters| ensures AllFilters[i] != AllFilters[j] {
      if i == 0 {
        assert AllFilters[i].All? && AllFilters[j].OfType?;
      } else {
        assert AllFilters[i].kind != AllFilters[j].kind;
      }
    }
  }

  /** The tabs keep the order of `allFilters` and name no filter twice. */
  lemma OfferedInFixedOrder(recs: seq<Recommendation>)
    ensures SubsequenceOf(RelevantFilters(recs), AllFilters)
    ensures Distinct(RelevantFilters(recs))
  {
    var ts := AvailableTypes(recs);
    KeepIsSubsequence(AllFilters, OfferedIn(ts));
    AllFiltersDistinct();
    SubsequenceDistinct(RelevantFilters(recs), AllFilters);
  }

  /** One tab for 'All' plus one per distinct type present. */
  lemma TabCount(recs: seq<Recommendation>)
    ensures |RelevantFilters(recs)| == 1 + |AvailableTypes(recs)|
  {
    RelevantFiltersSpelledOut(recs);
    TypeSetSize(AvailableTypes(recs));
  }
}
