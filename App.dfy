/**
 * The top-level view state (App.tsx): the current batch, the loading flag, the error
 * text and the active type filter, and what they make the page render.
 */
module App {
  import opened Wrappers
  import opened Seqs
  import opened Types
  import opened GeminiService
  import FilterTabs

  /** The test in `filteredRecommendations`: `activeFilter === 'All' || rec.type === activeFilter`. */
  predicate Matches(filter: Filter, rec: Recommendation) {
    filter.All? || rec.kind == filter.kind
  }

  function MatchesFilter(filter: Filter): Recommendation -> bool {
    (rec: Recommendation) => Matches(filter, rec)
  }

  /** `filteredRecommendations` for a batch and a filter. */
  function Filtered(recs: seq<Recommendation>, filter: Filter): (r: seq<Recommendation>)
    ensures filter.All? ==> r == recs
    ensures filter.OfType? ==> forall x :: x in r <==> x in recs && x.kind == filter.kind
    ensures filter.OfType? ==> forall x :: multiset(r)[x] == if x.kind == filter.kind then multiset(recs)[x] else 0
  {
    KeepCounts(recs, MatchesFilter(filter));
    Keep(recs, MatchesFilter(filter))
  }

  /** The displayed list keeps the batch's order: it is a subsequence of it. */
  lemma FilteredKeepsOrder(recs: seq<Recommendation>, filter: Filter)
    ensures SubsequenceOf(Filtered(recs, filter), recs)
  {
    KeepIsSubsequence(recs, MatchesFilter(filter));
  }

  /** The text `setError` receives for a thrown value. */
  function ErrorText(thrown: Thrown): (r: string)
    ensures thrown.ErrorObject? ==> r == thrown.message
    ensures thrown.OtherValue? ==> r == "An unknown error occurred."
  {
    match thrown
    case ErrorObject(message) => message
    case OtherValue => "An unknown error occurred."
  }

  /** `error` is truthy: set and non-empty. */
  predicate ErrorShown(error: Option<string>) {
    error.Some? && error.value != ""
  }

  /** Which of the page's four status areas render. */
  datatype Panels = Panels(spinner: bool, errorBox: bool, results: bool, initial: bool)

  /** The render conditions of the page body. */
  function Render(isLoading: bool, error: Option<string>, recs: seq<Recommendation>): (p: Panels)
    ensures p.spinner == isLoading && p.errorBox == ErrorShown(error)
    ensures !(p.results && p.initial)
    ensures (p.results || p.initial) ==> !isLoading && !ErrorShown(error)
    ensures p.spinner || p.errorBox || p.results || p.initial
    ensures p.results <==> !isLoading && !ErrorShown(error) && |recs| > 0
    ensures p.initial <==> !isLoading && !ErrorShown(error) && |recs| == 0
  {
    var settled := !isLoading && !ErrorShown(error);
    Panels(isLoading, ErrorShown(error), settled && |recs| > 0, settled && |recs| == 0)
  }

  /**
   * A request keeps the active filter, so after a batch spanning one type the grid
   * can be empty while the tab bar that could reset the filter is hidden.
   */
  lemma KeptFilterCanHideWholeBatch()
    ensures exists recs: seq<Recommendation>, t: EntertainmentType ::
      |recs| > 0 && !FilterTabs.TabsShown(recs) && Filtered(recs, OfType(t)) == []
  {
    var movie := Recommendation("Inception", Movie, 2010, [], "", "", None);
    var recs := [movie];
    SingleTypeBatch(recs, Movie);
    assert Filtered(recs, OfType(Book)) == [] by {
      assert !Matches(OfType(Book), movie);
      assert recs[1..] == [];
    }
  }

  lemma SingleTypeBatch(recs: seq<Recommendation>, t: EntertainmentType)
    requires |recs| > 0 && forall i :: 0 <= i < |recs| ==> recs[i].kind == t
    ensures FilterTabs.AvailableTypes(recs) == {t}
  {
    assert recs[0] in recs;
  }

  class Page {
    var recommendations: seq<Recommendation>
    var isLoading: bool
    var error: Option<string>
    var activeFilter: Filter

    /** While a request is in flight, the previous batch and error are gone. */
    ghost predicate Valid()
      reads this
    {
      isLoading ==> error == None && recommendations == []
    }

    /** The initial state: no batch, not loading, no error, filter 'All'. */
    constructor ()
      ensures Valid()
      ensures recommendations == [] && !isLoading && error == None && activeFilter == All
    {
      recommendations := [];
      isLoading := false;
      error := None;
      activeFilter := All;
    }

    /** The start of `handleGetRecommendations`. */
    method BeginRequest()
      modifies this
      ensures Valid()
      ensures isLoading && error == None && recommendations == []
      ensures activeFilter == old(activeFilter)
    {
      isLoading := true;
      error := None;
      recommendations := [];
    }

    /** The end of `handleGetRecommendations`: store the batch or the error, then stop loading. */
    method SettleRequest(outcome: Result<seq<Recommendation>, Thrown>)
      modifies this
      ensures Valid() && !isLoading && activeFilter == old(activeFilter)
      ensures outcome.Success? ==> recommendations == outcome.value && error == old(error)
      ensures outcome.Failure? ==> recommendations == old(recommendations) && error == Some(ErrorText(outcome.error))
    {
      match outcome {
        case Success(results) =>
          recommendations := results;
        case Failure(thrown) =>
          error := Some(ErrorText(thrown));
      }
      isLoading := false;
    }

    /** One whole request, with the model call `ai`. */
    method HandleGetRecommendations(prefs: Preferences, ai: string -> Reply)
      modifies this
      ensures Valid() && !isLoading && activeFilter == old(activeFilter)
      ensures var outcome := GetEntertainmentRecommendations(prefs, ai);
        (outcome.Success? && recommendations == outcome.value && error == None)
        || (outcome.Failure? && recommendations == [] && error == Some(FailureMessage))
    {
      BeginRequest();
      var outcome := GetEntertainmentRecommendations(prefs, ai);
      SettleRequest(outcome);
    }

    /** A tab click: `setActiveFilter(filter)`. */
    method SetActiveFilter(filter: Filter)
      modifies this
      ensures activeFilter == filter
      ensures recommendations == old(recommendations) && isLoading == old(isLoading) && error == old(error)
      ensures old(Valid()) ==> Valid()
    {
      activeFilter := filter;
    }

    /** The status areas the page renders in its current state. */
    function Screen(): Panels
      reads this
    {
      Render(isLoading, error, recommendations)
    }
  }

  /** In any state the page reaches, exactly one status area renders. */
  lemma ExactlyOnePanel(isLoading: bool, error: Option<string>, recs: seq<Recommendation>)
    requires isLoading ==> error == None && recs == []
    ensures var p := Render(isLoading, error, recs);
      (if p.spinner then 1 else 0) + (if p.errorBox then 1 else 0)
        + (if p.results then 1 else 0) + (if p.initial then 1 else 0) == 1
  {
  }

  /** Every state that keeps the page invariant renders exactly one status area. */
  lemma PageShowsOnePanel(p: Page)
    requires p.Valid()
    ensures var panels := p.Screen();
      (if panels.spinner then 1 else 0) + (if panels.errorBox then 1 else 0)
        + (if panels.results then 1 else 0) + (if panels.initial then 1 else 0) == 1
  {
    ExactlyOnePanel(p.isLoading, p.error, p.recommendations);
  }
}
