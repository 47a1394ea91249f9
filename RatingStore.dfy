/**
 * Per-title star ratings (utils/ratingStore.ts): one `title -> number` object in a
 * single storage slot. Reading uses `ratings[title] || null`, so a stored 0 reads
 * back exactly like a title that was never rated.
 */
module RatingStore {
  import opened Wrappers
  import opened Storage

  /** `getRatings()[title] || null` over the map that was read. */
  function RatingIn(ratings: map<string, int>, title: string): (r: Option<int>)
    ensures r.Some? <==> title in ratings && ratings[title] != 0
    ensures r.Some? ==> r.value == ratings[title] && r.value != 0
  {
    if title in ratings && ratings[title] != 0 then Some(ratings[title]) else None
  }

  /** The object `saveRatingForTitle` writes back: what was read, with `title` overwritten. */
  function WithRating(ratings: map<string, int>, title: string, rating: int): (r: map<string, int>)
    ensures r.Keys == ratings.Keys + {title}
    ensures r[title] == rating
    ensures forall t :: t in ratings && t != title ==> r[t] == ratings[t]
  {
    ratings[title := rating]
  }

  /** A non-zero rating reads back as saved; 0 reads back as "no rating". */
  lemma SavedRatingReadsBack(ratings: map<string, int>, title: string, rating: int)
    ensures RatingIn(WithRating(ratings, title, rating), title)
              == if rating == 0 then None else Some(rating)
  {
  }

  /** Saving a rating for one title leaves every other title's reading unchanged. */
  lemma SaveLeavesOtherTitles(ratings: map<string, int>, title: string, rating: int, other: string)
    requires other != title
    ensures RatingIn(WithRating(ratings, title, rating), other) == RatingIn(ratings, other)
  {
  }

  /** Of two saves for the same title, the second wins. */
  lemma LastSaveWins(ratings: map<string, int>, title: string, first: int, second: int)
    ensures WithRating(WithRating(ratings, title, first), title, second)
              == WithRating(ratings, title, second)
  {
  }

  /** Reading 0 back is the same as never having rated. */
  lemma ZeroIsUnrated(ratings: map<string, int>, title: string)
    ensures RatingIn(WithRating(ratings, title, 0), title) == RatingIn(map[], title)
  {
  }

  /** The single storage slot under 'entertainmentConciergeRatings'. */
  class Ratings {
    var stored: map<string, int>

    /** The slot as found at start-up; a missing key is the empty object. */
    constructor (initial: map<string, int>)
      ensures stored == initial
    {
      stored := initial;
    }

    /** `getRatings`: the stored object, or {} when it cannot be read. */
    method GetRatings(readOk: bool) returns (ratings: map<string, int>)
      ensures readOk ==> ratings == stored
      ensures !readOk ==> ratings == map[]
    {
      ratings := Read(stored, readOk, map[]);
    }

    /** `getRatingForTitle`: a non-zero stored rating, otherwise null. */
    method GetRatingForTitle(title: string, readOk: bool) returns (r: Option<int>)
      ensures r.Some? <==> readOk && title in stored && stored[title] != 0
      ensures r.Some? ==> r.value == stored[title]
    {
      var ratings := GetRatings(readOk);
      r := RatingIn(ratings, title);
    }

    /** `saveRatingForTitle`: read, overwrite the entry for `title`, write back. */
    method SaveRatingForTitle(title: string, rating: int, io: Io)
      modifies this
      ensures io.writeOk ==> stored == WithRating(Read(old(stored), io.readOk, map[]), title, rating)
      ensures !io.writeOk ==> stored == old(stored)
    {
      var ratings := GetRatings(io.readOk);
      ratings := ratings[title := rating];
      if io.writeOk {
        stored := ratings;
      }
    }
  }
}
