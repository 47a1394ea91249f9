/**
 * The five-star rating widget on each card (components/StarRatingInput.tsx). Its
 * `rating` and `hoverRating` state are fields; every click also writes the new
 * rating to the rating store under the card's title.
 */
module StarRatingInput {
  import opened Wrappers
  import opened Storage
  import opened RatingStore

  /** Stars are numbered 1 to 5. */
  predicate IsStar(star: int) {
    1 <= star <= 5
  }

  /** The rating after clicking `star`: clicking the selected star clears the rating. */
  function Toggled(rating: int, star: int): (r: int)
    requires IsStar(star)
    ensures IsStar(r) || r == 0
    ensures r == 0 <==> rating == star
    ensures r != 0 ==> r == star
  {
    if rating == star then 0 else star
  }

  /** From "unrated", clicking the same star twice returns to "unrated". */
  lemma ClickTwiceClears(star: int)
    requires IsStar(star)
    ensures Toggled(Toggled(0, star), star) == 0
  {
  }

  /** The value the stars display: the hovered star when there is one, else the rating. */
  function Shown(hoverRating: int, rating: int): (v: int)
    ensures hoverRating != 0 ==> v == hoverRating
    ensures hoverRating == 0 ==> v == rating
    ensures 0 <= hoverRating <= 5 && 0 <= rating <= 5 ==> 0 <= v <= 5
  {
    if hoverRating != 0 then hoverRating else rating
  }

  /**
   * Star `star` is drawn lit: `(hoverRating || rating) >= star`. While the pointer is on a
   * star the hovered value decides; otherwise the saved rating does.
   */
  predicate Lit(hoverRating: int, rating: int, star: int): (lit: bool)
    ensures hoverRating != 0 ==> (lit <==> star <= hoverRating)
    ensures hoverRating == 0 ==> (lit <==> star <= rating)
  {
    Shown(hoverRating, rating) >= star
  }

  /** The number of lit stars among `1..n`. */
  function LitCount(hoverRating: int, rating: int, n: nat): (c: nat)
    ensures c <= n
  {
    if n == 0 then 0
    else LitCount(hoverRating, rating, n - 1) + (if Lit(hoverRating, rating, n) then 1 else 0)
  }

  /** The lit stars are exactly the first `Shown` ones, so the widget shows the value as a count. */
  lemma {:induction false} LitStarsCountShown(hoverRating: int, rating: int, n: nat)
    requires 0 <= Shown(hoverRating, rating) <= n
    ensures LitCount(hoverRating, rating, n) == Shown(hoverRating, rating)
  {
    var v := Shown(hoverRating, rating);
    if n > 0 {
      if v == n {
        LitCountAllBelow(hoverRating, rating, n - 1);
      } else {
        LitStarsCountShown(hoverRating, rating, n - 1);
      }
    }
  }

  lemma {:induction false} LitCountAllBelow(hoverRating: int, rating: int, n: nat)
    requires n <= Shown(hoverRating, rating)
    ensures LitCount(hoverRating, rating, n) == n
  {
    if n > 0 {
      LitCountAllBelow(hoverRating, rating, n - 1);
    }
  }

  /** One mounted widget for the card titled `title`. */
  class StarRating {
    const title: string
    const store: Ratings
    var rating: int
    var hoverRating: int

    /**
     * Mounting: both states start at 0, then the load effect adopts the stored
     * rating for `title` when the store reports one.
     */
    constructor (title: string, store: Ratings, readOk: bool)
      ensures this.title == title && this.store == store && hoverRating == 0
      ensures rating == RatingIn(Read(store.stored, readOk, map[]), title).GetOr(0)
    {
      this.title := title;
      this.store := store;
      rating := 0;
      hoverRating := 0;
      new;
      var saved := store.GetRatingForTitle(title, readOk);
      if saved.Some? {
        rating := saved.value;
      }
    }

    /** `handleSetRating(star)`: toggle the local rating and save it for the title. */
    method HandleSetRating(star: int, io: Io)
      requires IsStar(star)
      modifies this, store
      ensures rating == Toggled(old(rating), star) && hoverRating == old(hoverRating)
      ensures io.writeOk ==> store.stored == WithRating(Read(old(store.stored), io.readOk, map[]), title, rating)
      ensures io.writeOk && io.readOk ==> RatingIn(store.stored, title) == if rating == 0 then None else Some(rating)
      ensures !io.writeOk ==> store.stored == old(store.stored)
      ensures rating == 0 || IsStar(rating)
    {
      var finalRating := Toggled(rating, star);
      rating := finalRating;
      store.SaveRatingForTitle(title, finalRating, io);
    }

    /** Pointer enters star `star`. */
    method HoverStar(star: int)
      requires IsStar(star)
      modifies this
      ensures hoverRating == star && rating == old(rating)
    {
      hoverRating := star;
    }

    /** Pointer leaves a star. */
    method LeaveStar()
      modifies this
      ensures hoverRating == 0 && rating == old(rating)
    {
      hoverRating := 0;
    }
  }
}
