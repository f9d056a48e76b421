/** The star row (src/components/game-rating.tsx), over real numbers. */
module GameRating {

  /** `Math.trunc`. */
  function Trunc(x: real): (t: int)
    ensures x >= 0.0 ==> t == x.Floor
    ensures x < 0.0 ==> t == -((-x).Floor)
  {
    if x >= 0.0 then x.Floor else -((-x).Floor)
  }

  /** JavaScript's `x % 1`: the remainder keeps the sign of `x`. */
  function ModOne(x: real): (r: real)
    ensures -1.0 < r < 1.0
    ensures x >= 0.0 ==> 0.0 <= r
    ensures x < 0.0 ==> r <= 0.0
  {
    x - Trunc(x) as real
  }

  datatype StarCounts = StarCounts(fullStars: int, partialStar: real, emptyStars: int)

  /** The three counts, before any array is built. */
  function Counts(rating: real, totalStars: int := 5): (c: StarCounts)
    ensures c.fullStars == rating.Floor
    ensures c.partialStar > 0.0 <==> rating > 0.0 && rating != rating.Floor as real
    ensures c.emptyStars == totalStars - c.fullStars - (if c.partialStar > 0.0 then 1 else 0)
  {
    var full := rating.Floor;
    var partial := ModOne(rating);
    StarCounts(full, partial, totalStars - full - (if partial > 0.0 then 1 else 0))
  }

  /** The row as drawn, or the RangeError that `Array(n)` throws for a negative length. */
  datatype StarRow = Stars(full: nat, partial: bool, empty: nat) | RangeError

  function RenderStars(rating: real, totalStars: int := 5): (r: StarRow)
    ensures r.Stars? ==> r.full == rating.Floor && r.full + (if r.partial then 1 else 0) + r.empty == totalStars
    ensures r.Stars? ==> (r.partial <==> rating > 0.0 && rating != rating.Floor as real)
    ensures r.RangeError? <==> rating.Floor < 0 || Counts(rating, totalStars).emptyStars < 0
  {
    var c := Counts(rating, totalStars);
    if c.fullStars < 0 || c.emptyStars < 0 then RangeError
    else Stars(c.fullStars, c.partialStar > 0.0, c.emptyStars)
  }

  /**
   * The row draws exactly when 0 <= rating <= totalStars, and then has
   * `totalStars` stars in all; one of them partial exactly when the rating
   * has a fractional part.
   */
  lemma {:induction false} RenderStarsInRange(rating: real, totalStars: int)
    ensures RenderStars(rating, totalStars).Stars? <==> 0.0 <= rating <= totalStars as real
    ensures RenderStars(rating, totalStars).Stars? ==>
      var r := RenderStars(rating, totalStars);
      && r.full == rating.Floor
      && (r.partial <==> rating != rating.Floor as real)
      && r.full + (if r.partial then 1 else 0) + r.empty == totalStars
  {
    var c := Counts(rating, totalStars);
    assert rating.Floor as real <= rating < rating.Floor as real + 1.0;
    if rating < 0.0 {
      assert c.fullStars < 0;
    }
  }

  /** A whole rating draws only full and empty stars. */
  lemma WholeRating(n: nat, totalStars: int)
    requires n <= totalStars
    ensures RenderStars(n as real, totalStars) == Stars(n, false, totalStars - n)
  {
  }
}
