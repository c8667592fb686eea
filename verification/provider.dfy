/**
  What the Places details endpoint hands the widget: a review record and the three
  shapes a response can take once it has been fetched and parsed.
 */
module Provider {
  /** One entry of `result.reviews`; only the fields the widget reads. */
  datatype Review = Review(authorName: string, rating: int, text: string)

  /**
    The outcome of `fetch` + `response.json()`: a thrown error anywhere on the way,
    a body without `result.reviews`, or a body with a review list (possibly empty).
   */
  datatype Response = Failure | NoReviews | Reviews(reviews: seq<Review>)

  /** How many reviews the widget keeps from a response (`slice(0, 3)`). */
  const ShownLimit: nat := 3

  /** `reviews.slice(0, 3)`: the first three reviews, or all of them when there are fewer. */
  function TopReviews(reviews: seq<Review>): (top: seq<Review>)
    ensures |top| == if |reviews| < ShownLimit then |reviews| else ShownLimit
    ensures forall i :: 0 <= i < |top| ==> top[i] == reviews[i]
  {
    if |reviews| < ShownLimit then reviews else reviews[..ShownLimit]
  }
}
