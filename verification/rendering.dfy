/**
  What one review card shows: the star indicator, the (possibly shortened) review text and
  the author, and the three fixed cards shown when no live reviews are available.
  A card is kept as its three visible parts; the surrounding markup is not modelled.
 */
module Rendering {
  import opened Wrappers
  import opened Provider

  const FilledStar: char := '\U{2605}'
  const EmptyStar: char := '\U{2606}'
  /** Every indicator has this many star glyphs (the `5` in `5 - review.rating`). */
  const StarSlots: nat := 5
  /** Texts longer than this are cut. */
  const MaxTextLength: nat := 200
  const Ellipsis: string := "..."

  datatype Card = Card(stars: string, text: string, author: string)

  /** `c.repeat(n)` for a one-character string `c`. */
  function Repeat(c: char, n: nat): (r: string)
    ensures |r| == n
    ensures forall i :: 0 <= i < n ==> r[i] == c
  {
    if n == 0 then "" else [c] + Repeat(c, n - 1)
  }

  /**
    Both `repeat` calls accept their count: `String.prototype.repeat` throws a RangeError
    on a negative count, so a rating below 0 or above 5 makes the card throw.
   */
  predicate RatingRenderable(rating: int) {
    0 <= rating <= StarSlots
  }

  function Stars(rating: int): (r: string)
    requires RatingRenderable(rating)
    ensures |r| == StarSlots
  {
    Repeat(FilledStar, rating) + Repeat(EmptyStar, StarSlots - rating)
  }

  /** The review text as shown: cut to its first 200 characters plus "..." when longer. */
  function Excerpt(text: string): (r: string)
    ensures |r| <= MaxTextLength + |Ellipsis|
    ensures |text| <= MaxTextLength ==> r == text
  {
    if |text| > MaxTextLength then text[..MaxTextLength] + Ellipsis else text
  }

  /** The body of the `reviews.map` callback. */
  function RenderCard(r: Review): (c: Card)
    requires RatingRenderable(r.rating)
    ensures c.author == r.authorName
    ensures |c.stars| == StarSlots
    ensures |c.text| <= MaxTextLength + |Ellipsis|
  {
    Card(Stars(r.rating), Excerpt(r.text), r.authorName)
  }

  /**
    `reviews.map(...)`: one card per review, in order, or None when some card throws
    (a rating `repeat` refuses), in which case no markup is produced at all.
   */
  function RenderCards(rs: seq<Review>): (r: Option<seq<Card>>)
    ensures r.Some? <==> forall i :: 0 <= i < |rs| ==> RatingRenderable(rs[i].rating)
    ensures r.Some? ==> |r.value| == |rs|
    ensures r.Some? ==> forall i :: 0 <= i < |rs| ==> r.value[i] == RenderCard(rs[i])
  {
    if rs == [] then Some([])
    else if !RatingRenderable(rs[0].rating) then None
    else
      match RenderCards(rs[1..])
      case None => None
      case Some(cs) => Some([RenderCard(rs[0])] + cs)
  }

  const FiveStars: string := "\U{2605}\U{2605}\U{2605}\U{2605}\U{2605}"

  /** The static cards of `displayFallbackReviews`. */
  const FallbackCards: seq<Card> := [
    Card(FiveStars, "I can't say enough about this company. The owner and his crew are amazing. They transformed my lawn and did a wonderful landscaping job around my pool cage.", "Sarah M."),
    Card(FiveStars, "Super professional, loved the new design they put in for us. Would use again when we do our next landscape project. Highly recommend.", "John D."),
    Card(FiveStars, "Absolutely amazing job! Very professional team. I never have to worry about the job being done. Would 100% recommend them over anyone else in Citrus county!", "Lisa W.")
  ]

  /** The indicator has five glyphs: `rating` filled ones, then the empty ones. */
  lemma StarsShape(rating: int)
    requires RatingRenderable(rating)
    ensures |Stars(rating)| == StarSlots
    ensures forall i :: 0 <= i < rating ==> Stars(rating)[i] == FilledStar
    ensures forall i :: rating <= i < StarSlots ==> Stars(rating)[i] == EmptyStar
  {
    var filled := Repeat(FilledStar, rating);
    var empty := Repeat(EmptyStar, StarSlots - rating);
    assert forall i :: rating <= i < StarSlots ==> Stars(rating)[i] == empty[i - rating];
  }

  /** The number of filled glyphs in an indicator: an independent way to read a rating. */
  function FilledCount(s: string): nat {
    if s == [] then 0 else (if s[0] == FilledStar then 1 else 0) + FilledCount(s[1..])
  }

  lemma {:induction false} FilledCountAppend(s: string, t: string)
    ensures FilledCount(s + t) == FilledCount(s) + FilledCount(t)
  {
    if s != [] {
      assert (s + t)[1..] == s[1..] + t;
      FilledCountAppend(s[1..], t);
    } else {
      assert s + t == t;
    }
  }

  lemma {:induction false} FilledCountRepeat(c: char, n: nat)
    ensures FilledCount(Repeat(c, n)) == if c == FilledStar then n else 0
  {
    if n > 0 {
      assert Repeat(c, n)[1..] == Repeat(c, n - 1);
      FilledCountRepeat(c, n - 1);
    }
  }

  /** The indicator holds exactly `rating` filled glyphs, so the rating can be read back off it. */
  lemma StarsCountRating(rating: int)
    requires RatingRenderable(rating)
    ensures FilledCount(Stars(rating)) == rating
  {
    FilledCountAppend(Repeat(FilledStar, rating), Repeat(EmptyStar, StarSlots - rating));
    FilledCountRepeat(FilledStar, rating);
    FilledCountRepeat(EmptyStar, StarSlots - rating);
  }

  /** Different ratings give different indicators. */
  lemma StarsDetermineRating(a: int, b: int)
    requires RatingRenderable(a) && RatingRenderable(b)
    requires Stars(a) == Stars(b)
    ensures a == b
  {
    StarsCountRating(a);
    StarsCountRating(b);
  }

  /** A long text becomes exactly 203 characters: its first 200 and the ellipsis. */
  lemma ExcerptOfLongText(text: string)
    requires |text| > MaxTextLength
    ensures |Excerpt(text)| == MaxTextLength + |Ellipsis|
    ensures Excerpt(text)[..MaxTextLength] == text[..MaxTextLength]
    ensures Excerpt(text)[MaxTextLength..] == Ellipsis
  {
  }

  /**
    A text is shown unchanged exactly when it has at most 200 characters, or when it already
    has the shape of a shortened text (203 characters ending in the ellipsis).
   */
  lemma ExcerptUnchangedIff(text: string)
    ensures Excerpt(text) == text <==>
      |text| <= MaxTextLength || (|text| == MaxTextLength + |Ellipsis| && text[MaxTextLength..] == Ellipsis)
  {
    if |text| > MaxTextLength {
      var e := Excerpt(text);
      assert |e| == MaxTextLength + |Ellipsis|;
      assert e[MaxTextLength..] == Ellipsis;
      assert text == text[..MaxTextLength] + text[MaxTextLength..];
    }
  }

  /** Shortening twice shortens once. */
  lemma ExcerptIdempotent(text: string)
    ensures Excerpt(Excerpt(text)) == Excerpt(text)
  {
    if |text| > MaxTextLength {
      var e := Excerpt(text);
      assert e[..MaxTextLength] == text[..MaxTextLength];
    }
  }

  /** A card shows the author as given, the rating as its filled-star count and the shortened text. */
  lemma CardShowsReview(r: Review)
    requires RatingRenderable(r.rating)
    ensures RenderCard(r).author == r.authorName
    ensures |RenderCard(r).stars| == StarSlots
    ensures forall i :: 0 <= i < StarSlots ==>
      RenderCard(r).stars[i] == (if i < r.rating then FilledStar else EmptyStar)
    ensures |r.text| <= MaxTextLength ==> RenderCard(r).text == r.text
    ensures |r.text| > MaxTextLength ==> RenderCard(r).text == r.text[..MaxTextLength] + Ellipsis
  {
    StarsShape(r.rating);
  }

  /** The static reviews behind the fallback cards. */
  const FallbackReviews: seq<Review> :=
    seq(|FallbackCards|, i requires 0 <= i < |FallbackCards| => Review(FallbackCards[i].author, 5, FallbackCards[i].text))

  /**
    The fallback content is exactly three five-star cards by Sarah M., John D. and Lisa W.,
    laid out as `displayReviews` would lay out those reviews.
   */
  lemma FallbackShape()
    ensures |FallbackCards| == 3
    ensures FallbackCards[0].author == "Sarah M."
    ensures FallbackCards[1].author == "John D."
    ensures FallbackCards[2].author == "Lisa W."
    ensures forall i :: 0 <= i < 3 ==> FallbackCards[i].stars == Stars(5)
    ensures RenderCards(FallbackReviews) == Some(FallbackCards)
  {
    assert Stars(5) == FiveStars by {
      StarsShape(5);
    }
    assert |FallbackReviews| == 3;
    forall i | 0 <= i < 3
      ensures RatingRenderable(FallbackReviews[i].rating)
      ensures |FallbackCards[i].text| <= MaxTextLength
      ensures RenderCard(FallbackReviews[i]) == FallbackCards[i]
    {
    }
    var r := RenderCards(FallbackReviews);
    assert r.Some? && |r.value| == 3;
    assert forall i :: 0 <= i < 3 ==> r.value[i] == FallbackCards[i];
    assert r.value == FallbackCards;
  }
}
