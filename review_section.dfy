/**
 * The product's review section: each review's stars and image, the
 * overall rating with its five-star bar, and the list cut to two reviews
 * until "show more" is pressed. Ratings are the whole numbers the review
 * collection stores.
 */
module ReviewSection {
  import opened Wrappers

  const FALLBACK_IMAGE: string := "/logo.png"
  const COLLAPSED_COUNT: nat := 2

  datatype Review = Review(author: string, message: string, rating: nat, mediaUrl: Option<string>)

  /** A valid rating is one to five stars. */
  predicate ValidRatings(reviews: seq<Review>) {
    forall i :: 0 <= i < |reviews| ==> 1 <= reviews[i].rating <= 5
  }

  /** The stars of one review, numbered from 1: as many as its rating. */
  function Stars(review: Review): (stars: seq<nat>)
    ensures |stars| == review.rating
    ensures forall i :: 0 <= i < |stars| ==> stars[i] == i + 1
  {
    seq(review.rating, i => i + 1)
  }

  /** The review's image, or the shop's logo when it has none (or an empty address). */
  function ImageSource(review: Review): (src: string)
    ensures src != ""
    ensures review.mediaUrl.Some? && review.mediaUrl.value != "" ==> src == review.mediaUrl.value
  {
    match review.mediaUrl
    case Some(url) => if url != "" then url else FALLBACK_IMAGE
    case None => FALLBACK_IMAGE
  }

  /** `overallResults`: the ratings added up, left to right. */
  function RatingSum(reviews: seq<Review>): nat {
    if reviews == [] then 0 else RatingSum(reviews[..|reviews| - 1]) + reviews[|reviews| - 1].rating
  }

  /** With valid ratings the sum lies between one and five stars per review. */
  lemma {:induction false} RatingSumBounds(reviews: seq<Review>)
    requires ValidRatings(reviews)
    ensures |reviews| <= RatingSum(reviews) <= 5 * |reviews|
  {
    if reviews != [] {
      RatingSumBounds(reviews[..|reviews| - 1]);
    }
  }

  /** `overallRating`: the mean rating; without reviews it is `0 / 0`, which has no value. */
  function OverallRating(reviews: seq<Review>): (r: Option<real>)
    ensures r.None? <==> reviews == []
    ensures r.Some? ==> r.value * |reviews| as real == RatingSum(reviews) as real
  {
    if reviews == [] then None else Some(RatingSum(reviews) as real / |reviews| as real)
  }

  /** The mean of valid ratings lies in `[1, 5]`. */
  lemma OverallRatingBounds(reviews: seq<Review>)
    requires reviews != [] && ValidRatings(reviews)
    ensures 1.0 <= OverallRating(reviews).value <= 5.0
  {
    RatingSumBounds(reviews);
    var n := |reviews| as real;
    var sum := RatingSum(reviews) as real;
    assert n <= sum <= 5.0 * n;
    MeanBounds(sum, n);
  }

  lemma MeanBounds(sum: real, n: real)
    requires n > 0.0 && n <= sum <= 5.0 * n
    ensures 1.0 <= sum / n <= 5.0
  {
    var avg := sum / n;
    assert avg * n == sum;
    assert avg * n - n == (avg - 1.0) * n;
    assert 5.0 * n - avg * n == (5.0 - avg) * n;
  }

  /** `percentage`: the share of the bar covered, and `minusPercentage`, the share masked. */
  function Percentages(overallRating: real): (r: (real, real))
    ensures r.0 == overallRating * 20.0
    ensures r.0 + r.1 == 100.0
  {
    var percentage := overallRating * 100.0 / 5.0;
    (percentage, 100.0 - percentage)
  }

  /** With valid ratings the covered share lies in `[20, 100]` and the masked share in `[0, 80]`. */
  lemma PercentageBounds(reviews: seq<Review>)
    requires reviews != [] && ValidRatings(reviews)
    ensures var p := Percentages(OverallRating(reviews).value);
      20.0 <= p.0 <= 100.0 && 0.0 <= p.1 <= 80.0
  {
    OverallRatingBounds(reviews);
  }

  /** The reviews listed: all of them after "show more", otherwise the first two. */
  function Shown(reviews: seq<Review>, showMore: bool): (shown: seq<Review>)
    ensures showMore ==> shown == reviews
    ensures !showMore ==> |shown| == if |reviews| < COLLAPSED_COUNT then |reviews| else COLLAPSED_COUNT
    ensures shown <= reviews
  {
    if showMore then reviews
    else if |reviews| < COLLAPSED_COUNT then reviews
    else reviews[..COLLAPSED_COUNT]
  }

  /** Collapsing hides nothing when there are at most two reviews. */
  lemma FewReviewsAllShown(reviews: seq<Review>, showMore: bool)
    requires |reviews| <= COLLAPSED_COUNT
    ensures Shown(reviews, showMore) == reviews
  {
  }
}
