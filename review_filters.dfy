/**
 * The pipes-and-filters stage of the review-processing library: filters
 * compact the review array in place and lower `*count`, transforms rewrite
 * each of the first `*count` reviews, and `process_reviews` runs a list of
 * such stages in order.
 */
module ReviewFilters {
  import opened ReviewText

  datatype Review = Review(username: string, productname: string, reviewtext: string, attachment: string)

  /** The elements of `s` that `keep` accepts, in their original order. */
  function Filter(s: seq<Review>, keep: Review -> bool): (r: seq<Review>)
    ensures |r| <= |s|
  {
    if s == [] then []
    else Filter(s[..|s| - 1], keep) + (if keep(s[|s| - 1]) then [s[|s| - 1]] else [])
  }

  /** `f` applied to every element of `s`, position by position. */
  function Map(s: seq<Review>, f: Review -> Review): (r: seq<Review>)
    ensures |r| == |s| && forall k :: 0 <= k < |s| ==> r[k] == f(s[k])
  {
    seq(|s|, k requires 0 <= k < |s| => f(s[k]))
  }

  predicate IsBuyerReview(r: Review) {
    IsBuyer(r.username, r.productname)
  }

  predicate IsClean(r: Review) {
    !ContainsProfanity(r.reviewtext)
  }

  function Resized(r: Review): Review {
    r.(attachment := Lowercased(r.attachment))
  }

  function Analyzed(r: Review): Review {
    r.(reviewtext := WithSentiment(r.reviewtext))
  }

  lemma {:induction false} FilterMembers(s: seq<Review>, keep: Review -> bool, x: Review)
    ensures x in Filter(s, keep) <==> x in s && keep(x)
  {
    if s != [] {
      var init := s[..|s| - 1];
      FilterMembers(init, keep, x);
      assert s == init + [s[|s| - 1]];
    }
  }

  /** Filtering an already filtered list changes nothing. */
  lemma {:induction false} FilterIdempotent(s: seq<Review>, keep: Review -> bool)
    ensures Filter(Filter(s, keep), keep) == Filter(s, keep)
  {
    if s != [] {
      var init := s[..|s| - 1];
      var last := s[|s| - 1];
      FilterIdempotent(init, keep);
      var f := Filter(s, keep);
      if keep(last) {
        assert f == Filter(init, keep) + [last];
        assert f[..|f| - 1] == Filter(init, keep);
      } else {
        assert f == Filter(init, keep);
      }
    }
  }

  /** Two filters give the same result in either order. */
  lemma {:induction false} FiltersCommute(s: seq<Review>, p: Review -> bool, q: Review -> bool)
    ensures Filter(Filter(s, p), q) == Filter(Filter(s, q), p)
  {
    if s != [] {
      var init := s[..|s| - 1];
      var last := s[|s| - 1];
      FiltersCommute(init, p, q);
      FilterAppend(Filter(init, p), q, if p(last) then [last] else []);
      FilterAppend(Filter(init, q), p, if q(last) then [last] else []);
    }
  }

  lemma FilterAppend(s: seq<Review>, keep: Review -> bool, t: seq<Review>)
    requires |t| <= 1
    ensures Filter(s + t, keep) == Filter(s, keep) + Filter(t, keep)
  {
    if t != [] {
      assert (s + t)[..|s + t| - 1] == s && (s + t)[|s + t| - 1] == t[0];
      assert t[..0] == [];
      assert Filter(t, keep) == if keep(t[0]) then [t[0]] else [];
    } else {
      assert s + t == s;
    }
  }

  /**
   * The two-index compaction of `filter_non_buyers` and `filter_profanities`:
   * kept reviews move down to `reviews[j++]`; slots from the new count on
   * are never written.
   */
  method Compact(reviews: array<Review>, count: nat, keep: Review -> bool) returns (newCount: nat)
    requires count <= reviews.Length
    modifies reviews
    ensures newCount <= count
    ensures reviews[..newCount] == Filter(old(reviews[..count]), keep)
    ensures forall k :: newCount <= k < reviews.Length ==> reviews[k] == old(reviews[k])
  {
    var j := 0;
    var i := 0;
    while i < count
      invariant 0 <= j <= i <= count
      invariant reviews[..j] == Filter(old(reviews[..i]), keep)
      invariant forall k :: j <= k < reviews.Length ==> reviews[k] == old(reviews[k])
    {
      assert old(reviews[..i + 1])[..i] == old(reviews[..i]);
      if keep(reviews[i]) {
        reviews[j] := reviews[i];
        j := j + 1;
      }
      i := i + 1;
    }
    newCount := j;
  }

  method FilterNonBuyers(reviews: array<Review>, count: nat) returns (newCount: nat)
    requires count <= reviews.Length
    modifies reviews
    ensures newCount <= count
    ensures reviews[..newCount] == Filter(old(reviews[..count]), IsBuyerReview)
    ensures forall k :: newCount <= k < reviews.Length ==> reviews[k] == old(reviews[k])
  {
    newCount := Compact(reviews, count, IsBuyerReview);
  }

  method FilterProfanities(reviews: array<Review>, count: nat) returns (newCount: nat)
    requires count <= reviews.Length
    modifies reviews
    ensures newCount <= count
    ensures reviews[..newCount] == Filter(old(reviews[..count]), IsClean)
    ensures forall k :: newCount <= k < reviews.Length ==> reviews[k] == old(reviews[k])
  {
    newCount := Compact(reviews, count, IsClean);
  }

  /** `transform_resize_pictures`: `*count` is left alone. */
  method TransformResizePictures(reviews: array<Review>, count: nat)
    requires count <= reviews.Length
    modifies reviews
    ensures reviews[..count] == Map(old(reviews[..count]), Resized)
    ensures forall k :: count <= k < reviews.Length ==> reviews[k] == old(reviews[k])
  {
    var i := 0;
    while i < count
      invariant 0 <= i <= count
      invariant forall k :: 0 <= k < i ==> reviews[k] == Resized(old(reviews[k]))
      invariant forall k :: i <= k < reviews.Length ==> reviews[k] == old(reviews[k])
    {
      var attachment := ResizePicture(reviews[i].attachment);
      reviews[i] := reviews[i].(attachment := attachment);
      i := i + 1;
    }
  }

  /** The texts of `rs` can each take `extra` more characters in a `char[MAX_LENGTH]`. */
  predicate TextsFit(rs: seq<Review>, extra: nat) {
    forall r :: r in rs ==> |r.reviewtext| + extra < MAX_LENGTH
  }

  /** `transform_analyze_sentiment`: `*count` is left alone. */
  method TransformAnalyzeSentiment(reviews: array<Review>, count: nat)
    requires count <= reviews.Length && TextsFit(reviews[..count], 1)
    modifies reviews
    ensures reviews[..count] == Map(old(reviews[..count]), Analyzed)
    ensures forall k :: count <= k < reviews.Length ==> reviews[k] == old(reviews[k])
  {
    var i := 0;
    while i < count
      invariant 0 <= i <= count
      invariant forall k :: 0 <= k < i ==> reviews[k] == Analyzed(old(reviews[k]))
      invariant forall k :: i <= k < reviews.Length ==> reviews[k] == old(reviews[k])
    {
      assert reviews[i] in old(reviews[..count]);
      var text := AnalyzeSentiment(reviews[i].reviewtext);
      reviews[i] := reviews[i].(reviewtext := text);
      i := i + 1;
    }
  }

  /** The four library functions with the `int (*)(Review *, int *)` signature. */
  datatype Stage = NonBuyersFilter | ProfanityFilter | ResizeTransform | SentimentTransform

  function ApplyStage(rs: seq<Review>, stage: Stage): seq<Review> {
    match stage
    case NonBuyersFilter => Filter(rs, IsBuyerReview)
    case ProfanityFilter => Filter(rs, IsClean)
    case ResizeTransform => Map(rs, Resized)
    case SentimentTransform => Map(rs, Analyzed)
  }

  /** The reviews left after running `stages` in order. */
  function Pipeline(rs: seq<Review>, stages: seq<Stage>): seq<Review>
    decreases |stages|
  {
    if stages == [] then rs else Pipeline(ApplyStage(rs, stages[0]), stages[1..])
  }

  /**
   * Every sentiment stage of `stages` finds room for its marker in each text
   * it reaches, the reviews the earlier filters removed aside.
   */
  predicate PipelineFits(rs: seq<Review>, stages: seq<Stage>)
    decreases |stages|
  {
    stages == [] ||
      ((stages[0] == SentimentTransform ==> TextsFit(rs, 1)) && PipelineFits(ApplyStage(rs, stages[0]), stages[1..]))
  }

  /** After the buyer filter only the buyers' reviews need room for the marker. */
  lemma FilterThenSentimentFits(rs: seq<Review>)
    ensures PipelineFits(rs, [NonBuyersFilter, SentimentTransform]) <==> TextsFit(Filter(rs, IsBuyerReview), 1)
  {
    assert [NonBuyersFilter, SentimentTransform][1..] == [SentimentTransform];
    assert [SentimentTransform][1..] == [];
  }

  /** A pipeline never adds reviews, and a pipeline of transforms only keeps the count. */
  lemma {:induction false} PipelineCount(rs: seq<Review>, stages: seq<Stage>)
    ensures |Pipeline(rs, stages)| <= |rs|
    ensures (forall k :: 0 <= k < |stages| ==> stages[k] in {ResizeTransform, SentimentTransform}) ==>
      |Pipeline(rs, stages)| == |rs|
    decreases |stages|
  {
    if stages != [] {
      PipelineCount(ApplyStage(rs, stages[0]), stages[1..]);
    }
  }

  /** Runs one stage, as a call through the `filters` table does. */
  method RunStage(reviews: array<Review>, count: nat, stage: Stage) returns (newCount: nat)
    requires count <= reviews.Length
    requires stage == SentimentTransform ==> TextsFit(reviews[..count], 1)
    modifies reviews
    ensures newCount <= count
    ensures reviews[..newCount] == ApplyStage(old(reviews[..count]), stage)
    ensures forall k :: count <= k < reviews.Length ==> reviews[k] == old(reviews[k])
  {
    match stage
    case NonBuyersFilter =>
      newCount := FilterNonBuyers(reviews, count);
    case ProfanityFilter =>
      newCount := FilterProfanities(reviews, count);
    case ResizeTransform =>
      TransformResizePictures(reviews, count);
      newCount := count;
    case SentimentTransform =>
      TransformAnalyzeSentiment(reviews, count);
      newCount := count;
  }

  /** `process_reviews`: applies the stages in array order to the shrinking prefix. */
  method ProcessReviews(reviews: array<Review>, count: nat, stages: seq<Stage>) returns (newCount: nat)
    requires count <= reviews.Length && PipelineFits(reviews[..count], stages)
    modifies reviews
    ensures newCount <= count
    ensures reviews[..newCount] == Pipeline(old(reviews[..count]), stages)
    ensures forall k :: count <= k < reviews.Length ==> reviews[k] == old(reviews[k])
  {
    ghost var goal := Pipeline(reviews[..count], stages);
    newCount := count;
    var i := 0;
    while i < |stages|
      invariant 0 <= i <= |stages| && newCount <= count
      invariant Pipeline(reviews[..newCount], stages[i..]) == goal
      invariant PipelineFits(reviews[..newCount], stages[i..])
      invariant forall k :: count <= k < reviews.Length ==> reviews[k] == old(reviews[k])
    {
      ghost var before := reviews[..newCount];
      PipelineStep(before, stages, i);
      newCount := RunStage(reviews, newCount, stages[i]);
      i := i + 1;
    }
    assert stages[i..] == [];
  }

  /** Running the stages from `i` on is running stage `i`, then the rest, with room for each marker. */
  lemma PipelineStep(rs: seq<Review>, stages: seq<Stage>, i: nat)
    requires i < |stages| && PipelineFits(rs, stages[i..])
    ensures Pipeline(rs, stages[i..]) == Pipeline(ApplyStage(rs, stages[i]), stages[i + 1..])
    ensures PipelineFits(ApplyStage(rs, stages[i]), stages[i + 1..])
    ensures stages[i] == SentimentTransform ==> TextsFit(rs, 1)
  {
    assert stages[i..][1..] == stages[i + 1..];
  }
}
