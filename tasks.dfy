/** The two aggregate tasks of movies/tasks.py, `calculate_movie_stats` and
    `process_bulk_ratings`: select the ratings of one movie or of one user,
    count them, and report their mean score, or report that there are none.
    The tasks' `sleep` and the rounding to two places are not modelled, and
    scores are exact reals. */
module Tasks {
  import opened Records

  const NoRatingsMessage: string := "No ratings found"
  const MovieDoneMessage: string := "Statistics calculated successfully"
  const UserDoneMessage: string := "Bulk processing completed"

  /** Whose ratings a task aggregates; the variant is the result's id key
      (`movie_id` or `user_id`). */
  datatype Subject = MovieSubject(movieId: int) | UserSubject(userId: int)

  /** The filter `Rating.objects.filter(movie_id=...)` or `filter(user_id=...)`. */
  predicate Matches(r: Rating, s: Subject)
  {
    match s
    case MovieSubject(m) => r.movieId == m
    case UserSubject(u) => r.userId == u
  }

  /** The result dict: `totalRatings` and `averageRating` are `None` when
      the dict has no such key. */
  datatype StatsResult = StatsResult(subject: Subject, totalRatings: Option<nat>,
                                     averageRating: Option<real>, message: string)

  /** The ratings a statistics job considers: exactly the matching ones, each as
      often as it occurs among all ratings, in their original order. */
  function Selected(rs: seq<Rating>, s: Subject): (sel: seq<Rating>)
    ensures forall x :: multiset(sel)[x] == if Matches(x, s) then multiset(rs)[x] else 0
  {
    if rs == [] then []
    else
      var rest := Selected(rs[1..], s);
      assert rs == [rs[0]] + rs[1..];
      if Matches(rs[0], s) then [rs[0]] + rest else rest
  }

  /** `sum(r.rating for r in ratings)` */
  function SumScores(rs: seq<Rating>): real
  {
    if rs == [] then 0.0 else rs[0].score + SumScores(rs[1..])
  }

  /** The smallest score of a non-empty collection. */
  function MinScore(rs: seq<Rating>): (m: real)
    requires |rs| > 0
    ensures forall i :: 0 <= i < |rs| ==> m <= rs[i].score
    ensures exists i :: 0 <= i < |rs| && rs[i].score == m
  {
    if |rs| == 1 then rs[0].score
    else
      var rest := MinScore(rs[1..]);
      assert forall i :: 1 <= i < |rs| ==> rs[i] == rs[1..][i - 1];
      if rs[0].score <= rest then rs[0].score else rest
  }

  /** The largest score of a non-empty collection. */
  function MaxScore(rs: seq<Rating>): (m: real)
    requires |rs| > 0
    ensures forall i :: 0 <= i < |rs| ==> rs[i].score <= m
    ensures exists i :: 0 <= i < |rs| && rs[i].score == m
  {
    if |rs| == 1 then rs[0].score
    else
      var rest := MaxScore(rs[1..]);
      assert forall i :: 1 <= i < |rs| ==> rs[i] == rs[1..][i - 1];
      if rs[0].score >= rest then rs[0].score else rest
  }

  /** The shared body of both tasks: count the selected ratings; if there
      are any, report the count and the mean score with `doneMessage`,
      otherwise only the subject and "No ratings found". */
  function Aggregate(rs: seq<Rating>, s: Subject, doneMessage: string): (r: StatsResult)
    ensures r.subject == s
    ensures r.totalRatings.None? <==> forall i :: 0 <= i < |rs| ==> !Matches(rs[i], s)
    ensures r.averageRating.None? <==> r.totalRatings.None?
    ensures r.totalRatings.None? ==> r.message == NoRatingsMessage
    ensures r.totalRatings.Some? ==> r.message == doneMessage
    ensures r.totalRatings.Some? ==> r.totalRatings.value == |Selected(rs, s)| == |MatchingPositions(rs, s)| > 0
    ensures r.averageRating.Some? ==>
      r.averageRating.value == SumScores(Selected(rs, s)) / (|Selected(rs, s)| as real)
  {
    var ratings := Selected(rs, s);
    var count := |ratings|;
    SelectedCount(rs, s);
    if count > 0 then
      var avg := SumScores(ratings) / (count as real);
      StatsResult(s, Some(count), Some(avg), doneMessage)
    else
      StatsResult(s, None, None, NoRatingsMessage)
  }

  /** Nothing is selected exactly when no rating matches. */
  lemma NoneSelected(rs: seq<Rating>, s: Subject)
    ensures |Selected(rs, s)| == 0 <==> forall i :: 0 <= i < |rs| ==> !Matches(rs[i], s)
  {
  }

  /** `calculate_movie_stats(movie_id)` */
  function CalculateMovieStats(rs: seq<Rating>, movieId: int): (r: StatsResult)
    ensures r.subject == MovieSubject(movieId)
    ensures r.totalRatings.None? <==> forall i :: 0 <= i < |rs| ==> rs[i].movieId != movieId
    ensures r.averageRating.None? <==> r.totalRatings.None?
    ensures r.totalRatings.Some? ==> r.totalRatings.value == |MatchingPositions(rs, MovieSubject(movieId))|
    ensures r.totalRatings.Some? ==>
      var sel := Selected(rs, MovieSubject(movieId));
      |sel| > 0 && r.averageRating == Some(SumScores(sel) / (|sel| as real))
    ensures r.message == if r.totalRatings.None? then NoRatingsMessage else MovieDoneMessage
  {
    Aggregate(rs, MovieSubject(movieId), MovieDoneMessage)
  }

  /** `process_bulk_ratings(user_id)` */
  function ProcessBulkRatings(rs: seq<Rating>, userId: int): (r: StatsResult)
    ensures r.subject == UserSubject(userId)
    ensures r.totalRatings.None? <==> forall i :: 0 <= i < |rs| ==> rs[i].userId != userId
    ensures r.averageRating.None? <==> r.totalRatings.None?
    ensures r.totalRatings.Some? ==> r.totalRatings.value == |MatchingPositions(rs, UserSubject(userId))|
    ensures r.totalRatings.Some? ==>
      var sel := Selected(rs, UserSubject(userId));
      |sel| > 0 && r.averageRating == Some(SumScores(sel) / (|sel| as real))
    ensures r.message == if r.totalRatings.None? then NoRatingsMessage else UserDoneMessage
  {
    Aggregate(rs, UserSubject(userId), UserDoneMessage)
  }

  /** The positions of the matching ratings. */
  function MatchingPositions(rs: seq<Rating>, s: Subject): set<int>
  {
    set i | 0 <= i < |rs| && Matches(rs[i], s)
  }

  /** One more rating at the end is selected exactly when it matches. */
  lemma {:induction false} SelectedAppend(rs: seq<Rating>, x: Rating, s: Subject)
    ensures Selected(rs + [x], s) == Selected(rs, s) + (if Matches(x, s) then [x] else [])
  {
    if rs == [] {
      assert [] + [x] == [x];
      assert [x][1..] == [];
    } else {
      assert (rs + [x])[1..] == rs[1..] + [x];
      assert (rs + [x])[0] == rs[0];
      SelectedAppend(rs[1..], x, s);
    }
  }

  lemma PositionsAppend(rs: seq<Rating>, x: Rating, s: Subject)
    ensures MatchingPositions(rs + [x], s) == MatchingPositions(rs, s) + (if Matches(x, s) then {|rs|} else {})
  {
  }

  /** `total_ratings` is the number of ratings that match. */
  lemma {:induction false} SelectedCount(rs: seq<Rating>, s: Subject)
    ensures |Selected(rs, s)| == |MatchingPositions(rs, s)|
  {
    if rs != [] {
      var init, x := rs[..|rs| - 1], rs[|rs| - 1];
      assert rs == init + [x];
      SelectedCount(init, s);
      SelectedAppend(init, x, s);
      PositionsAppend(init, x, s);
      assert |init| !in MatchingPositions(init, s);
    }
  }

  /** Scores bounded by `lo` and `hi` have a sum between `n * lo` and `n * hi`. */
  lemma {:induction false} SumBounds(rs: seq<Rating>, lo: real, hi: real)
    requires forall i :: 0 <= i < |rs| ==> lo <= rs[i].score <= hi
    ensures lo * (|rs| as real) <= SumScores(rs) <= hi * (|rs| as real)
  {
    if rs != [] {
      SumBounds(rs[1..], lo, hi);
      var n := |rs[1..]| as real;
      assert lo * (n + 1.0) == lo * n + lo;
      assert hi * (n + 1.0) == hi * n + hi;
    }
  }

  /** The mean of a non-empty collection of ratings lies between its
      smallest and its largest score. */
  lemma MeanWithinScores(sel: seq<Rating>)
    requires |sel| > 0
    ensures MinScore(sel) <= SumScores(sel) / (|sel| as real) <= MaxScore(sel)
  {
    MeanBetween(sel, MinScore(sel), MaxScore(sel));
  }

  /** Scores bounded by `lo` and `hi` have a mean between them. */
  lemma MeanBetween(sel: seq<Rating>, lo: real, hi: real)
    requires |sel| > 0
    requires forall i :: 0 <= i < |sel| ==> lo <= sel[i].score <= hi
    ensures lo <= SumScores(sel) / (|sel| as real) <= hi
  {
    SumBounds(sel, lo, hi);
  }

  /** The reported mean of a non-empty match set lies between the smallest
      and the largest matching score. */
  lemma AverageWithinScores(rs: seq<Rating>, s: Subject, doneMessage: string)
    requires Aggregate(rs, s, doneMessage).averageRating.Some?
    ensures MinScore(Selected(rs, s)) <= Aggregate(rs, s, doneMessage).averageRating.value
    ensures Aggregate(rs, s, doneMessage).averageRating.value <= MaxScore(Selected(rs, s))
  {
    MeanWithinScores(Selected(rs, s));
  }

  /** A movie without ratings gives the no-data result. */
  lemma NoRatingsExample()
    ensures CalculateMovieStats(ExampleRatings(), 99) ==
      StatsResult(MovieSubject(99), None, None, NoRatingsMessage)
  {
  }

  /** Three ratings of movie 10 scored 3.0, 4.0 and 5.0 give a count of 3 and
      a mean of 4.0. */
  lemma MovieStatsExample()
    ensures CalculateMovieStats(ExampleRatings(), 10) ==
      StatsResult(MovieSubject(10), Some(3), Some(4.0), MovieDoneMessage)
  {
    var rs, m := ExampleRatings(), MovieSubject(10);
    assert rs[3..][1..] == [];
    assert Selected(rs[3..], m) == [];
    assert rs[2..][1..] == rs[3..];
    assert Selected(rs[2..], m) == [rs[2]];
    assert rs[1..][1..] == rs[2..];
    assert Selected(rs[1..], m) == [rs[1], rs[2]];
    assert Selected(rs, m) == rs[..3];
    assert SumScores(rs[..3]) == 12.0;
  }

  /** User 1 rated twice, 3.0 and 1.0: a count of 2 and a mean of 2.0. */
  lemma UserStatsExample()
    ensures ProcessBulkRatings(ExampleRatings(), 1) ==
      StatsResult(UserSubject(1), Some(2), Some(2.0), UserDoneMessage)
  {
    var rs, u := ExampleRatings(), UserSubject(1);
    assert rs[3..][1..] == [];
    assert Selected(rs[3..], u) == [rs[3]];
    assert rs[2..][1..] == rs[3..];
    assert Selected(rs[2..], u) == [rs[3]];
    assert rs[1..][1..] == rs[2..];
    assert Selected(rs[1..], u) == [rs[3]];
    assert Selected(rs, u) == [rs[0], rs[3]];
    assert SumScores([rs[0], rs[3]]) == 4.0;
  }

  function ExampleRatings(): seq<Rating>
  {
    [Rating(1, 10, 3.0, 0), Rating(2, 10, 4.0, 0), Rating(3, 10, 5.0, 0), Rating(1, 20, 1.0, 0)]
  }
}
