/** The score aggregation of `src/calculate_moviescores.py`: the movie-id to folder mapping,
    the lookup of a movie's scored tweet table, the per-movie sentiment metrics, the
    per-title diversity counts and the two joins onto the movie table. File listings and
    table reads are parameters; rounding is left out. */
module MovieScores {
  import opened Wrappers
  import opened Strings
  import opened Paths
  import SentimentAnalysis

  /** The three score columns of a scored tweet table. */
  type Scores = SentimentAnalysis.Scores

  // ---------------------------------------------------------------- locating the table

  /** `map_folder2movieid_dict`: movie id to the folder holding its tweets. */
  const FolderMap: map<int, string> :=
    map[4 := "bridgerton", 2 := "ghostintheshell", 5 := "inception", 1 := "little_mermaid",
        7 := "mad_max_fury_road", 3 := "thewitcher", 6 := "wolf_of_wall_street"]

  /** The mapping covers the ids 1 to 7, each with its own folder. */
  lemma FolderMapShape()
    ensures FolderMap.Keys == {1, 2, 3, 4, 5, 6, 7}
    ensures forall a, b :: a in FolderMap && b in FolderMap && a != b ==> FolderMap[a] != FolderMap[b]
  {
    assert FolderMap[4][0] == 'b' && FolderMap[3][0] == 't';
    assert FolderMap[1][0] == 'l' && FolderMap[7][0] == 'm' && FolderMap[6][0] == 'w';
    assert FolderMap[2][0] == 'g' && FolderMap[5][0] == 'i';
  }

  /** A scored table of the whole collection: ends in "_sentiment.csv" and is not a subset. */
  predicate IsScoreCsvName(name: string)
  {
    EndsWith(name, "_sentiment.csv") && !Contains(name, "subset")
  }

  /** The position of the first scored table in a listing. */
  function FirstScoreIndex(listing: seq<string>): (k: Option<nat>)
    ensures k.Some? ==> k.value < |listing|
  {
    if |listing| == 0 then None
    else if IsScoreCsvName(listing[0]) then Some(0)
    else match FirstScoreIndex(listing[1..])
      case None => None
      case Some(k) => Some(k + 1)
  }

  /** The first, and only the first, scored table is found; None means there is none. */
  lemma {:induction false} FirstScoreIndexIsFirst(listing: seq<string>)
    ensures var k := FirstScoreIndex(listing);
      && (k.Some? ==> IsScoreCsvName(listing[k.value])
                      && forall j :: 0 <= j < k.value ==> !IsScoreCsvName(listing[j]))
      && (k.None? ==> forall j :: 0 <= j < |listing| ==> !IsScoreCsvName(listing[j]))
  {
    if |listing| > 0 && !IsScoreCsvName(listing[0]) {
      FirstScoreIndexIsFirst(listing[1..]);
      assert forall j :: 1 <= j < |listing| ==> listing[j] == listing[1..][j - 1];
    }
  }

  /** A scored table at k with none before it is the one found; with none at all, none is. */
  lemma {:induction false} FirstScoreIndexAt(listing: seq<string>, k: nat)
    requires k <= |listing|
    requires k < |listing| ==> IsScoreCsvName(listing[k])
    requires forall j :: 0 <= j < k ==> !IsScoreCsvName(listing[j])
    ensures FirstScoreIndex(listing) == if k < |listing| then Some(k) else None
  {
    if |listing| > 0 && k > 0 {
      assert !IsScoreCsvName(listing[0]);
      assert forall j :: 0 <= j < k - 1 ==> listing[1..][j] == listing[j + 1];
      FirstScoreIndexAt(listing[1..], k - 1);
    }
  }

  /** `os.path.join(project_path, 'data', 'twitter', folder_name)` */
  function FolderPath(projectPath: string, folderName: string): string
  {
    PathJoin(PathJoin(PathJoin(projectPath, "data"), "twitter"), folderName)
  }

  /** Why a movie gets no metrics: its id has no folder (the dictionary lookup raises), or its
      folder has no scored table (`read_csv(None)` raises). */
  datatype ScoreError = UnknownMovie(id: int) | NoSentimentFile(id: int)

  /** `os.listdir`: the names in a directory, in the order the file system gives them. */
  type Listdir = string -> seq<string>

  /** What `locate_sentimentcsv` returns. */
  function LocatedFile(movieId: int, folders: map<int, string>, projectPath: string, listdir: Listdir)
    : Result<Option<string>, ScoreError>
  {
    if movieId !in folders then Failure(UnknownMovie(movieId))
    else
      var folderPath := FolderPath(projectPath, folders[movieId]);
      var listing := listdir(folderPath);
      match FirstScoreIndex(listing)
      case None => Success(None)
      case Some(k) => Success(Some(PathJoin(folderPath, listing[k])))
  }

  /** `locate_sentimentcsv`: scans the folder and returns at the first scored table. */
  method LocateSentimentCsv(movieId: int, folders: map<int, string>, projectPath: string, listdir: Listdir)
    returns (r: Result<Option<string>, ScoreError>)
    ensures r == LocatedFile(movieId, folders, projectPath, listdir)
  {
    if movieId !in folders {
      return Failure(UnknownMovie(movieId));
    }
    var folderName := folders[movieId];
    var folderPath := FolderPath(projectPath, folderName);
    var listing := listdir(folderPath);
    for k := 0 to |listing|
      invariant forall j :: 0 <= j < k ==> !IsScoreCsvName(listing[j])
    {
      if IsScoreCsvName(listing[k]) {
        FirstScoreIndexAt(listing, k);
        return Success(Some(PathJoin(folderPath, listing[k])));
      }
    }
    FirstScoreIndexAt(listing, |listing|);
    return Success(None);
  }

  // ---------------------------------------------------------------- sentiment metrics

  /** The score columns, in the order `np.argmax` sees them. */
  datatype Label = Negative | Neutral | Positive

  function Value(s: Scores, l: Label): real
  {
    match l
    case Negative => s.negative
    case Neutral => s.neutral
    case Positive => s.positive
  }

  function Position(l: Label): nat
  {
    match l
    case Negative => 0
    case Neutral => 1
    case Positive => 2
  }

  /** `overall_sentiment`: the column of `np.argmax` over the row. */
  function OverallSentiment(s: Scores): Label
  {
    if s.negative >= s.neutral && s.negative >= s.positive then Negative
    else if s.neutral >= s.positive then Neutral
    else Positive
  }

  /** The label holds a maximal score, and every earlier column holds a strictly smaller one:
      ties go to the earlier column. */
  lemma OverallIsFirstArgmax(s: Scores)
    ensures forall l :: Value(s, l) <= Value(s, OverallSentiment(s))
    ensures forall l :: Position(l) < Position(OverallSentiment(s)) ==> Value(s, l) < Value(s, OverallSentiment(s))
  {
  }

  /** The number of rows labelled l. */
  function CountLabel(rows: seq<Scores>, l: Label): (c: nat)
    ensures c <= |rows|
  {
    if |rows| == 0 then 0
    else (if OverallSentiment(rows[0]) == l then 1 else 0) + CountLabel(rows[1..], l)
  }

  /** Every row has exactly one label: the counts add up to `n_tweets`. */
  lemma {:induction false} CountsSum(rows: seq<Scores>)
    ensures CountLabel(rows, Negative) + CountLabel(rows, Neutral) + CountLabel(rows, Positive) == |rows|
  {
    if |rows| > 0 {
      CountsSum(rows[1..]);
    }
  }

  /** A label is counted exactly when some row carries it. */
  lemma {:induction false} CountLabelPositive(rows: seq<Scores>, l: Label)
    ensures CountLabel(rows, l) > 0 <==> exists k :: 0 <= k < |rows| && OverallSentiment(rows[k]) == l
  {
    if |rows| > 0 {
      CountLabelPositive(rows[1..], l);
      if OverallSentiment(rows[0]) != l && CountLabel(rows, l) > 0 {
        var k :| 0 <= k < |rows[1..]| && OverallSentiment(rows[1..][k]) == l;
        assert OverallSentiment(rows[k + 1]) == l;
      }
      if exists k :: 0 <= k < |rows| && OverallSentiment(rows[k]) == l {
        var k :| 0 <= k < |rows| && OverallSentiment(rows[k]) == l;
        if k > 0 {
          assert OverallSentiment(rows[1..][k - 1]) == l;
        }
      }
    }
  }

  /** `groupby('overall_sentiment').size() * 100 / n_tweets`: only labels that occur get an entry. */
  function Percentages(rows: seq<Scores>): map<Label, real>
  {
    map l | l in {Negative, Neutral, Positive} && CountLabel(rows, l) > 0
      :: (CountLabel(rows, l) as real) * 100.0 / (|rows| as real)
  }

  function Percent(rows: seq<Scores>, l: Label): real
  {
    var p := Percentages(rows);
    if l in p then p[l] else 0.0
  }

  /** The percentages of a non-empty table add up to 100. */
  lemma PercentagesSum(rows: seq<Scores>)
    requires |rows| > 0
    ensures Percent(rows, Negative) + Percent(rows, Neutral) + Percent(rows, Positive) == 100.0
  {
    CountsSum(rows);
    var n := |rows| as real;
    var a := CountLabel(rows, Negative) as real;
    var b := CountLabel(rows, Neutral) as real;
    var c := CountLabel(rows, Positive) as real;
    PercentOf(rows, Negative);
    PercentOf(rows, Neutral);
    PercentOf(rows, Positive);
    assert a + b + c == n;
    DivAdd(a * 100.0, b * 100.0, c * 100.0, n);
  }

  /** A label that does not occur has no entry, which reads as 0 percent. */
  lemma PercentOf(rows: seq<Scores>, l: Label)
    requires |rows| > 0
    ensures Percent(rows, l) == (CountLabel(rows, l) as real) * 100.0 / (|rows| as real)
  {
    if CountLabel(rows, l) == 0 {
      assert l !in Percentages(rows);
    } else {
      assert l in Percentages(rows);
    }
  }

  lemma DivAdd(x: real, y: real, z: real, n: real)
    requires n > 0.0 && x + y + z == 100.0 * n
    ensures x / n + y / n + z / n == 100.0
  {
    assert x / n + y / n + z / n == (x + y + z) / n;
  }

  /** The column sum of l. */
  function Sum(rows: seq<Scores>, l: Label): real
  {
    if |rows| == 0 then 0.0 else Value(rows[0], l) + Sum(rows[1..], l)
  }

  /** The column mean; `mean()` of an empty column is NaN, here None. */
  function Mean(rows: seq<Scores>, l: Label): (m: Option<real>)
  {
    if |rows| == 0 then None else Some(Sum(rows, l) / (|rows| as real))
  }

  /** `sentiment_score` before rounding: the sums weighted by -1, 0 and 1, over `n_tweets`. */
  function SentimentScore(rows: seq<Scores>): Option<real>
  {
    if |rows| == 0 then None
    else Some((Sum(rows, Negative) * -1.0 + Sum(rows, Neutral) * 0.0 + Sum(rows, Positive) * 1.0)
              / (|rows| as real))
  }

  /** The score is the positive mass minus the negative mass per tweet; neutral does not count. */
  lemma SentimentScoreBalance(rows: seq<Scores>)
    requires |rows| > 0
    ensures SentimentScore(rows) == Some((Sum(rows, Positive) - Sum(rows, Negative)) / (|rows| as real))
  {
  }

  /** Changing only the neutral column leaves the score as it is. */
  lemma {:induction false} SentimentScoreIgnoresNeutral(rows: seq<Scores>, other: seq<Scores>)
    requires |rows| == |other|
    requires forall k :: 0 <= k < |rows| ==>
      rows[k].negative == other[k].negative && rows[k].positive == other[k].positive
    ensures SentimentScore(rows) == SentimentScore(other)
  {
    SumsAgree(rows, other, Negative);
    SumsAgree(rows, other, Positive);
    if |rows| > 0 {
      SentimentScoreBalance(rows);
      SentimentScoreBalance(other);
    }
  }

  lemma {:induction false} SumsAgree(rows: seq<Scores>, other: seq<Scores>, l: Label)
    requires |rows| == |other|
    requires forall k :: 0 <= k < |rows| ==> Value(rows[k], l) == Value(other[k], l)
    ensures Sum(rows, l) == Sum(other, l)
  {
    if |rows| > 0 {
      assert Value(rows[0], l) == Value(other[0], l);
      SumsAgree(rows[1..], other[1..], l);
    }
  }

  /** Probabilities between 0 and 1 in every row put the score between -1 and 1. */
  lemma SentimentScoreBounds(rows: seq<Scores>)
    requires forall k :: 0 <= k < |rows| ==>
      0.0 <= rows[k].negative <= 1.0 && 0.0 <= rows[k].positive <= 1.0
    ensures SentimentScore(rows).Some? ==> -1.0 <= SentimentScore(rows).value <= 1.0
  {
    if |rows| > 0 {
      SumBounds(rows, Negative);
      SumBounds(rows, Positive);
      SentimentScoreBalance(rows);
      QuotientBounds(Sum(rows, Positive) - Sum(rows, Negative), |rows| as real);
    }
  }

  lemma {:induction false} SumBounds(rows: seq<Scores>, l: Label)
    requires forall k :: 0 <= k < |rows| ==> 0.0 <= Value(rows[k], l) <= 1.0
    ensures 0.0 <= Sum(rows, l) <= |rows| as real
  {
    if |rows| > 0 {
      assert 0.0 <= Value(rows[0], l) <= 1.0;
      SumBounds(rows[1..], l);
    }
  }

  lemma QuotientBounds(x: real, n: real)
    requires n > 0.0 && -n <= x <= n
    ensures -1.0 <= x / n <= 1.0
  {
    assert x / n * n == x;
  }

  /** What `calculate_sentiment_score` returns for one movie (rounding left out). */
  datatype Summary = Summary(percent: map<Label, real>, negAvg: Option<real>, neutrAvg: Option<real>,
                             posAvg: Option<real>, sentimentScore: Option<real>, nTweets: nat)

  function Summarise(rows: seq<Scores>): (s: Summary)
  {
    Summary(Percentages(rows), Mean(rows, Negative), Mean(rows, Neutral), Mean(rows, Positive),
            SentimentScore(rows), |rows|)
  }

  /** Where the scripts find the data: the project directory, the directory listing and the
      reader of a scored table's three columns. */
  datatype Env = Env(projectPath: string, listdir: Listdir, read: string -> seq<Scores>)

  /** `calculate_sentiment_score`: locate the scored table and summarise it. */
  function CalculateSentimentScore(movieId: int, folders: map<int, string>, env: Env): (r: Result<Summary, ScoreError>)
  {
    match LocatedFile(movieId, folders, env.projectPath, env.listdir)
    case Failure(e) => Failure(e)
    case Success(None) => Failure(NoSentimentFile(movieId))
    case Success(Some(path)) => Success(Summarise(env.read(path)))
  }

  /** A movie gets metrics exactly when its id has a folder holding a scored table, and they
      are the summary of the first such table. */
  lemma CalculateSentimentScoreCases(movieId: int, folders: map<int, string>, env: Env)
    ensures var r := CalculateSentimentScore(movieId, folders, env);
      && (movieId !in folders ==> r == Failure(UnknownMovie(movieId)))
      && (movieId in folders ==>
           var folderPath := FolderPath(env.projectPath, folders[movieId]);
           var listing := env.listdir(folderPath);
           && (r.Success? <==> exists j :: 0 <= j < |listing| && IsScoreCsvName(listing[j]))
           && (r.Success? ==> exists k :: (0 <= k < |listing| && IsScoreCsvName(listing[k])
                 && (forall j :: 0 <= j < k ==> !IsScoreCsvName(listing[j]))
                 && r.value == Summarise(env.read(PathJoin(folderPath, listing[k]))))))
  {
    if movieId in folders {
      var folderPath := FolderPath(env.projectPath, folders[movieId]);
      var listing := env.listdir(folderPath);
      FirstScoreIndexIsFirst(listing);
      var k := FirstScoreIndex(listing);
      if k.Some? {
        assert IsScoreCsvName(listing[k.value]);
      }
    }
  }

  // ---------------------------------------------------------------- diversity

  /** A row of the actor table. */
  datatype ActorRow = ActorRow(movieTitle: string, notWhite: bool)

  /** A row of the movie table: its `id`, its `film_name` and its other columns. */
  datatype MovieRow = MovieRow(id: int, filmName: string, columns: seq<string>)

  /** The aggregates of one title's actors. */
  datatype Diversity = Diversity(nNonwhite: nat, nActors: nat, diversityScore: real)

  /** `len` of a title's `not_white` group. */
  function CountActors(actors: seq<ActorRow>, title: string): (n: nat)
    ensures n <= |actors|
  {
    if |actors| == 0 then 0
    else (if actors[0].movieTitle == title then 1 else 0) + CountActors(actors[1..], title)
  }

  /** `sum` of a title's `not_white` group. */
  function CountNonwhite(actors: seq<ActorRow>, title: string): nat
  {
    if |actors| == 0 then 0
    else (if actors[0].movieTitle == title && actors[0].notWhite then 1 else 0)
         + CountNonwhite(actors[1..], title)
  }

  /** There are no more non-white actors than actors. */
  lemma {:induction false} NonwhiteAtMostActors(actors: seq<ActorRow>, title: string)
    ensures CountNonwhite(actors, title) <= CountActors(actors, title)
  {
    if |actors| > 0 {
      NonwhiteAtMostActors(actors[1..], title);
    }
  }

  /** A title has a group exactly when some actor row names it. */
  lemma {:induction false} CountActorsPositive(actors: seq<ActorRow>, title: string)
    ensures CountActors(actors, title) > 0 <==> exists k :: 0 <= k < |actors| && actors[k].movieTitle == title
  {
    if |actors| > 0 {
      CountActorsPositive(actors[1..], title);
      if actors[0].movieTitle != title && CountActors(actors, title) > 0 {
        var k :| 0 <= k < |actors[1..]| && actors[1..][k].movieTitle == title;
        assert actors[k + 1].movieTitle == title;
      }
      if exists k :: 0 <= k < |actors| && actors[k].movieTitle == title {
        var k :| 0 <= k < |actors| && actors[k].movieTitle == title;
        if k > 0 {
          assert actors[1..][k - 1].movieTitle == title;
        }
      }
    }
  }

  /** The aggregates of a title that has actors. */
  function DiversityOf(actors: seq<ActorRow>, title: string): Diversity
    requires CountActors(actors, title) > 0
  {
    var n := CountActors(actors, title);
    var w := CountNonwhite(actors, title);
    Diversity(w, n, (w as real) / (n as real))
  }

  /** A movie row with its diversity columns. */
  datatype DiverseMovie = DiverseMovie(movie: MovieRow, diversity: Diversity)

  /** `add_diversityscore`: the inner merge on `film_name == movie_title`, in movie order. */
  function AddDiversityScore(movies: seq<MovieRow>, actors: seq<ActorRow>): (r: seq<DiverseMovie>)
  {
    if |movies| == 0 then []
    else
      var m := movies[0];
      (if CountActors(actors, m.filmName) > 0 then [DiverseMovie(m, DiversityOf(actors, m.filmName))] else [])
      + AddDiversityScore(movies[1..], actors)
  }

  /** The merge keeps a movie row exactly when some actor row names its film, and gives it
      that title's aggregates: 0 <= n_nonwhite <= n_actors, n_actors its actor rows, and the
      score their ratio, between 0 and 1. */
  lemma {:induction false} AddDiversityScoreRows(movies: seq<MovieRow>, actors: seq<ActorRow>, d: DiverseMovie)
    ensures d in AddDiversityScore(movies, actors) <==>
      && d.movie in movies
      && (exists k :: 0 <= k < |actors| && actors[k].movieTitle == d.movie.filmName)
      && CountActors(actors, d.movie.filmName) > 0
      && d.diversity == DiversityOf(actors, d.movie.filmName)
    ensures d in AddDiversityScore(movies, actors) ==>
      && d.diversity.nNonwhite <= d.diversity.nActors
      && d.diversity.nActors == CountActors(actors, d.movie.filmName) > 0
      && d.diversity.diversityScore == (d.diversity.nNonwhite as real) / (d.diversity.nActors as real)
      && 0.0 <= d.diversity.diversityScore <= 1.0
  {
    CountActorsPositive(actors, d.movie.filmName);
    NonwhiteAtMostActors(actors, d.movie.filmName);
    if |movies| > 0 {
      AddDiversityScoreRows(movies[1..], actors, d);
      assert movies == [movies[0]] + movies[1..];
    }
    if d in AddDiversityScore(movies, actors) {
      RatioBound(d.diversity.nNonwhite, d.diversity.nActors);
    }
  }

  lemma RatioBound(w: nat, n: nat)
    requires 0 < n && w <= n
    ensures 0.0 <= (w as real) / (n as real) <= 1.0
  {
    assert (w as real) / (n as real) * (n as real) == w as real;
  }

  /** The merge keeps the movie order: it distributes over concatenation. */
  lemma {:induction false} AddDiversityScoreConcat(a: seq<MovieRow>, b: seq<MovieRow>, actors: seq<ActorRow>)
    ensures AddDiversityScore(a + b, actors) == AddDiversityScore(a, actors) + AddDiversityScore(b, actors)
  {
    if |a| > 0 {
      assert (a + b)[1..] == a[1..] + b;
      AddDiversityScoreConcat(a[1..], b, actors);
    } else {
      assert a + b == b;
    }
  }

  // ---------------------------------------------------------------- sentiment columns

  /** A merged movie row with its sentiment metrics. */
  datatype ScoredMovie = ScoredMovie(movie: DiverseMovie, summary: Summary)

  /** `calculate_sentiment_score` for any movie id. */
  type Scorer = int -> Result<Summary, ScoreError>

  function SentimentScorer(folders: map<int, string>, env: Env): Scorer
  {
    id => CalculateSentimentScore(id, folders, env)
  }

  /** `add_sentimentscore`: the metrics of every row, by its `id`; the first movie whose
      metrics cannot be computed raises. */
  function AddSentimentScore(movies: seq<DiverseMovie>, score: Scorer): (r: Result<seq<ScoredMovie>, ScoreError>)
  {
    if |movies| == 0 then Success([])
    else match score(movies[0].movie.id)
      case Failure(e) => Failure(e)
      case Success(s) =>
        match AddSentimentScore(movies[1..], score)
        case Failure(e) => Failure(e)
        case Success(rest) => Success([ScoredMovie(movies[0], s)] + rest)
  }

  /** The column is added exactly when every movie row has metrics, and then there is
      exactly one metrics row per movie row, in order. */
  lemma {:induction false} AddSentimentScoreRows(movies: seq<DiverseMovie>, score: Scorer)
    ensures var r := AddSentimentScore(movies, score);
      && (r.Success? <==> forall k :: 0 <= k < |movies| ==> score(movies[k].movie.id).Success?)
      && (r.Success? ==> (|r.value| == |movies|
            && forall k :: 0 <= k < |movies| ==> r.value[k] == ScoredMovie(movies[k], score(movies[k].movie.id).value)))
  {
    if |movies| > 0 {
      AddSentimentScoreRows(movies[1..], score);
      assert forall k :: 1 <= k < |movies| ==> movies[k] == movies[1..][k - 1];
    }
  }

  /** A failure is that of the first movie row without metrics. */
  lemma {:induction false} AddSentimentScoreFailure(movies: seq<DiverseMovie>, score: Scorer)
    requires AddSentimentScore(movies, score).Failure?
    ensures exists k :: (0 <= k < |movies|
      && (forall j :: 0 <= j < k ==> score(movies[j].movie.id).Success?)
      && score(movies[k].movie.id) == Failure(AddSentimentScore(movies, score).error))
  {
    var r := AddSentimentScore(movies, score);
    if score(movies[0].movie.id).Success? {
      var rest := AddSentimentScore(movies[1..], score);
      AddSentimentScoreFailure(movies[1..], score);
      var k :| 0 <= k < |movies[1..]|
        && (forall j :: 0 <= j < k ==> score(movies[1..][j].movie.id).Success?)
        && score(movies[1..][k].movie.id) == Failure(rest.error);
      assert forall j :: 1 <= j < k + 1 ==> movies[j] == movies[1..][j - 1];
      assert score(movies[k + 1].movie.id) == Failure(r.error);
    } else {
      assert score(movies[0].movie.id) == Failure(r.error);
    }
  }

  /** `main`'s pipeline: the diversity merge, then the sentiment columns. */
  function MoviesWithScores(movies: seq<MovieRow>, actors: seq<ActorRow>, env: Env)
    : Result<seq<ScoredMovie>, ScoreError>
  {
    AddSentimentScore(AddDiversityScore(movies, actors), SentimentScorer(FolderMap, env))
  }

  /** The table `main` saves holds exactly the movie rows that survive the diversity merge,
      in order, each with its own aggregates and the metrics of its id. It is written exactly
      when every merged movie's metrics can be computed; otherwise the first merged movie
      without them fails the run. */
  lemma MoviesWithScoresRows(movies: seq<MovieRow>, actors: seq<ActorRow>, env: Env)
    ensures var merged := AddDiversityScore(movies, actors);
      var r := MoviesWithScores(movies, actors, env);
      && (r.Success? <==>
           forall k :: 0 <= k < |merged| ==> CalculateSentimentScore(merged[k].movie.id, FolderMap, env).Success?)
      && (r.Success? ==> (|r.value| == |merged|
           && forall k :: 0 <= k < |merged| ==>
                && r.value[k].movie == merged[k]
                && r.value[k].movie.movie in movies
                && CountActors(actors, merged[k].movie.filmName) > 0
                && r.value[k].movie.diversity == DiversityOf(actors, merged[k].movie.filmName)
                && r.value[k].summary == CalculateSentimentScore(merged[k].movie.id, FolderMap, env).value))
      && (r.Failure? ==> exists k :: (0 <= k < |merged|
           && (forall j :: 0 <= j < k ==> CalculateSentimentScore(merged[j].movie.id, FolderMap, env).Success?)
           && CalculateSentimentScore(merged[k].movie.id, FolderMap, env) == Failure(r.error)))
  {
    var merged := AddDiversityScore(movies, actors);
    var score := SentimentScorer(FolderMap, env);
    AddSentimentScoreRows(merged, score);
    if AddSentimentScore(merged, score).Failure? {
      AddSentimentScoreFailure(merged, score);
    }
    forall k | 0 <= k < |merged|
      ensures merged[k].movie in movies && CountActors(actors, merged[k].movie.filmName) > 0
      ensures merged[k].diversity == DiversityOf(actors, merged[k].movie.filmName)
    {
      AddDiversityScoreRows(movies, actors, merged[k]);
    }
  }
}
