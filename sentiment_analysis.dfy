/** The sentiment scoring of `src/sentiment_analysis.py`: the placeholder rewriting of tweet
    text before it reaches the model, the listing of a movie directory's CSV files, the name
    of each scored copy, and the row loop that writes the three scores into every row. The
    tokenizer, the network, the softmax and the rounding are one abstract `Model`. */
module SentimentAnalysis {
  import opened Strings
  import opened Paths
  import opened Listing

  // ---------------------------------------------------------------- preprocess

  /** One token of `preprocess`: a mention longer than "@" becomes "@user"; then anything
      starting with "http" becomes "http". */
  function RewriteToken(t: string): string
  {
    var t1 := if StartsWith(t, "@") && |t| > 1 then "@user" else t;
    if StartsWith(t1, "http") then "http" else t1
  }

  /** A mention becomes "@user", also when it spells a link ("@http..."). */
  lemma RewriteMention(t: string)
    requires StartsWith(t, "@") && |t| > 1
    ensures RewriteToken(t) == "@user"
  {
    assert !StartsWith("@user", "http") by {
      assert "@user"[..4][0] == '@';
    }
  }

  /** A link that is not a mention becomes "http". */
  lemma RewriteLink(t: string)
    requires !(StartsWith(t, "@") && |t| > 1) && StartsWith(t, "http")
    ensures RewriteToken(t) == "http"
  {
  }

  /** A lone "@" and every token that is neither a mention nor a link stay as they are. */
  lemma RewriteKeeps(t: string)
    requires t == "@" || (!StartsWith(t, "@") && !StartsWith(t, "http"))
    ensures RewriteToken(t) == t
  {
    if t == "@" {
      assert !StartsWith(t, "http");
    }
  }

  /** Rewriting a rewritten token changes nothing. */
  lemma RewriteIdempotent(t: string)
    ensures RewriteToken(RewriteToken(t)) == RewriteToken(t)
  {
    var r := RewriteToken(t);
    if StartsWith(t, "@") && |t| > 1 {
      RewriteMention(t);
      RewriteMention(r);
    } else if StartsWith(t, "http") {
      assert r == "http";
      assert !StartsWith(r, "@");
    }
  }

  /** A rewritten token holds a space only if the token did. */
  lemma RewriteNoSpace(t: string)
    requires ' ' !in t
    ensures ' ' !in RewriteToken(t)
  {
    assert ' ' !in "@user" && ' ' !in "http";
  }

  /** Every token rewritten, in place. */
  function RewriteAll(tokens: seq<string>): (r: seq<string>)
  {
    seq(|tokens|, k requires 0 <= k < |tokens| => RewriteToken(tokens[k]))
  }

  /** What `preprocess` returns: the tokens between single spaces rewritten and rejoined with
      single spaces. */
  function Preprocessed(text: string): string
  {
    Join(RewriteAll(Split(text, ' ')), ' ')
  }

  /** `preprocess`: the loop that appends each rewritten token, then the join. */
  method Preprocess(text: string) returns (r: string)
    ensures r == Preprocessed(text)
  {
    var parts := Split(text, ' ');
    var newText: seq<string> := [];
    for k := 0 to |parts|
      invariant newText == RewriteAll(parts[..k])
    {
      var t := parts[k];
      t := if StartsWith(t, "@") && |t| > 1 then "@user" else t;
      t := if StartsWith(t, "http") then "http" else t;
      newText := newText + [t];
    }
    assert parts[..|parts|] == parts;
    r := Join(newText, ' ');
  }

  /** Splitting the result on ' ' gives the original tokens rewritten one by one: the token
      count is kept, empty tokens included. */
  lemma PreprocessTokens(text: string)
    ensures Split(Preprocessed(text), ' ') == RewriteAll(Split(text, ' '))
    ensures |Split(Preprocessed(text), ' ')| == |Split(text, ' ')|
  {
    var parts := Split(text, ' ');
    forall k | 0 <= k < |parts|
      ensures ' ' !in RewriteAll(parts)[k]
    {
      RewriteNoSpace(parts[k]);
    }
    SplitJoin(RewriteAll(parts), ' ');
  }

  /** Preprocessing twice is preprocessing once. */
  lemma PreprocessIdempotent(text: string)
    ensures Preprocessed(Preprocessed(text)) == Preprocessed(text)
  {
    var parts := Split(text, ' ');
    PreprocessTokens(text);
    forall k | 0 <= k < |parts|
      ensures RewriteAll(RewriteAll(parts))[k] == RewriteAll(parts)[k]
    {
      RewriteIdempotent(parts[k]);
    }
    assert RewriteAll(RewriteAll(parts)) == RewriteAll(parts);
  }

  // ---------------------------------------------------------------- CSV_reader

  /** `file.endswith(".csv")` */
  predicate IsCsvName(name: string)
  {
    EndsWith(name, ".csv")
  }

  /** Each name joined to the directory. */
  function JoinAll(directory: string, names: seq<string>): (paths: seq<string>)
  {
    seq(|names|, k requires 0 <= k < |names| => PathJoin(directory, names[k]))
  }

  lemma JoinAllSnoc(directory: string, names: seq<string>, name: string)
    ensures JoinAll(directory, names + [name]) == JoinAll(directory, names) + [PathJoin(directory, name)]
  {
  }

  /** `get_csv_files`: the ".csv" entries of the listing, joined to the directory. */
  method GetCsvFiles(directory: string, listing: seq<string>) returns (csvFiles: seq<string>)
    ensures csvFiles == JoinAll(directory, Filter(listing, IsCsvName))
  {
    csvFiles := [];
    for k := 0 to |listing|
      invariant csvFiles == JoinAll(directory, Filter(listing[..k], IsCsvName))
    {
      assert listing[..k + 1] == listing[..k] + [listing[k]];
      FilterSnoc(listing[..k], listing[k], IsCsvName);
      if EndsWith(listing[k], ".csv") {
        JoinAllSnoc(directory, Filter(listing[..k], IsCsvName), listing[k]);
        csvFiles := csvFiles + [PathJoin(directory, listing[k])];
      }
    }
    assert listing[..|listing|] == listing;
  }

  /** The name of the scored copy of a CSV file: `<stem>_sentiment.csv` in the movie directory. */
  function SentimentOutputPath(movieDir: string, file: string): string
  {
    PathJoin(movieDir, Stem(file) + "_sentiment.csv")
  }

  /** Both branches of `run_sentiment_analysis` name the copy the same way: the directory
      taken from `os.path.split` of a file in a movie directory is that directory, and the
      copy sits in it under `<stem>_sentiment.csv`. */
  lemma OutputPathBothBranches(movieDir: string, name: string)
    requires |movieDir| > 0 && movieDir[|movieDir| - 1] != '/'
    requires '/' !in name
    ensures var file := PathJoin(movieDir, name);
      && SentimentOutputPath(DirName(file), file) == SentimentOutputPath(movieDir, file)
      && DirName(SentimentOutputPath(movieDir, file)) == movieDir
      && BaseName(SentimentOutputPath(movieDir, file)) == Stem(name) + "_sentiment.csv"
  {
    var file := PathJoin(movieDir, name);
    DirNameOfJoin(movieDir, name);
    StemOfJoin(movieDir, name);
    var out := Stem(name) + "_sentiment.csv";
    StemHasNoSlash(name);
    SentimentNameHasNoSlash(Stem(name));
    DirNameOfJoin(movieDir, out);
    BaseNameOfJoin(movieDir, out);
  }

  lemma SentimentNameHasNoSlash(stem: string)
    requires '/' !in stem
    ensures '/' !in stem + "_sentiment.csv"
  {
    assert forall c :: c in stem + "_sentiment.csv" ==> c in stem || c in "_sentiment.csv";
  }

  // ---------------------------------------------------------------- run_analysis

  /** The three probabilities `get_sentiment` returns, in the model's label order. */
  datatype Scores = Scores(negative: real, neutral: real, positive: real)

  /** Tokenizer, model, softmax and rounding: the scores of a preprocessed text. */
  type Model = string -> Scores

  /** A row of the tweet table: its `text` column and the other columns, kept as they are. */
  datatype TweetRow = TweetRow(text: string, columns: seq<string>)

  /** A row of the scored copy. */
  datatype ScoredRow = ScoredRow(tweet: TweetRow, negative: real, neutral: real, positive: real)

  /** What `get_sentiment` returns: the model's scores of the preprocessed text. */
  function GetSentiment(model: Model, text: string): Scores
  {
    model(Preprocessed(text))
  }

  /** `get_sentiment`: preprocess, then score. */
  method GetSentimentOf(model: Model, text: string) returns (scores: Scores)
    ensures scores == GetSentiment(model, text)
  {
    var clean := Preprocess(text);
    scores := model(clean);
  }

  /** A row with the scores of its own text in the three columns. */
  function ScoreRow(sentiment: string -> Scores, tweet: TweetRow): (r: ScoredRow)
  {
    var s := sentiment(tweet.text);
    ScoredRow(tweet, s.negative, s.neutral, s.positive)
  }

  /** `run_analysis` with `self.roberta.get_sentiment` as `sentiment`: the three score columns
      start at 0, then each row gets the scores of its own text. Every input row is kept, in
      order, with its other columns unchanged. */
  method RunAnalysis(tweets: seq<TweetRow>, sentiment: string -> Scores) returns (scored: seq<ScoredRow>)
    ensures |scored| == |tweets|
    ensures forall k :: 0 <= k < |tweets| ==> scored[k] == ScoreRow(sentiment, tweets[k])
  {
    var df := new ScoredRow[|tweets|](k requires 0 <= k < |tweets| => ScoredRow(tweets[k], 0.0, 0.0, 0.0));
    for index := 0 to df.Length
      invariant forall k :: 0 <= k < index ==> df[k] == ScoreRow(sentiment, tweets[k])
      invariant forall k :: index <= k < df.Length ==> df[k] == ScoredRow(tweets[k], 0.0, 0.0, 0.0)
    {
      var row := df[index];
      var scores := sentiment(row.tweet.text);
      row := row.(negative := scores.negative);
      row := row.(neutral := scores.neutral);
      row := row.(positive := scores.positive);
      df[index] := row;
    }
    scored := df[..];
  }

  /** `run_sentiment_analysis` for a given file: the scored copy and where it is saved. */
  method RunSentimentAnalysis(csvFile: string, read: string -> seq<TweetRow>, model: Model)
    returns (outFilePath: string, scored: seq<ScoredRow>)
    ensures outFilePath == SentimentOutputPath(DirName(csvFile), csvFile)
    ensures |scored| == |read(csvFile)|
    ensures forall k :: 0 <= k < |scored| ==>
      var s := GetSentiment(model, read(csvFile)[k].text);
      scored[k] == ScoredRow(read(csvFile)[k], s.negative, s.neutral, s.positive)
  {
    var movieDir := DirName(csvFile);
    var fileName := Stem(csvFile);
    var outFileName := fileName + "_sentiment.csv";
    outFilePath := PathJoin(movieDir, outFileName);
    scored := RunAnalysis(read(csvFile), text => GetSentiment(model, text));
  }
}
