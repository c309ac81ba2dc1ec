# DITW_project in Dafny

A model of the data-processing core of the DITW_project repository ("Data in the Wild"). The
project collects tweets about a handful of films, scores each tweet's sentiment, dates the
tweets, scrapes Wikipedia for film metadata and combines the sentiment and cast-diversity
figures into one table per film. The model covers these parts:

- **Timeseries** (`src/create_timeseries.py`): the date-enrichment pass. For each movie
  directory it picks the last plain `sentiment.csv` file. It drops rows without an id and
  rows with one of the two dead ids. It sends the remaining ids to the tweet-lookup endpoint
  in label-range batches that start 99 labels apart. It writes the date part of every
  returned tweet's `created_at` into the matching rows, up to the first tweet of a
  response without one, and saves a `<stem>_date.csv` copy. It also
  models the request counter and the pause at 299, and the stop on a movie without a
  sentiment file.
- **SentimentAnalysis** (`src/sentiment_analysis.py`): the placeholder rewriting of tweet
  text (`@user`, `http`), the listing of CSV files, the name of the scored copy, and the row
  loop that writes the three scores.
- **MovieScores** (`src/calculate_moviescores.py`): the fixed id-to-folder map, the search
  for a movie's sentiment table, the per-tweet argmax label and its percentages, the means,
  the −1/0/1 weighted sentiment score, the cast-diversity aggregates and the inner merge, and
  the column of sentiment metrics.
- **WikipediaScraper** (`src/wikipedia_scraper.py`): the article URL, the "Starring" lists
  of the infobox, the poster and year, and the metadata dictionary `main` fills.
- **TwitterApi** (`src/twitter_api.py`): headers, the search URL and its fixed parameters,
  the in-place `next_token` overwrite and the status check.
- **RenameFiles**, **DehydrateTweets**, **ConstructSubsets**, **CountTweets**: the four file
  utilities. These are the `start*` renaming, the `_dehydr` id-only copies, the 28-rows-per-file
  subset and the tweet count.
- Shared modules:
  - **Strings**: the Python `str` operations the scripts use.
  - **Paths**: `os.path.join`, `os.path.split`, `basename` and `pathlib` `stem`.
  - **Listing**: `sorted([f for f in listdir(d) if isfile(join(d, f))])`, and the
    filter inside the scripts' loops.
  - **Wrappers**: `Option` and `Result`.

The model keeps each source loop as a method with a loop and invariants. The table
`create_timeseries.py` updates in place is an `array<Row>`. The `params` dictionary
`connect_to_endpoint` mutates is a field of a `Params` object. Each method is proved equal to
a specification function, and lemmas state the properties of that function. Files, HTTP,
the sentiment model, `os.listdir` and `urllib.parse.quote` are function-typed parameters.

## Model

| member | source | states |
|---|---|---|
| TwitterApi.CreateHeaders | src/twitter_api.py:10-12 | the headers hold only "Authorization", with value "Bearer " followed by the token, or "None" when no token is set |
| TwitterApi.CreateUrl | src/twitter_api.py:15-26 | the URL is the fixed search endpoint; the params hold exactly the nine keys, with keyword, start, end and max_results (default 10) unchanged, the four fixed field strings, and `next_token` set to `{}` |
| TwitterApi.CheckStatus | src/twitter_api.py:33-35 | success exactly when the status is 200, and then the parsed body; otherwise the error `(status, text)` |
| TwitterApi.ConnectToEndpoint | src/twitter_api.py:29-35 | the caller's params get `next_token` overwritten with the given token (`None` by default, as the parameter's default says), every other key unchanged; the request is sent with the updated params and the result is the status check of the response |
| TwitterApi.TokenOverwriteKeepsQuery | src/twitter_api.py:15-30 | after the overwrite the query, start, end and max_results are still those given to `create_url`, and `next_token` is no longer `{}` |
| Timeseries.CreateUrlShape | src/create_timeseries.py:18-22 | the lookup URL is the fixed prefix, the id text and the field suffix, and the id text can be cut back out of it |
| Timeseries.LookupUrlRoundTrip | src/create_timeseries.py:135-136 | splitting the id text of the URL on ',' gives one integer per id, and each one reads back as that id |
| Timeseries.SurvivorsShape | src/create_timeseries.py:111-120 | every surviving row has an id that is neither missing nor dead, keeps its original label and a zero date; every row with such an id survives; labels stay in increasing order |
| Timeseries.BatchIdsMembers | src/create_timeseries.py:126-129 | a batch holds exactly the ids of the surviving rows labelled i..j inclusive |
| Timeseries.BatchAtMost100 | src/create_timeseries.py:124-129 | no batch holds more than 100 ids |
| Timeseries.EverySurvivorBatched | src/create_timeseries.py:124-126 | every surviving row lies in the batch whose start is its label rounded down to a multiple of 99, and that start is below the pre-filter row count |
| Timeseries.ConsecutiveBatchesShareLabel | src/create_timeseries.py:124-126 | a row labelled i+99 is in both the batch starting at i and the one starting at i+99 |
| Timeseries.DatePartIsPrefix | src/create_timeseries.py:146 | the date written is the part of `created_at` before the first 'T' |
| Timeseries.SetDate | src/create_timeseries.py:147 | every row with the tweet's id gets the date; all other rows and all labels and ids stay |
| Timeseries.ApplyKeepsKeys | src/create_timeseries.py:143-147 | applying date assignments never changes a row's label or id |
| Timeseries.LastForIsLast | src/create_timeseries.py:144-147 | a row's final date comes from the last assignment for its id, and there is none exactly when no assignment names it |
| Timeseries.ApplyAt | src/create_timeseries.py:143-147 | after all assignments each row holds the date of the last assignment for its id, or is unchanged |
| Timeseries.ApplyConcat | src/create_timeseries.py:124-154 | applying the assignments of several batches in turn is applying them all at once |
| Timeseries.BatchIdsIgnoreDates | src/create_timeseries.py:126-128 | batch selection does not depend on dates written earlier, so the batches are those of the filtered table |
| Timeseries.EnrichTotal | src/create_timeseries.py:123-131 | `total` equals the sum of the sizes of the batches sent |
| Timeseries.EnrichBatchAt | src/create_timeseries.py:124-134 | the t-th batch sent is the one starting at label 99·t, and it is not empty |
| Timeseries.EnrichStops | src/create_timeseries.py:124-134 | the loop ends at the first start that is past the row count or whose batch is empty |
| Timeseries.Answered | src/create_timeseries.py:144-148 | the tweets the data loop gets through are the longest prefix of the response whose tweets all carry `created_at` |
| Timeseries.UpdatesAnswered | src/create_timeseries.py:144-147 | one assignment per tweet got through, in order, each giving that tweet's id the date part of its own `created_at` |
| Timeseries.UpdatesFromTweets | src/create_timeseries.py:144-147 | every assignment made comes from a returned tweet with `created_at`: its id and the date part of that `created_at` |
| Timeseries.EnrichUpdatesAnswered | src/create_timeseries.py:124-154 | the pass's assignments are exactly those of the tweets got through in the responses to the batches sent, in order |
| Timeseries.MissingDataSkipsBatch | src/create_timeseries.py:143-152 | a response without `data` writes no date and the loop goes on to the next batch |
| Timeseries.EnrichedRows | src/create_timeseries.py:111-161 | the saved table has one row per surviving row, with its label and id; its date is zero exactly when no tweet the loop gets through has that id, and otherwise the date part of the last such tweet's `created_at`, a response being got through up to its first tweet without `created_at` |
| Timeseries.SelectBatch | src/create_timeseries.py:126-129 | reads a batch's ids off the in-place table |
| Timeseries.SetDateInPlace | src/create_timeseries.py:147 | the array afterwards is `SetDate` of the array before |
| Timeseries.MergeResponse | src/create_timeseries.py:143-147 | the array afterwards is the array before with the response's assignments applied |
| Timeseries.ProcessBatch | src/create_timeseries.py:125-154 | one iteration: the batch of the filtered table is counted and, if not empty, its response is merged into the array |
| Timeseries.RunBatches | src/create_timeseries.py:123-154 | the batch loop leaves the array holding every assignment of the pass, `total` its id count and the counter grown by 100 per batch sent |
| Timeseries.EnrichTable | src/create_timeseries.py:109-156 | filter, zero dates and batch loop together give the enriched table, the total and the counter |
| Timeseries.LastSentimentIndexIsLast | src/create_timeseries.py:60-63 | the chosen name is the last listed one ending in `sentiment.csv` that contains neither `subset` nor `date`, and there is none exactly when no name qualifies |
| Timeseries.SentimentFile | src/create_timeseries.py:56-65 | the result is "" exactly when no name qualifies |
| Timeseries.GetSentimentFile | src/create_timeseries.py:56-65 | the loop returns the last qualifying name joined to the directory, or "" |
| Timeseries.DatedPathShape | src/create_timeseries.py:158-160 | the saved copy is `<stem>_date.csv` in the movie directory, and that name is never picked up as a sentiment file |
| Timeseries.DatedNameContainsDate | src/create_timeseries.py:158-160 | a `_date.csv` name contains "date" |
| Timeseries.GetDf | src/create_timeseries.py:40-48 | a row exists exactly when the response has a non-empty `data` whose tweets all carry `created_at`, and it holds the last tweet's id and `created_at` |
| Timeseries.PipelineSaves | src/create_timeseries.py:108-162 | a movie yields nothing exactly when no listed name qualifies as a sentiment file; otherwise, for the last qualifying name, the copy is named `<stem>_date.csv` in the movie directory, is never picked up as a sentiment file, holds one enriched row per surviving row of that file, and the counter grows by 100 per batch sent |
| Timeseries.CallCountsAt | src/create_timeseries.py:154 | each movie's contribution to the counter is its number of batches, 0 when it has no sentiment file |
| Timeseries.CounterHundreds | src/create_timeseries.py:100-154 | the counter only takes multiples of 100, so the test `>= 299` is the test `>= 300` |
| Timeseries.RunMainOutputs | src/create_timeseries.py:99-162 | the saved copies are those of the movies in order up to the first movie without a sentiment file, where `read_csv("")` raises and the run stops |
| Timeseries.RunMainCompletes | src/create_timeseries.py:99-162 | the run completes exactly when every movie has a sentiment file |
| Timeseries.RunMainPauses | src/create_timeseries.py:98-154 | a pause happens before exactly the started movies at which the counter carried since the last pause reaches 299; on a completed run the final counter is that carried count |
| Timeseries.RunMainStopped | src/create_timeseries.py:99-109 | once stopped, later movies change nothing |
| Timeseries.ProcessMovie | src/create_timeseries.py:105-162 | one movie's body computes its result and grows the counter by 100 per batch |
| Timeseries.MainRound | src/create_timeseries.py:99-162 | one iteration of `main` is one step of the run |
| Timeseries.CreateTimeseries | src/create_timeseries.py:87-162 | the loop over the movies yields the saved copies, the pauses and the completion of the run over all movies, with the headers of `create_headers` |
| SentimentAnalysis.RewriteMention | src/sentiment_analysis.py:32-33 | a token starting with '@' and longer than one character becomes "@user", also when it spells a link |
| SentimentAnalysis.RewriteLink | src/sentiment_analysis.py:32-33 | a token that is not a mention and starts with "http" becomes "http" |
| SentimentAnalysis.RewriteKeeps | src/sentiment_analysis.py:32-33 | a lone "@" and a token starting with neither '@' nor "http" is unchanged |
| SentimentAnalysis.RewriteIdempotent | src/sentiment_analysis.py:32-33 | rewriting a rewritten token changes nothing |
| SentimentAnalysis.Preprocess | src/sentiment_analysis.py:28-35 | the loop returns the split tokens, each rewritten, joined with single spaces |
| SentimentAnalysis.PreprocessTokens | src/sentiment_analysis.py:31-35 | splitting the result on ' ' gives the original tokens rewritten one by one, so the token count is kept, empty tokens included |
| SentimentAnalysis.PreprocessIdempotent | src/sentiment_analysis.py:28-35 | preprocessing twice is preprocessing once |
| SentimentAnalysis.GetCsvFiles | src/sentiment_analysis.py:89-97 | the result is the listed names ending in ".csv", in listing order, each joined to the directory |
| SentimentAnalysis.OutputPathBothBranches | src/sentiment_analysis.py:135-152 | both branches name the copy `<dir>/<stem>_sentiment.csv`, in the movie directory |
| SentimentAnalysis.GetSentimentOf | src/sentiment_analysis.py:38-57 | the scores are the model's scores of the preprocessed text |
| SentimentAnalysis.RunAnalysis | src/sentiment_analysis.py:108-122 | every input row is kept, in order, with its columns; the three score columns start at 0 and each row ends with the scores of its own text |
| SentimentAnalysis.RunSentimentAnalysis | src/sentiment_analysis.py:146-154 | the file is scored row by row with `get_sentiment` and saved as `<stem>_sentiment.csv` beside it |
| MovieScores.FolderMapShape | src/calculate_moviescores.py:12-20 | the map has exactly the keys 1..7, each with a different folder name |
| MovieScores.FirstScoreIndexIsFirst | src/calculate_moviescores.py:33-38 | the chosen name is the first listed one ending in `_sentiment.csv` without `subset`, and there is none exactly when no name qualifies |
| MovieScores.LocateSentimentCsv | src/calculate_moviescores.py:23-38 | an unknown id fails; otherwise the loop returns the first qualifying name joined to the folder path, or no file |
| MovieScores.OverallIsFirstArgmax | src/calculate_moviescores.py:65-67 | a row's label has the largest score, and ties go to the earlier column of negative, neutral, positive |
| MovieScores.CountsSum | src/calculate_moviescores.py:65-70 | the per-label counts add up to `n_tweets` |
| MovieScores.CountLabelPositive | src/calculate_moviescores.py:69-70 | a label is counted exactly when some row has it |
| MovieScores.PercentagesSum | src/calculate_moviescores.py:69-70 | before rounding, the percentages of a non-empty table add up to 100 |
| MovieScores.PercentOf | src/calculate_moviescores.py:69-70 | a label's percentage is its count times 100 over `n_tweets`, and 0 for a label that does not occur |
| MovieScores.SentimentScoreBalance | src/calculate_moviescores.py:80-84 | before rounding, the score is (Σpositive − Σnegative) / `n_tweets` |
| MovieScores.SentimentScoreIgnoresNeutral | src/calculate_moviescores.py:82-84 | the neutral column has weight 0: changing it leaves the score unchanged |
| MovieScores.SentimentScoreBounds | src/calculate_moviescores.py:80-84 | with probabilities between 0 and 1 the score lies between −1 and 1 |
| MovieScores.CalculateSentimentScoreCases | src/calculate_moviescores.py:41-89 | an unknown id fails; otherwise there is a result exactly when the folder holds a qualifying file, and it summarises the first one |
| MovieScores.NonwhiteAtMostActors | src/calculate_moviescores.py:98-103 | 0 ≤ `n_nonwhite` ≤ `n_actors` |
| MovieScores.CountActorsPositive | src/calculate_moviescores.py:98-103 | a title has actors exactly when some actor row names it |
| MovieScores.AddDiversityScoreRows | src/calculate_moviescores.py:92-112 | a movie row survives the inner merge exactly when some actor row names its film; its aggregates are the count of actor rows, the non-white count within it, and their ratio between 0 and 1 |
| MovieScores.AddDiversityScoreConcat | src/calculate_moviescores.py:108-110 | the merge keeps the order of the movie rows |
| MovieScores.AddSentimentScoreRows | src/calculate_moviescores.py:115-127 | the metrics are added exactly when every movie has them, one metrics row per movie row, in order |
| MovieScores.AddSentimentScoreFailure | src/calculate_moviescores.py:122-125 | a failure is that of the first movie row without metrics |
| MovieScores.MoviesWithScoresRows | src/calculate_moviescores.py:157-161 | the saved table exists exactly when every merged movie has metrics; it then holds one row per movie surviving the merge, in order, with that title's aggregates and its own metrics; otherwise the first merged movie without metrics fails the run |
| WikipediaScraper.GetURLShape | src/wikipedia_scraper.py:9-12 | the URL starts with the base and is followed by the quote of each title character in order |
| WikipediaScraper.QuoteEachConcat | src/wikipedia_scraper.py:11 | quoting character by character distributes over concatenation |
| WikipediaScraper.QuoteEachUnreserved | src/wikipedia_scraper.py:11 | a title of characters `quote` keeps is its own quoted form |
| WikipediaScraper.ActorListsShape | src/wikipedia_scraper.py:35-39 | both lists are as long as the row's item list; an item with a link gives its title and the absolute URL, one without gives its text and "" |
| WikipediaScraper.LastStarringIsLast | src/wikipedia_scraper.py:31-39 | the lists come from the last row whose markup contains "Starring", and there is none exactly when no row does |
| WikipediaScraper.GetActors | src/wikipedia_scraper.py:26-40 | the loop returns the lists of the last "Starring" row, or fails when there is none |
| WikipediaScraper.GetPosterShape | src/wikipedia_scraper.py:43-46 | there is a poster exactly when there is an image, and it is "https:" followed by the first image's source |
| WikipediaScraper.GetYearShape | src/wikipedia_scraper.py:49-52 | there is a year exactly when there is a date span whose `.string` exists, and it is that text up to its first '-' |
| WikipediaScraper.ScrapeWikipediaFields | src/wikipedia_scraper.py:55-75 | a scraped film carries its title, its article URL, the year of the first date span, and the first infobox's poster and actor lists, the two lists of equal length |
| WikipediaScraper.MetadataKeys | src/wikipedia_scraper.py:81-95 | the dictionary's keys are exactly the films' ids |
| WikipediaScraper.MetadataLastWins | src/wikipedia_scraper.py:83-95 | each id holds the data of the last row with that id |
| WikipediaScraper.MetadataDefined | src/wikipedia_scraper.py:83-95 | the dictionary is built exactly when every row's scrape succeeds |
| WikipediaScraper.MetadataStuck | src/wikipedia_scraper.py:83-86 | once a scrape has failed, the whole run fails |
| WikipediaScraper.FillMetadata | src/wikipedia_scraper.py:78-95 | the loop yields the dictionary of every row's scraped data by id, or fails at the first failed scrape |
| RenameFiles.RenamedName | src/rename_files.py:18-21 | the new name has the same length; each ':', '-', ',' and '#' becomes '_' and every other character stays in place |
| RenameFiles.RenamedNameClean | src/rename_files.py:18-21 | the new name holds none of the four characters |
| RenameFiles.RenamedKeepsStart | src/rename_files.py:16-21 | a name starting with "start" still does after the rewrite |
| RenameFiles.RenamedIdempotent | src/rename_files.py:18-21 | a second rewrite changes nothing |
| RenameFiles.RenamedNameUnchanged | src/rename_files.py:18-22 | a file is written back under its own name exactly when its name holds none of the four characters |
| RenameFiles.RenameOne | src/rename_files.py:17-22 | one file is read and written under its rewritten name |
| RenameFiles.RenameStartFiles | src/rename_files.py:9-22 | the sorted regular files are visited in order; exactly those starting with "start" are rewritten, each from its own content |
| RenameFiles.RenameTargets | src/rename_files.py:9-22 | every file written came from a regular file whose name starts with "start", and its new name is clean and still starts with "start" |
| DehydrateTweets.EnglishCsvHasCsv | src/dehydrate_tweets.py:12-14 | an "en.csv" name always holds ".csv", so the insertion point is its first occurrence |
| DehydrateTweets.DehydratedNameRestores | src/dehydrate_tweets.py:13-14 | the new name is 7 characters longer, and taking them out at the insertion point gives back the name |
| DehydrateTweets.DehydratedNameSuffix | src/dehydrate_tweets.py:12-14 | when the only ".csv" is the suffix, the new name ends in "_dehydr.csv" and fails the "en.csv" test |
| DehydrateTweets.DehydratedNameEarlierCsv | src/dehydrate_tweets.py:12-14 | when an earlier ".csv" exists, the new name still ends in "en.csv" |
| DehydrateTweets.DehydrateOne | src/dehydrate_tweets.py:13-18 | one file gets its ids, one per row in row order, written under the "_dehydr" name |
| DehydrateTweets.DehydrateAll | src/dehydrate_tweets.py:8-18 | the sorted regular files are visited in order; exactly those ending in "en.csv" get an id-only copy |
| ConstructSubsets.Head | src/construct_subsets.py:17 | `head(n)` is the first min(n, rows) rows, in order |
| ConstructSubsets.SubsetLength | src/construct_subsets.py:13-17 | the subset has Σ min(28, nᵢ) rows |
| ConstructSubsets.SubsetPrefix | src/construct_subsets.py:15-17 | appending never removes earlier rows: the subset of the first files is a prefix of the subset of all |
| ConstructSubsets.SubsetSlice | src/construct_subsets.py:12-17 | each file contributes its first min(28, n) rows, right after those of the files before it |
| ConstructSubsets.SubsetConcat | src/construct_subsets.py:15-17 | the subset keeps the file order |
| ConstructSubsets.ConstructSubset | src/construct_subsets.py:8-19 | the sorted files' heads are concatenated in order and written to `subset_<movie title>.csv` in the movie directory |
| CountTweets.TotalBound | src/count_tweets.py:16-17 | the total is at least each file's count |
| CountTweets.TotalConcat | src/count_tweets.py:13-17 | the total over two runs of files is the sum of their totals |
| CountTweets.TotalPermutation | src/count_tweets.py:10-17 | the total does not depend on the order in which the files are counted |
| CountTweets.CountAll | src/count_tweets.py:9-20 | one report per sorted regular file, in order, with its row count; the total starts at 0 and ends as the sum of all counts |
| Strings.Find | src/dehydrate_tweets.py:13 | `find` is -1 exactly when the pattern does not occur, and otherwise its first occurrence |
| Strings.JoinSplit | src/sentiment_analysis.py:31-35 | joining the split parts with the separator gives back the text |
| Strings.SplitJoin | src/sentiment_analysis.py:31-35 | splitting parts free of the separator after joining them gives back the parts |
| Strings.IntToStringRoundTrip | src/create_timeseries.py:135 | `str(int(id))` reads back as the id and holds no ',' |
| Paths.BaseNameOfJoin | src/create_timeseries.py:158-160 | the last component of `os.path.join(dir, name)` is the name |
| Paths.DirNameOfJoin | src/sentiment_analysis.py:148 | `os.path.split` of a joined path gives back the directory |
| Paths.StemOfJoin | src/create_timeseries.py:158 | the stem of a joined path is the stem of the name |
| Listing.Sort | src/rename_files.py:10 | `sorted` returns the same names in ascending code-point order |
| Listing.SortedFilesMembers | src/rename_files.py:9-10 | the visiting order holds exactly the regular files of the directory |
| Listing.FilterMembers | src/sentiment_analysis.py:93-95 | exactly the names that pass the loop's test are kept |
| Listing.FilterConcat | src/sentiment_analysis.py:93-95 | the kept names stay in listing order |

## Left out

- HTTP, the sleeps and the retries (`connect_to_endpoint` and `get_json` in
  `src/create_timeseries.py`, lines 25-37 and 67-83) are the `Lookup` parameter, which gives
  the tweets of the `data` key or nothing. Two quirks of that code are not modelled:
  - the recursive retry's result is dropped, and the first response's `.json()` is returned;
  - `json_response.status` on a dict raises, so that path always ends in the `except` branch.
- Timeseries.EnrichTable: ids are unbounded integers. The `astype(float)` comparison and the
  `int(...)` conversion can merge distinct ids above 2^53; the model does not.
- Timeseries.EnrichFrom: the batches are read from the filtered table before any date is
  written. BatchIdsIgnoreDates shows the written dates cannot change them.
- Timeseries.RunMain: a movie directory without a sentiment file stops the run, which stands
  for the raise of `read_csv("")`. `print` output is not modelled. Of the exceptions caught at
  lines 148-152, a missing `data` and a tweet without `created_at` are modelled. Two are not:
  a tweet without `id` (the KeyError at line 145) and the generic `except Exception` at lines
  151-152.
- The RoBERTa tokenizer and model, the softmax and `np.round(…, 4)` are one abstract `Model`
  function.
- MovieScores.Percent: a label that does not occur has no `value_counts` entry in the source,
  so there is no value at all. The 0 that Percent and PercentOf give for it is the model's
  default reading, not a value the source computes.
- MovieScores.Percentages, MovieScores.Mean, MovieScores.SentimentScore and
  MovieScores.DiversityOf: results are exact reals, without the decimal rounding
  (`round(decimals=2)`, `round(decimals=4)`, `ndigits=3`).
- MovieScores.OverallSentiment: NaN scores are not modelled; `np.argmax` treats them apart.
- MovieScores.Summarise: the pandas Series layout of `data_out` is a record. An empty table
  gives no mean and no score in place of NaN and a division by zero.
- File reading and writing is a `read` parameter or a `CsvWrite` result. The extra index
  column `to_csv` adds in the utility scripts is not modelled.
- `os.listdir` order is a parameter (`listing`); `os.path.isfile` is a flag on each entry.
- `urllib.parse.quote` is a `Quote` parameter applied per character.
- BeautifulSoup parsing is abstract `Page`/`Infobox`/`TableRow` values. A missing `title`,
  `href` or `src` attribute, which raises in the source, is not modelled.
- The poster download (`urlretrieve`) and the JSON dump in `wikipedia_scraper.py` `main` are
  output only and are left out.
- SentimentAnalysis.RunSentimentAnalysis: the branch for `csv_file is None`, with its loop
  over movie directories, cannot run, because `os.path.normpath(None)` already raises in
  `__init__`. The `else` after `len(csv_files) >= 0` is dead. Neither is modelled. Only the
  names it would produce are covered, by OutputPathBothBranches.
- `os.path.normpath` of the given file and `str(text)` on a NaN text are not modelled. The
  text is already a string.
- `read_tweets_from_files` and `print_sentiment` in `src/sentiment_analysis.py` are not part
  of this model.
- `get_movie_dirs` (`os.scandir`) is the `movies` parameter of CreateTimeseries.
- The hard-coded absolute directory paths of the four utility scripts are parameters.
  ConstructSubsets takes the directory above the movie directory and the title.
- `auth` (`os.getenv`) is the `token` parameter of CreateTimeseries.
- The `main` of `src/twitter_api.py` only prints a response; it is not part of this model.
- `scripts/twitter/create_hashtags.py` only reads and prints a file, and is not part of this
  model.
