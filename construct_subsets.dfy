/** `src/construct_subsets.py`: the first 28 rows of every file of a movie's tweet directory,
    concatenated in sorted file order into `subset_<movie title>.csv`. */
module ConstructSubsets {
  import opened Listing

  /** `tweets_per_file` */
  const TweetsPerFile: nat := 28

  function Min(a: nat, b: nat): nat
  {
    if a <= b then a else b
  }

  /** `df.head(n)`: the first min(n, |rows|) rows, in order. */
  function Head<T>(rows: seq<T>, n: nat): (h: seq<T>)
    ensures |h| == Min(n, |rows|)
    ensures h == rows[..|h|]
  {
    if |rows| <= n then rows else rows[..n]
  }

  /** What `subset_all` holds after the given tables: their heads, one after the other. */
  function Subset<T>(tables: seq<seq<T>>): seq<T>
  {
    if |tables| == 0 then []
    else
      var n := |tables| - 1;
      Subset(tables[..n]) + Head(tables[n], TweetsPerFile)
  }

  /** Σ min(28, nᵢ) over the tables. */
  function HeadTotal<T>(tables: seq<seq<T>>): nat
  {
    if |tables| == 0 then 0
    else
      var n := |tables| - 1;
      HeadTotal(tables[..n]) + Min(TweetsPerFile, |tables[n]|)
  }

  /** The subset has Σ min(28, nᵢ) rows. */
  lemma {:induction false} SubsetLength<T>(tables: seq<seq<T>>)
    ensures |Subset(tables)| == HeadTotal(tables)
  {
    if |tables| > 0 {
      SubsetLength(tables[..|tables| - 1]);
    }
  }

  /** Appending a file never removes earlier rows: the subset of the first k files is a
      prefix of the subset of all of them. */
  lemma {:induction false} SubsetPrefix<T>(tables: seq<seq<T>>, k: nat)
    requires k <= |tables|
    ensures |Subset(tables[..k])| <= |Subset(tables)|
    ensures Subset(tables[..k]) == Subset(tables)[..|Subset(tables[..k])|]
    decreases |tables| - k
  {
    if k == |tables| {
      assert tables[..k] == tables;
    } else {
      var n := |tables| - 1;
      assert tables[..n][..k] == tables[..k];
      SubsetPrefix(tables[..n], k);
    }
  }

  /** File k contributes its first min(28, n) rows, right after the rows of the files before
      it. */
  lemma SubsetSlice<T>(tables: seq<seq<T>>, k: nat)
    requires k < |tables|
    ensures var lo, hi := HeadTotal(tables[..k]), HeadTotal(tables[..k + 1]);
      && hi == lo + Min(TweetsPerFile, |tables[k]|) && hi <= |Subset(tables)|
      && Subset(tables)[lo..hi] == Head(tables[k], TweetsPerFile)
  {
    var t := tables[..k + 1];
    assert t[..k] == tables[..k];
    SubsetLength(tables[..k]);
    SubsetLength(t);
    SubsetPrefix(tables, k + 1);
    var lo, hi := HeadTotal(tables[..k]), HeadTotal(t);
    assert Subset(t) == Subset(tables[..k]) + Head(tables[k], TweetsPerFile);
    assert Subset(tables)[lo..hi] == Subset(t)[lo..hi];
  }

  /** The subset keeps the file order: it distributes over concatenation. */
  lemma {:induction false} SubsetConcat<T>(a: seq<seq<T>>, b: seq<seq<T>>)
    ensures Subset(a + b) == Subset(a) + Subset(b)
    decreases |b|
  {
    if |b| == 0 {
      assert a + b == a;
    } else {
      var n := |b| - 1;
      assert (a + b)[..|a + b| - 1] == a + b[..n];
      SubsetConcat(a, b[..n]);
    }
  }

  /** The tables of the visited names, read from the directory. */
  function Tables<T>(dirPath: string, names: seq<string>, read: string -> seq<T>): (tables: seq<seq<T>>)
  {
    seq(|names|, k requires 0 <= k < |names| => read(InDir(dirPath, names[k])))
  }

  /** `f"{dir_path}/subset_{movie_title}.csv"` */
  function SubsetPath(dirPath: string, movieTitle: string): string
  {
    InDir(dirPath, "subset_" + movieTitle + ".csv")
  }

  /** `main` for a movie title and the directory above its tweet directory: every sorted
      regular file is read and its head appended; the result is written to
      `subset_<movie title>.csv` in the tweet directory. */
  method ConstructSubset<T>(twitterDir: string, movieTitle: string, entries: seq<DirEntry>, read: string -> seq<T>)
    returns (w: CsvWrite<seq<T>>)
    ensures w.path == SubsetPath(twitterDir + movieTitle, movieTitle)
    ensures w.table == Subset(Tables(twitterDir + movieTitle, SortedFiles(entries), read))
  {
    var dirPath := twitterDir + movieTitle;
    var allFiles := Sort(FileNames(entries));
    var tweetsPerFile := 28;
    var subsetAll: seq<T> := [];
    for k := 0 to |allFiles|
      invariant subsetAll == Subset(Tables(dirPath, allFiles[..k], read))
    {
      var df := read(InDir(dirPath, allFiles[k]));
      assert Tables(dirPath, allFiles[..k + 1], read)[..k] == Tables(dirPath, allFiles[..k], read);
      subsetAll := subsetAll + if |df| <= tweetsPerFile then df else df[..tweetsPerFile];
    }
    assert allFiles[..|allFiles|] == allFiles;
    w := CsvWrite(InDir(dirPath, "subset_" + movieTitle + ".csv"), subsetAll);
  }
}
