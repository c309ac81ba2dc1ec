/** `src/count_tweets.py`: the row count of every file of a directory, in sorted file
    order, and their total. */
module CountTweets {
  import opened Paths
  import opened Listing

  /** One `Tweet count (<file>): <n>` line. */
  datatype Report = Report(fileName: string, count: nat)

  /** The sum of the counts. */
  function Total(counts: seq<nat>): nat
  {
    if |counts| == 0 then 0 else Total(counts[..|counts| - 1]) + counts[|counts| - 1]
  }

  /** `len(df.index)` of every visited file, in order. */
  function Counts<T>(dirPath: string, names: seq<string>, read: string -> seq<T>): (counts: seq<nat>)
  {
    seq(|names|, k requires 0 <= k < |names| => |read(InDir(dirPath, names[k]))|)
  }

  /** The per-file lines, in the order the files are visited. */
  function Reports<T>(dirPath: string, names: seq<string>, read: string -> seq<T>): (reports: seq<Report>)
  {
    seq(|names|, k requires 0 <= k < |names| => Report(BaseName(names[k]), |read(InDir(dirPath, names[k]))|))
  }

  /** The total is at least every single count. */
  lemma {:induction false} TotalBound(counts: seq<nat>, k: nat)
    requires k < |counts|
    ensures counts[k] <= Total(counts)
  {
    var n := |counts| - 1;
    if k < n {
      TotalBound(counts[..n], k);
    }
  }

  /** The total of two runs of files is the sum of their totals. */
  lemma {:induction false} TotalConcat(a: seq<nat>, b: seq<nat>)
    ensures Total(a + b) == Total(a) + Total(b)
    decreases |b|
  {
    if |b| == 0 {
      assert a + b == a;
    } else {
      var n := |b| - 1;
      assert (a + b)[..|a + b| - 1] == a + b[..n];
      TotalConcat(a, b[..n]);
    }
  }

  /** Taking one count out of the sequence. */
  lemma RemoveAtMultiset(b: seq<nat>, j: nat)
    requires j < |b|
    ensures multiset(b) == multiset(b[..j] + b[j + 1..]) + multiset{b[j]}
  {
    var l, r := b[..j], b[j + 1..];
    assert b == l + [b[j]] + r;
    assert multiset(b) == multiset(l) + multiset{b[j]} + multiset(r);
    assert multiset(l + r) == multiset(l) + multiset(r);
  }

  lemma RemoveAtTotal(b: seq<nat>, j: nat)
    requires j < |b|
    ensures Total(b) == Total(b[..j] + b[j + 1..]) + b[j]
  {
    var l, r := b[..j], b[j + 1..];
    assert b == (l + [b[j]]) + r;
    TotalConcat(l + [b[j]], r);
    assert (l + [b[j]])[..|l|] == l;
    TotalConcat(l, r);
  }

  /** The total does not depend on the order in which the files are counted. */
  lemma {:induction false} TotalPermutation(a: seq<nat>, b: seq<nat>)
    requires multiset(a) == multiset(b)
    ensures Total(a) == Total(b)
    decreases |a|
  {
    if |a| > 0 {
      var n := |a| - 1;
      var x := a[n];
      assert a == a[..n] + [x];
      assert multiset(a) == multiset(a[..n]) + multiset{x};
      assert x in multiset(b);
      var j :| 0 <= j < |b| && b[j] == x;
      var rest := b[..j] + b[j + 1..];
      RemoveAtMultiset(b, j);
      assert multiset(a[..n]) == multiset(a) - multiset{x};
      assert multiset(rest) == multiset(b) - multiset{x};
      RemoveAtTotal(b, j);
      TotalPermutation(a[..n], rest);
    } else {
      assert |b| == |multiset(b)|;
    }
  }

  lemma CountsSnoc<T>(dirPath: string, names: seq<string>, name: string, read: string -> seq<T>)
    ensures Total(Counts(dirPath, names + [name], read))
      == Total(Counts(dirPath, names, read)) + |read(InDir(dirPath, name))|
  {
    var counts := Counts(dirPath, names + [name], read);
    assert counts[..|names|] == Counts(dirPath, names, read);
  }

  lemma ReportsSnoc<T>(dirPath: string, names: seq<string>, name: string, read: string -> seq<T>)
    ensures Reports(dirPath, names + [name], read)
      == Reports(dirPath, names, read) + [Report(BaseName(name), |read(InDir(dirPath, name))|)]
  {
  }

  /** `main`: every sorted regular file is read and its row count reported and added to
      `total`, which starts at 0. */
  method CountAll<T>(dirPath: string, entries: seq<DirEntry>, read: string -> seq<T>)
    returns (reports: seq<Report>, total: nat)
    ensures reports == Reports(dirPath, SortedFiles(entries), read)
    ensures total == Total(Counts(dirPath, SortedFiles(entries), read))
  {
    var allFiles := Sort(FileNames(entries));
    total := 0;
    reports := [];
    for k := 0 to |allFiles|
      invariant reports == Reports(dirPath, allFiles[..k], read)
      invariant total == Total(Counts(dirPath, allFiles[..k], read))
    {
      var file := allFiles[k];
      var fileName := BaseName(file);
      var df := read(InDir(dirPath, file));
      var length := |df|;
      assert allFiles[..k + 1] == allFiles[..k] + [file];
      CountsSnoc(dirPath, allFiles[..k], file, read);
      ReportsSnoc(dirPath, allFiles[..k], file, read);
      total := total + length;
      reports := reports + [Report(fileName, length)];
    }
    assert allFiles[..|allFiles|] == allFiles;
  }
}
