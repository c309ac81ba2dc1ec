/** `src/dehydrate_tweets.py`: for every file of a directory whose name ends in "en.csv",
    the `id` column alone is written to a copy whose name has "_dehydr" inserted before the
    first ".csv". */
module DehydrateTweets {
  import opened Strings
  import opened Listing

  /** `file.endswith('en.csv')` */
  predicate IsEnglishCsv(name: string)
  {
    EndsWith(name, "en.csv")
  }

  /** Where "_dehydr" goes: `file.find('.csv')`, or, when that is -1, the index Python's
      negative slice bound `-1` stands for. */
  function Cut(name: string): (k: nat)
    ensures k <= |name|
  {
    var index := Find(name, ".csv");
    if index >= 0 then index
    else if |name| > 0 then |name| - 1
    else 0
  }

  /** `file[:index] + '_dehydr' + file[index:]` */
  function DehydratedName(name: string): string
  {
    name[..Cut(name)] + "_dehydr" + name[Cut(name)..]
  }

  /** A name the script processes always holds ".csv", so the insertion point is its first
      occurrence. */
  lemma EnglishCsvHasCsv(name: string)
    requires IsEnglishCsv(name)
    ensures 0 <= Find(name, ".csv") <= |name| - 4
    ensures Cut(name) == Find(name, ".csv")
    ensures DehydratedName(name) == name[..Find(name, ".csv")] + "_dehydr" + name[Find(name, ".csv")..]
  {
    EnglishCsvSuffix(name);
    CsvFound(name);
  }

  lemma EnglishCsvSuffix(name: string)
    requires IsEnglishCsv(name)
    ensures OccursAt(name, ".csv", |name| - 4)
  {
    assert name[|name| - 4..] == name[|name| - 6..][2..];
  }

  lemma CsvFound(name: string)
    requires OccursAt(name, ".csv", |name| - 4)
    ensures 0 <= Find(name, ".csv") <= |name| - 4
  {
    assert Contains(name, ".csv");
  }

  /** The new name is 7 characters longer, and taking those 7 characters out again at the
      insertion point gives back the original name. */
  lemma DehydratedNameRestores(name: string)
    ensures |DehydratedName(name)| == |name| + 7
    ensures var r, k := DehydratedName(name), Cut(name);
      r[k..k + 7] == "_dehydr" && r[..k] + r[k + 7..] == name
  {
    var r, k := DehydratedName(name), Cut(name);
    assert r[..k] == name[..k];
    assert r[k + 7..] == name[k..];
    assert name[..k] + name[k..] == name;
  }

  /** When the only ".csv" in an "en.csv" name is its suffix, the new name ends in
      "_dehydr.csv" and no longer passes the "en.csv" test. */
  lemma DehydratedNameSuffix(name: string)
    requires IsEnglishCsv(name)
    requires forall i :: 0 <= i < |name| - 4 ==> !OccursAt(name, ".csv", i)
    ensures EndsWith(DehydratedName(name), "_dehydr.csv")
    ensures !IsEnglishCsv(DehydratedName(name))
  {
    EnglishCsvHasCsv(name);
    var k := Find(name, ".csv");
    assert OccursAt(name, ".csv", k);
    assert k == |name| - 4;
    EnglishCsvSuffix(name);
    DehydratedSuffixShape(name[..k], name[k..]);
  }

  lemma DehydratedSuffixShape(stem: string, ext: string)
    requires ext == ".csv"
    ensures EndsWith(stem + "_dehydr" + ext, "_dehydr.csv")
    ensures !EndsWith(stem + "_dehydr" + ext, "en.csv")
  {
    var r := stem + "_dehydr" + ext;
    assert r[|r| - 11..] == "_dehydr.csv";
    assert r[|r| - 6..][1] == r[|r| - 11..][6];
  }

  /** When an "en.csv" name holds an earlier ".csv", the insertion lands there and the new
      name still ends in "en.csv", so it passes the test again. */
  lemma DehydratedNameEarlierCsv(name: string, i: nat)
    requires IsEnglishCsv(name)
    requires i < |name| - 4 && OccursAt(name, ".csv", i)
    ensures IsEnglishCsv(DehydratedName(name))
  {
    EnglishCsvHasCsv(name);
    var k := Find(name, ".csv");
    assert k <= i;
    assert k != |name| - 5 by {
      assert name[k..k + 4][0] == '.';
      assert name[|name| - 6..][1] == 'n';
    }
    var r := DehydratedName(name);
    assert r[|r| - 6..] == name[k..][|name| - k - 6..];
    assert name[k..][|name| - k - 6..] == name[|name| - 6..];
  }

  /** A row of a tweet table: its `id` and the other columns. */
  datatype TweetRecord = TweetRecord(id: int, columns: seq<string>)

  /** `df["id"]`: the ids of the rows, in row order. */
  function IdColumn(rows: seq<TweetRecord>): (ids: seq<int>)
  {
    seq(|rows|, k requires 0 <= k < |rows| => rows[k].id)
  }

  /** The writes of the loop for the given visited names. */
  function DehydrateWrites(dirPath: string, names: seq<string>, read: string -> seq<TweetRecord>)
    : (writes: seq<CsvWrite<seq<int>>>)
  {
    seq(|names|, k requires 0 <= k < |names| =>
      CsvWrite(InDir(dirPath, DehydratedName(names[k])), IdColumn(read(InDir(dirPath, names[k])))))
  }

  lemma DehydrateWritesSnoc(dirPath: string, names: seq<string>, name: string, read: string -> seq<TweetRecord>)
    ensures DehydrateWrites(dirPath, names + [name], read)
      == DehydrateWrites(dirPath, names, read)
        + [CsvWrite(InDir(dirPath, DehydratedName(name)), IdColumn(read(InDir(dirPath, name))))]
  {
  }

  /** The body of the loop for an "en.csv" name. */
  method DehydrateOne(dirPath: string, file: string, read: string -> seq<TweetRecord>)
    returns (w: CsvWrite<seq<int>>)
    requires IsEnglishCsv(file)
    ensures w == CsvWrite(InDir(dirPath, DehydratedName(file)), IdColumn(read(InDir(dirPath, file))))
    ensures |w.table| == |read(InDir(dirPath, file))|
    ensures forall k :: 0 <= k < |w.table| ==> w.table[k] == read(InDir(dirPath, file))[k].id
  {
    EnglishCsvHasCsv(file);
    var index := Find(file, ".csv");
    var newFileName := file[..index] + "_dehydr" + file[index..];
    var df := read(InDir(dirPath, file));
    w := CsvWrite(InDir(dirPath, newFileName), IdColumn(df));
  }

  /** `main`: the sorted regular files are visited in order; for each "en.csv" one the id
      column is written to its "_dehydr" copy, and nothing else is written. */
  method DehydrateAll(dirPath: string, entries: seq<DirEntry>, read: string -> seq<TweetRecord>)
    returns (writes: seq<CsvWrite<seq<int>>>)
    ensures writes == DehydrateWrites(dirPath, Filter(SortedFiles(entries), IsEnglishCsv), read)
  {
    var allFiles := Sort(FileNames(entries));
    writes := [];
    for k := 0 to |allFiles|
      invariant writes == DehydrateWrites(dirPath, Filter(allFiles[..k], IsEnglishCsv), read)
    {
      var file := allFiles[k];
      assert allFiles[..k + 1] == allFiles[..k] + [file];
      FilterSnoc(allFiles[..k], file, IsEnglishCsv);
      if EndsWith(file, "en.csv") {
        DehydrateWritesSnoc(dirPath, Filter(allFiles[..k], IsEnglishCsv), file, read);
        var w := DehydrateOne(dirPath, file, read);
        writes := writes + [w];
      }
    }
    assert allFiles[..|allFiles|] == allFiles;
  }
}
