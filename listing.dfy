/** Directory listings as the file-utility scripts take them:
    `sorted([f for f in listdir(dir) if isfile(join(dir, f))])`. */
module Listing {

  /** One entry of `os.listdir`, with the answer `os.path.isfile` gives for it. */
  datatype DirEntry = DirEntry(name: string, isFile: bool)

  /** Python's `<=` on strings: lexicographic by code point. */
  predicate NameLe(a: string, b: string)
    decreases |a|
  {
    |a| == 0 || (|b| > 0 && (a[0] < b[0] || (a[0] == b[0] && NameLe(a[1..], b[1..]))))
  }

  lemma {:induction false} NameLeTotal(a: string, b: string)
    ensures NameLe(a, b) || NameLe(b, a)
    decreases |a|
  {
    if |a| > 0 && |b| > 0 && a[0] == b[0] {
      NameLeTotal(a[1..], b[1..]);
    }
  }

  /** Each name is `<=` the next one. */
  predicate Sorted(s: seq<string>)
  {
    |s| < 2 || (NameLe(s[0], s[1]) && Sorted(s[1..]))
  }

  /** Insertion of one name into a sorted list. */
  function Insert(x: string, s: seq<string>): (r: seq<string>)
    requires Sorted(s)
    ensures Sorted(r)
    ensures multiset(r) == multiset(s) + multiset{x}
    ensures r[0] == x || (|s| > 0 && r[0] == s[0])
  {
    if |s| == 0 then [x]
    else if NameLe(x, s[0]) then [x] + s
    else
      NameLeTotal(x, s[0]);
      var t := Insert(x, s[1..]);
      assert s == [s[0]] + s[1..];
      [s[0]] + t
  }

  /** `sorted(names)`: the same names, in ascending order. */
  function Sort(names: seq<string>): (r: seq<string>)
    ensures Sorted(r)
    ensures multiset(r) == multiset(names)
  {
    if |names| == 0 then []
    else
      assert names == [names[0]] + names[1..];
      Insert(names[0], Sort(names[1..]))
  }

  /** The names of the entries that are regular files, in listing order. */
  function FileNames(entries: seq<DirEntry>): (names: seq<string>)
    ensures forall n :: n in names <==> exists e :: e in entries && e.isFile && e.name == n
  {
    if |entries| == 0 then []
    else
      var rest := FileNames(entries[1..]);
      assert forall e :: e in entries <==> e == entries[0] || e in entries[1..];
      if entries[0].isFile then [entries[0].name] + rest else rest
  }

  /** The files of a directory in the order the scripts visit them. */
  function SortedFiles(entries: seq<DirEntry>): (names: seq<string>)
    ensures Sorted(names)
    ensures multiset(names) == multiset(FileNames(entries))
  {
    Sort(FileNames(entries))
  }

  /** The visiting order holds exactly the regular files of the directory. */
  lemma SortedFilesMembers(entries: seq<DirEntry>, n: string)
    ensures n in SortedFiles(entries) <==> exists e :: e in entries && e.isFile && e.name == n
  {
    var s := SortedFiles(entries);
    assert n in s <==> n in multiset(s);
    assert n in FileNames(entries) <==> n in multiset(FileNames(entries));
  }

  /** The names a test keeps, in listing order: the `if` inside the scripts' loops. */
  function Filter(names: seq<string>, keep: string -> bool): (kept: seq<string>)
  {
    if |names| == 0 then []
    else
      var n := |names| - 1;
      Filter(names[..n], keep) + if keep(names[n]) then [names[n]] else []
  }

  /** Exactly the names that pass the test are kept. */
  lemma {:induction false} FilterMembers(names: seq<string>, keep: string -> bool, name: string)
    ensures name in Filter(names, keep) <==> name in names && keep(name)
  {
    if |names| > 0 {
      var n := |names| - 1;
      FilterMembers(names[..n], keep, name);
      assert names == names[..n] + [names[n]];
    }
  }

  /** The filter keeps the listing order: it distributes over concatenation. */
  lemma {:induction false} FilterConcat(a: seq<string>, b: seq<string>, keep: string -> bool)
    ensures Filter(a + b, keep) == Filter(a, keep) + Filter(b, keep)
    decreases |b|
  {
    if |b| > 0 {
      var n := |b| - 1;
      assert (a + b)[..|a + b| - 1] == a + b[..n];
      FilterConcat(a, b[..n], keep);
    } else {
      assert a + b == a;
    }
  }

  /** A name that passes the test is kept; one that does not is dropped. */
  lemma FilterSnoc(names: seq<string>, name: string, keep: string -> bool)
    ensures Filter(names + [name], keep) == Filter(names, keep) + if keep(name) then [name] else []
  {
    assert (names + [name])[..|names|] == names;
  }

  /** `f"{dir_path}/{file}"`: the path the scripts open, by plain concatenation. */
  function InDir(dirPath: string, name: string): string
  {
    dirPath + "/" + name
  }

  /** One `to_csv` call: the path written and the table written there. */
  datatype CsvWrite<T> = CsvWrite(path: string, table: T)
}
