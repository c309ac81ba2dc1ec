/** `src/rename_files.py`: every file of a directory whose name starts with "start" is read
    and written back under a name with ':', '-', ',' and '#' replaced by '_'. */
module RenameFiles {
  import opened Strings
  import opened Listing

  /** The four characters the script replaces. */
  predicate IsReplaced(c: char)
  {
    c == ':' || c == '-' || c == ',' || c == '#'
  }

  /** `file.startswith('start')` */
  predicate IsStartName(name: string)
  {
    StartsWith(name, "start")
  }

  /** The new name: four successive replacements. Position by position, each of the four
      characters becomes '_' and every other character stays. */
  function RenamedName(name: string): (r: string)
    ensures |r| == |name|
    ensures forall i :: 0 <= i < |name| ==> r[i] == if IsReplaced(name[i]) then '_' else name[i]
  {
    Replace(Replace(Replace(Replace(name, ':', '_'), '-', '_'), ',', '_'), '#', '_')
  }

  /** The new name holds none of the four characters. */
  lemma RenamedNameClean(name: string)
    ensures forall i :: 0 <= i < |RenamedName(name)| ==> !IsReplaced(RenamedName(name)[i])
  {
  }

  /** A name that starts with "start" still does after the rewrite. */
  lemma RenamedKeepsStart(name: string)
    requires IsStartName(name)
    ensures IsStartName(RenamedName(name))
  {
    var r := RenamedName(name);
    forall i | 0 <= i < 5
      ensures r[i] == "start"[i]
    {
      assert name[..5][i] == "start"[i];
    }
    assert r[..5] == "start";
  }

  /** A second rewrite changes nothing. */
  lemma RenamedIdempotent(name: string)
    ensures RenamedName(RenamedName(name)) == RenamedName(name)
  {
    var r := RenamedName(name);
    RenamedNameClean(name);
    assert forall i :: 0 <= i < |r| ==> RenamedName(r)[i] == r[i];
  }

  /** The file is written back under its own name exactly when its name holds none of the
      four characters. */
  lemma RenamedNameUnchanged(name: string)
    ensures RenamedName(name) == name <==> forall i :: 0 <= i < |name| ==> !IsReplaced(name[i])
  {
    var r := RenamedName(name);
    if r == name {
      forall i | 0 <= i < |name|
        ensures !IsReplaced(name[i])
      {
        assert r[i] == name[i];
      }
    }
  }

  /** The writes of the loop for the given visited names: each file is read from the
      directory and written to the directory under its new name. */
  function RenameWrites<T>(dirPath: string, names: seq<string>, read: string -> T): (writes: seq<CsvWrite<T>>)
  {
    seq(|names|, k requires 0 <= k < |names| =>
      CsvWrite(InDir(dirPath, RenamedName(names[k])), read(InDir(dirPath, names[k]))))
  }

  lemma RenameWritesSnoc<T>(dirPath: string, names: seq<string>, name: string, read: string -> T)
    ensures RenameWrites(dirPath, names + [name], read)
      == RenameWrites(dirPath, names, read) + [CsvWrite(InDir(dirPath, RenamedName(name)), read(InDir(dirPath, name)))]
  {
  }

  /** The body of the loop for a name that starts with "start": read, four replacements,
      write. */
  method RenameOne<T>(dirPath: string, file: string, read: string -> T) returns (w: CsvWrite<T>)
    ensures w == CsvWrite(InDir(dirPath, RenamedName(file)), read(InDir(dirPath, file)))
  {
    var df := read(InDir(dirPath, file));
    var newFileName := Replace(file, ':', '_');
    newFileName := Replace(newFileName, '-', '_');
    newFileName := Replace(newFileName, ',', '_');
    newFileName := Replace(newFileName, '#', '_');
    w := CsvWrite(InDir(dirPath, newFileName), df);
  }

  /** `main`: the sorted regular files are visited in order; the ones whose name starts with
      "start" are rewritten, and nothing else is written. */
  method RenameStartFiles<T>(dirPath: string, entries: seq<DirEntry>, read: string -> T)
    returns (writes: seq<CsvWrite<T>>)
    ensures writes == RenameWrites(dirPath, Filter(SortedFiles(entries), IsStartName), read)
  {
    var allFiles := Sort(FileNames(entries));
    writes := [];
    for k := 0 to |allFiles|
      invariant writes == RenameWrites(dirPath, Filter(allFiles[..k], IsStartName), read)
    {
      var file := allFiles[k];
      assert allFiles[..k + 1] == allFiles[..k] + [file];
      FilterSnoc(allFiles[..k], file, IsStartName);
      if StartsWith(file, "start") {
        RenameWritesSnoc(dirPath, Filter(allFiles[..k], IsStartName), file, read);
        var w := RenameOne(dirPath, file, read);
        writes := writes + [w];
      }
    }
    assert allFiles[..|allFiles|] == allFiles;
  }

  /** Every file written has a clean name that starts with "start", and came from a regular
      file of the directory whose name starts with "start". */
  lemma RenameTargets<T>(dirPath: string, entries: seq<DirEntry>, read: string -> T, k: nat)
    requires k < |Filter(SortedFiles(entries), IsStartName)|
    ensures var source := Filter(SortedFiles(entries), IsStartName)[k];
      && IsStartName(source)
      && (exists e :: e in entries && e.isFile && e.name == source)
      && var target := RenamedName(source);
      && IsStartName(target)
      && (forall i :: 0 <= i < |target| ==> !IsReplaced(target[i]))
  {
    var names := Filter(SortedFiles(entries), IsStartName);
    var source := names[k];
    FilterMembers(SortedFiles(entries), IsStartName, source);
    SortedFilesMembers(entries, source);
    RenamedKeepsStart(source);
    RenamedNameClean(source);
  }
}
