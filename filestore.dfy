/** The local file system as the crawlers see it: a set of directory paths and
    a map from file paths to their bytes. */
module FileStore {
  import opened Base

  class FileSystem {
    var dirs: set<string>
    var files: map<string, Bytes>

    /** No path is both a directory and a file. */
    ghost predicate Valid()
      reads this
    {
      dirs !! files.Keys
    }

    constructor (initialDirs: set<string>, initialFiles: map<string, Bytes>)
      requires initialDirs !! initialFiles.Keys
      ensures Valid()
      ensures dirs == initialDirs && files == initialFiles
    {
      dirs := initialDirs;
      files := initialFiles;
    }

    /** `Path.is_dir()`. */
    predicate IsDir(p: string)
      reads this
    {
      p in dirs
    }

    /** `Path.is_file()`. */
    predicate IsFile(p: string)
      reads this
    {
      p in files
    }

    /** `os.path.exists(p)`. */
    predicate Exists(p: string)
      reads this
    {
      p in dirs || p in files
    }

    /** `Path.mkdir(exist_ok=existOk)`; `os.mkdir(p)` is the case `existOk == false`.
        An existing directory is an error only without `existOk`; an existing
        file always is. */
    method MkDir(p: string, existOk: bool) returns (r: Outcome)
      requires Valid()
      modifies this
      ensures Valid()
      ensures files == old(files)
      ensures r == (if old(Exists(p)) && !(existOk && old(IsDir(p))) then Fail(FileExistsError) else Pass)
      ensures dirs == old(dirs) + (if old(Exists(p)) then {} else {p})
    {
      if p in dirs {
        r := if existOk then Pass else Fail(FileExistsError);
      } else if p in files {
        r := Fail(FileExistsError);
      } else {
        dirs := dirs + {p};
        r := Pass;
      }
    }

    /** `Path.write_bytes(data)`, also `open(p, "wb")` followed by `write(data)`:
        the file is created or overwritten with exactly `data`. */
    method WriteBytes(p: string, data: Bytes) returns (r: Outcome)
      requires Valid()
      modifies this
      ensures Valid()
      ensures dirs == old(dirs)
      ensures r == if old(IsDir(p)) then Fail(IsADirectoryError) else Pass
      ensures files == if old(IsDir(p)) then old(files) else old(files)[p := data]
    {
      if p in dirs {
        r := Fail(IsADirectoryError);
      } else {
        files := files[p := data];
        r := Pass;
      }
    }
  }
}
