/** An abstract local filesystem: the paths that exist, with their size and
    whether each is a regular file. `os.Stat`, `os.Remove` and the files an
    external command leaves behind act on it. */
module Disk {
  import opened Types

  datatype FileInfo = FileInfo(size: nat, regular: bool)

  /** The files after an external command has (or has not) left a regular
      file of the given size at `path`. */
  function AfterWrite(files: map<string, FileInfo>, path: string, wrote: Option<nat>): (r: map<string, FileInfo>)
    ensures wrote.None? ==> r == files
    ensures wrote.Some? ==> path in r && r[path] == FileInfo(wrote.value, true)
    ensures forall p :: p != path ==> (p in r <==> p in files)
    ensures forall p :: p != path && p in files ==> r[p] == files[p]
  {
    if wrote.Some? then files[path := FileInfo(wrote.value, true)] else files
  }

  /** Every path other than `path` is in both maps or in neither, with the same info. */
  ghost predicate SameExcept(before: map<string, FileInfo>, after: map<string, FileInfo>, path: string) {
    forall p :: p != path ==> (p in after <==> p in before) && (p in after ==> after[p] == before[p])
  }

  class FileSystem {
    var files: map<string, FileInfo>

    constructor (files: map<string, FileInfo>)
      ensures this.files == files
    {
      this.files := files;
    }

    /** `os.Remove`: fails on a missing path, or when the system refuses. */
    method Remove(path: string, refused: bool) returns (err: Option<Error>)
      modifies this
      ensures err == (if path !in old(files) then Some(NotExist(path))
                      else if refused then Some(PermissionDenied(path))
                      else None)
      ensures files == if err == None then old(files) - {path} else old(files)
    {
      if path !in files {
        err := Some(NotExist(path));
      } else if refused {
        err := Some(PermissionDenied(path));
      } else {
        files := files - {path};
        err := None;
      }
    }

    /** Records what an external command left at `path`: a regular file of
        the size it wrote, if it wrote one; no other path changes. */
    method Record(path: string, wrote: Option<nat>)
      modifies this
      ensures files == AfterWrite(old(files), path, wrote)
      ensures wrote.None? ==> files == old(files)
      ensures wrote.Some? ==> path in files && files[path] == FileInfo(wrote.value, true)
      ensures SameExcept(old(files), files, path)
    {
      if wrote.Some? {
        files := files[path := FileInfo(wrote.value, true)];
      }
    }
  }
}
