/** Paths and an in-memory file system standing in for java.nio.file.Files:
    files are a map from path to content, directories a set. */
module FileStore {
  import opened Wrappers

  datatype Directory = Directory(absolute: bool, names: seq<string>)

  /** A path: absolute or relative, its directory names and its file name. */
  datatype Path = Path(absolute: bool, dirs: seq<string>, fileName: string)

  /** Path.getParent: null for a relative path made of a file name only. */
  function Parent(p: Path): (r: Option<Directory>)
    ensures r.None? <==> !p.absolute && p.dirs == []
  {
    if !p.absolute && p.dirs == [] then None else Some(Directory(p.absolute, p.dirs))
  }

  /** A directory and all its ancestors, as Files.createDirectories creates them. */
  function Ancestors(d: Directory): (r: set<Directory>)
    ensures d in r
  {
    assert d.names[..|d.names|] == d.names;
    set i | 0 <= i <= |d.names| :: Directory(d.absolute, d.names[..i])
  }

  class FileSystem {
    var files: map<Path, string>
    var dirs: set<Directory>

    constructor (files: map<Path, string>, dirs: set<Directory>)
      ensures this.files == files && this.dirs == dirs
    {
      this.files := files;
      this.dirs := dirs;
    }

    /** Files.deleteIfExists. */
    method DeleteIfExists(p: Path)
      modifies this
      ensures files == old(files) - {p} && dirs == old(dirs)
    {
      files := files - {p};
    }

    /** Files.createDirectories; a null directory raises NullPointerException. */
    method CreateDirectories(d: Option<Directory>) returns (error: Option<string>)
      modifies this
      ensures d.None? ==> error.Some? && files == old(files) && dirs == old(dirs)
      ensures d.Some? ==> error.None? && files == old(files) && dirs == old(dirs) + Ancestors(d.value)
    {
      if d.None? {
        return Some("NullPointerException");
      }
      dirs := dirs + Ancestors(d.value);
      error := None;
    }

    /** Files.createFile: a new empty file, or FileAlreadyExistsException. */
    method CreateFile(p: Path) returns (error: Option<string>)
      modifies this
      ensures p in old(files) ==> error.Some? && files == old(files)
      ensures p !in old(files) ==> error.None? && files == old(files)[p := ""]
      ensures dirs == old(dirs)
    {
      if p in files {
        return Some("FileAlreadyExistsException");
      }
      files := files[p := ""];
      error := None;
    }

    /** Files.writeString with APPEND, as writeLineToFile uses it: a missing
        file raises NoSuchFileException, which writeLineToFile swallows. */
    method AppendLine(p: Path, line: string)
      modifies this
      ensures p in old(files) ==> files == old(files)[p := old(files)[p] + line]
      ensures p !in old(files) ==> files == old(files)
      ensures dirs == old(dirs)
    {
      if p in files {
        files := files[p := files[p] + line];
      }
    }
  }
}
