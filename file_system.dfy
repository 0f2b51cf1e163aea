/**
 * The part of the file system the split touches: which directories and
 * files exist, what table each written file holds, and which paths cannot
 * be created or written (permissions, a full disk), with the cause the
 * failing call reports. `Disk` is the state as a value; `FileSystem` is the
 * object whose fields `mkdirSync` and `writeFile` update in place.
 */
module FileSystem {
  import opened Wrappers
  import opened Table

  /** A path as its segments: `path.join(dir, name)` is `dir + [name]`. */
  type Path = seq<string>

  /** The path as text, segments separated by '/'. */
  function Render(p: Path): string
  {
    if p == [] then "" else if |p| == 1 then p[0] else Render(p[..|p| - 1]) + "/" + p[|p| - 1]
  }

  /** The directories `mkdirSync(p, { recursive: true })` makes: `p` and every ancestor of it. */
  function Ancestry(p: Path): (a: set<Path>)
    ensures p != [] ==> p in a
  {
    assert p != [] ==> p[..|p|] == p;
    set i | 1 <= i <= |p| :: p[..i]
  }

  /** The error `writeFile` reports when the parent directory is missing. */
  function NoParentError(p: Path): string
  {
    "ENOENT: no such file or directory, open '" + Render(p) + "'"
  }

  datatype Disk = Disk(dirs: set<Path>, files: map<Path, Sheet>, faults: map<Path, string>) {

    /** `fs.existsSync(p)`: true for a directory or a file. */
    predicate Exists(p: Path) {
      p in dirs || p in files
    }

    /** `fs.mkdirSync(p, { recursive: true })`. */
    function MakeDir(p: Path): (r: Result<Disk>)
      ensures r.Success? <==> p !in faults
      ensures r.Failure? ==> r.error == faults[p]
      ensures r.Success? ==> r.value.dirs == dirs + Ancestry(p) &&
                             r.value.files == files && r.value.faults == faults
    {
      if p in faults then Failure(faults[p]) else Success(this.(dirs := dirs + Ancestry(p)))
    }

    /** `workbook.xlsx.writeFile(p)`: creates or overwrites the file when its directory exists. */
    function WriteFile(p: Path, s: Sheet): (r: Result<Disk>)
      ensures r.Success? <==> p !in faults && p != [] && p[..|p| - 1] in dirs
      ensures r.Failure? ==> r.error == if p in faults then faults[p] else NoParentError(p)
      ensures r.Success? ==> r.value == this.(files := files[p := s])
    {
      if p in faults then Failure(faults[p])
      else if p == [] || p[..|p| - 1] !in dirs then Failure(NoParentError(p))
      else Success(this.(files := files[p := s]))
    }
  }

  class FileSystem {
    var dirs: set<Path>
    var files: map<Path, Sheet>
    const faults: map<Path, string>

    function State(): Disk
      reads this
    {
      Disk(dirs, files, faults)
    }

    constructor (d: Disk)
      ensures State() == d
    {
      dirs, files, faults := d.dirs, d.files, d.faults;
    }

    method Exists(p: Path) returns (b: bool)
      ensures b <==> State().Exists(p)
    {
      b := p in dirs || p in files;
    }

    /** Creates `p` and its ancestors, or reports why it cannot; a failed call changes nothing. */
    method MakeDir(p: Path) returns (err: Option<string>)
      modifies this
      ensures var r := old(State()).MakeDir(p);
        if r.Success? then err == None && State() == r.value
        else err == Some(r.error) && State() == old(State())
    {
      if p in faults {
        err := Some(faults[p]);
      } else {
        dirs := dirs + Ancestry(p);
        err := None;
      }
    }

    /** Writes table `s` to `p`, or reports why it cannot; a failed call changes nothing. */
    method WriteFile(p: Path, s: Sheet) returns (err: Option<string>)
      modifies this
      ensures var r := old(State()).WriteFile(p, s);
        if r.Success? then err == None && State() == r.value
        else err == Some(r.error) && State() == old(State())
    {
      if p in faults {
        err := Some(faults[p]);
      } else if p == [] || p[..|p| - 1] !in dirs {
        err := Some(NoParentError(p));
      } else {
        files := files[p := s];
        err := None;
      }
    }
  }
}
