/** The part of the file system the configuration code touches. Every
    refusal by the operating system that is not a consequence of the
    entries themselves is listed with its io error text, by kind of access:
    `readFaults` for reading a file (a file without read permission, ...),
    `writeFaults` for creating directories and writing files (a read-only
    file system, a full disk, ...). An operation on a path listed for its
    kind of access fails with that text. The paths whose metadata cannot be
    read (a directory above them that may not be searched, ...) are listed
    in `unstatable`. */
module FileSystem {
  import opened Wrappers
  import opened Types

  datatype Entry = File(content: string) | Dir

  const IS_A_DIRECTORY := "Is a directory (os error 21)"
  const NOT_FOUND := "No such file or directory (os error 2)"

  /** The non-empty prefixes of a path: the path and every directory above it. */
  function Ancestors(path: Path): set<Path> {
    set k | 1 <= k <= |path| :: path[..k]
  }

  datatype Disk = Disk(entries: map<Path, Entry>, readFaults: map<Path, string>,
                       writeFaults: map<Path, string>, unstatable: set<Path>) {

    /** `Path::exists`: a file or a directory is there and its metadata can
        be read; a failed lookup answers false, not an error. */
    predicate Exists(path: Path) {
      path in entries && path !in unstatable
    }

    /** `std::fs::read_to_string`. */
    function ReadToString(path: Path): (r: Result<string, string>)
      ensures r.Success? <==> path !in readFaults && path in entries && entries[path].File?
      ensures r.Success? ==> r.value == entries[path].content
    {
      if path in readFaults then Failure(readFaults[path])
      else if path !in entries then Failure(NOT_FOUND)
      else match entries[path]
        case File(content) => Success(content)
        case Dir => Failure(IS_A_DIRECTORY)
    }

    /** `std::fs::create_dir_all`: every missing directory on the way to
        `path` is created; existing entries stay as they are. */
    function CreateDirAll(path: Path): (r: Result<Disk, string>)
      ensures r.Success? <==> path !in writeFaults
      ensures r.Success? ==> && r.value.readFaults == readFaults && r.value.writeFaults == writeFaults
                             && r.value.unstatable == unstatable
      ensures r.Success? ==> r.value.entries.Keys == entries.Keys + Ancestors(path)
      ensures r.Success? ==> forall p :: p in entries ==> r.value.entries[p] == entries[p]
      ensures r.Success? ==> forall p :: p in Ancestors(path) && p !in entries ==> r.value.entries[p] == Dir
    {
      if path in writeFaults then Failure(writeFaults[path])
      else Success(this.(entries := (map p | p in Ancestors(path) :: Dir) + entries))
    }

    /** `std::fs::write`: creates or replaces the file at `path`. */
    function Write(path: Path, content: string): (r: Result<Disk, string>)
      ensures r.Success? <==> path !in writeFaults && !(path in entries && entries[path].Dir?)
      ensures r.Success? ==> r.value == Disk(entries[path := File(content)], readFaults, writeFaults, unstatable)
    {
      if path in writeFaults then Failure(writeFaults[path])
      else if path in entries && entries[path].Dir? then Failure(IS_A_DIRECTORY)
      else Success(this.(entries := entries[path := File(content)]))
    }
  }

  /** The machine's file system, which the configuration code changes in place. */
  class FileSystem {
    var disk: Disk

    constructor (disk: Disk)
      ensures this.disk == disk
    {
      this.disk := disk;
    }

    method CreateDirAll(path: Path) returns (r: Result<(), string>)
      modifies this
      ensures old(disk).CreateDirAll(path).Success? ==> r == Success(()) && disk == old(disk).CreateDirAll(path).value
      ensures old(disk).CreateDirAll(path).Failure? ==> r == Failure(old(disk).CreateDirAll(path).error) && disk == old(disk)
    {
      var next := disk.CreateDirAll(path);
      if next.Failure? {
        return Failure(next.error);
      }
      disk := next.value;
      return Success(());
    }

    method Write(path: Path, content: string) returns (r: Result<(), string>)
      modifies this
      ensures old(disk).Write(path, content).Success? ==> r == Success(()) && disk == old(disk).Write(path, content).value
      ensures old(disk).Write(path, content).Failure? ==> r == Failure(old(disk).Write(path, content).error) && disk == old(disk)
    {
      var next := disk.Write(path, content);
      if next.Failure? {
        return Failure(next.error);
      }
      disk := next.value;
      return Success(());
    }
  }
}
