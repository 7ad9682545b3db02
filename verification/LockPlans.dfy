/** The file locks a handler of src/server/helper/helper.c asks for, in order. */
module LockPlans {
  import opened Bytes

  type Path = seq<byte>

  /** A call of `lock_file` or `lock_fd`: LOCK_SHARED or LOCK_EXCLUSIVE. */
  datatype Ask = Ask(path: Path, exclusive: bool)

  datatype Handler =
    | Read(path: Path)
    | Write(path: Path)
    | Download(path: Path)
    | Upload(path: Path)
    | Create(path: Path)
    | Chmod(path: Path)
    | Delete(path: Path)
    | Move(path: Path)
    | Transfer(source: Path, dest: Path)

  function Plan(h: Handler): seq<Ask> {
    match h
    case Read(path) => [Ask(path, false)]
    case Download(path) => [Ask(path, false)]
    case Transfer(source, dest) => [Ask(source, false), Ask(dest, true)]
    case _ => [Ask(h.path, true)]
  }

  /** Between two moments the locks asked for are the first of a plan, in its order. */
  predicate KeepsTo(before: seq<Ask>, after: seq<Ask>, plan: seq<Ask>) {
    before <= after <= before + plan
  }

  /** The locks of a process after taking one; an earlier one on the same file is converted. */
  function Taken(held: set<Ask>, ask: Ask): set<Ask> {
    Dropped(held, ask.path) + {ask}
  }

  /** The locks of a process after it closed a descriptor of the file. */
  function Dropped(held: set<Ask>, path: Path): set<Ask> {
    set a | a in held && a.path != path
  }
}
