/** The disk as the capture loop sees it: a finite map from a path to the
    bytes of the regular file stored there. A path with no entry is not a
    file, so `os.path.isfile` is membership and `os.stat(..).st_size` is
    the length of the contents. */
module FileSystem {
  import opened Wrappers
  import opened Paths

  newtype Byte = b: int | 0 <= b < 256

  type Bytes = seq<Byte>

  type Disk = map<Path, Bytes>

  /** What the disk holds at `p`: the file's contents, or `None`. */
  function Slot(fs: Disk, p: Path): Option<Bytes> {
    if p in fs then Some(fs[p]) else None
  }

  /** The bytes a slot contributes to the log: nothing when there is no file. */
  function Contents(s: Option<Bytes>): Bytes {
    if s.Some? then s.value else []
  }

  /** `os.remove(p)`. */
  function Remove(fs: Disk, p: Path): (r: Disk)
    ensures p !in r
    ensures forall q :: q != p ==> Slot(r, q) == Slot(fs, q)
  {
    fs - {p}
  }

  /** `shutil.move(src, dst)` onto a plain file path: the file at `src` now
      lives at `dst`, replacing whatever was there. Renaming a file onto
      itself changes nothing. */
  function Move(fs: Disk, src: Path, dst: Path): (r: Disk)
    requires src in fs
    ensures Slot(r, dst) == Slot(fs, src)
    ensures src != dst ==> src !in r
    ensures forall q :: q != src && q != dst ==> Slot(r, q) == Slot(fs, q)
  {
    if src == dst then fs else (fs - {src})[dst := fs[src]]
  }

  /** `open(p, "a")`: creates an empty file when there is none and leaves an
      existing one as it is. */
  function OpenAppend(fs: Disk, p: Path): (r: Disk)
    ensures p in r
    ensures Contents(Slot(r, p)) == Contents(Slot(fs, p))
    ensures forall q :: q != p ==> Slot(r, q) == Slot(fs, q)
  {
    if p in fs then fs else fs[p := []]
  }

  /** A write through a handle opened in append mode: the data lands after
      the file's current contents. */
  function Append(fs: Disk, p: Path, data: Bytes): (r: Disk)
    ensures Slot(r, p) == Some(Contents(Slot(fs, p)) + data)
    ensures forall q :: q != p ==> Slot(r, q) == Slot(fs, q)
  {
    fs[p := Contents(Slot(fs, p)) + data]
  }
}
