/** The rotation engine: the size check that triggers a rollover and the
    evict-then-shift pass over the chain of log files. */
module Rotation {
  import opened Wrappers
  import opened Paths
  import opened FileSystem

  /** The chain as stored on disk, slot by slot (slot 0 is the active file). */
  function Slots(fs: Disk, names: seq<Path>): (s: seq<Option<Bytes>>)
    ensures |s| == |names|
    ensures forall i :: 0 <= i < |names| ==> s[i] == Slot(fs, names[i])
  {
    seq(|names|, i requires 0 <= i < |names| => Slot(fs, names[i]))
  }

  /** True iff `filename` is a file whose size strictly exceeds `maxSize`;
      a missing file is never over the limit. */
  function IsMaxSize(fs: Disk, filename: Path, maxSize: int): (r: bool)
    ensures filename !in fs ==> !r
    ensures filename in fs ==> (r <==> |fs[filename]| > maxSize)
  {
    if filename !in fs then false
    else if |fs[filename]| > maxSize then true
    else false
  }

  /** One step of the renaming loop: move `src` onto `dst` if it is a file. */
  function MoveIfFile(fs: Disk, src: Path, dst: Path): Disk {
    if src in fs then Move(fs, src, dst) else fs
  }

  /** The renaming loop for `i = k-1` down to `0`: each file moves up one
      slot, the highest first. With distinct names and slot `k` vacated
      beforehand, every slot `j` in `1..k` ends up holding what slot `j-1`
      held, slot 0 is left empty and the slots above `k` are untouched. */
  function ShiftDown(fs: Disk, names: seq<Path>, k: nat): (r: Disk)
    requires k < |names|
    ensures forall p :: p !in names ==> Slot(r, p) == Slot(fs, p)
    ensures (forall j :: 0 <= j < k ==> names[j] !in fs) ==> r == fs
    ensures Distinct(names) && names[k] !in fs ==>
              && names[0] !in r
              && (forall j :: 0 < j <= k ==> Slot(r, names[j]) == Slot(fs, names[j - 1]))
              && (forall j :: k < j < |names| ==> Slot(r, names[j]) == Slot(fs, names[j]))
    decreases k
  {
    if k == 0 then fs
    else ShiftDown(MoveIfFile(fs, names[k - 1], names[k]), names, k - 1)
  }

  /** `os.remove` of the oldest generation when it is a file. */
  function EvictOldest(fs: Disk, names: seq<Path>): (r: Disk)
    requires |names| >= 1
    ensures names[|names| - 1] !in r
    ensures forall p :: p != names[|names| - 1] ==> Slot(r, p) == Slot(fs, p)
  {
    var oldest := names[|names| - 1];
    if oldest in fs then Remove(fs, oldest) else fs
  }

  /** Rotation: evict the oldest generation, then shift every other one up
      by one slot. Over a chain of distinct names this shifts the slots
      right, leaving slot 0 empty and dropping the last slot; paths outside
      the chain are untouched, and a chain with no files is left as it is. */
  function RotateLogs(fs: Disk, names: seq<Path>): (r: Disk)
    requires |names| >= 1
    ensures forall p :: p !in names ==> Slot(r, p) == Slot(fs, p)
    ensures (forall i :: 0 <= i < |names| ==> names[i] !in fs) ==> r == fs
    ensures Distinct(names) ==> Slots(r, names) == [None] + Slots(fs, names)[..|names| - 1]
  {
    ShiftDown(EvictOldest(fs, names), names, |names| - 1)
  }

  /** Every retained byte, oldest generation first: slot n-1, …, slot 1,
      slot 0. A missing file contributes nothing. */
  function Retained(slots: seq<Option<Bytes>>): Bytes {
    if |slots| == 0 then [] else Retained(slots[1..]) + Contents(slots[0])
  }

  /** True iff `a` is a tail of `b`. */
  predicate IsSuffix<T(==)>(a: seq<T>, b: seq<T>) {
    |a| <= |b| && b[|b| - |a|..] == a
  }

  /** The oldest slot comes first in the retained log. */
  lemma {:induction false} RetainedOldestFirst(slots: seq<Option<Bytes>>)
    requires |slots| >= 1
    ensures Retained(slots) == Contents(slots[|slots| - 1]) + Retained(slots[..|slots| - 1])
    decreases |slots|
  {
    var n := |slots|;
    if n > 1 {
      RetainedOldestFirst(slots[1..]);
      assert slots[1..][..n - 2] == slots[..n - 1][1..];
    }
  }

  /** Only the contents count: slots that agree on their bytes retain the same log. */
  lemma {:induction false} RetainedByContents(s: seq<Option<Bytes>>, t: seq<Option<Bytes>>)
    requires |s| == |t|
    requires forall i :: 0 <= i < |s| ==> Contents(s[i]) == Contents(t[i])
    ensures Retained(s) == Retained(t)
    decreases |s|
  {
    if |s| > 0 {
      RetainedByContents(s[1..], t[1..]);
    }
  }

  /** Rotation loses exactly the oldest generation: what was retained before
      is the evicted file followed by what is retained after, in order. */
  lemma RotateDropsOldest(fs: Disk, names: seq<Path>)
    requires |names| >= 1
    requires Distinct(names)
    ensures Retained(Slots(fs, names))
            == Contents(Slot(fs, names[|names| - 1])) + Retained(Slots(RotateLogs(fs, names), names))
  {
    ShiftedRetained(Slots(fs, names), Slots(RotateLogs(fs, names), names));
  }

  /** Shifting the slots right past an empty slot 0 keeps all but the oldest. */
  lemma ShiftedRetained(before: seq<Option<Bytes>>, after: seq<Option<Bytes>>)
    requires |before| >= 1
    requires after == [None] + before[..|before| - 1]
    ensures Retained(before) == Contents(before[|before| - 1]) + Retained(after)
  {
    RetainedOldestFirst(before);
    assert after[1..] == before[..|before| - 1];
  }

  /** Appending to the active file extends the retained log by exactly the
      appended bytes. */
  lemma AppendExtendsRetained(fs: Disk, names: seq<Path>, data: Bytes)
    requires |names| >= 1
    requires Distinct(names)
    ensures Retained(Slots(Append(fs, names[0], data), names)) == Retained(Slots(fs, names)) + data
  {
    var before := Slots(fs, names);
    var after := Slots(Append(fs, names[0], data), names);
    assert after[1..] == before[1..];
  }

  /** Opening the active file for append does not change the retained log. */
  lemma OpenKeepsRetained(fs: Disk, names: seq<Path>)
    requires |names| >= 1
    ensures Retained(Slots(OpenAppend(fs, names[0]), names)) == Retained(Slots(fs, names))
  {
    RetainedByContents(Slots(OpenAppend(fs, names[0]), names), Slots(fs, names));
  }
}
