/** The capture loop: read lines until the input ends, optionally stamp
    each one, append it to the active file and rotate whenever the active
    file has grown past the size limit. */
module Capture {
  import opened Wrappers
  import opened Paths
  import opened FileSystem
  import opened Rotation

  const OpenBracket: Byte := 0x5B
  const CloseBracket: Byte := 0x5D
  const Space: Byte := 0x20

  /** The line as it is written: `"[" + ts + "] " + line` when stamping,
      the line itself otherwise. `ts` is the rendering of the clock reading
      taken for this line. */
  function Format(line: Bytes, ts: Bytes, timestamp: bool): (r: Bytes)
    ensures !timestamp ==> r == line
    ensures timestamp ==> |r| == |ts| + 3 + |line| && r[0] == OpenBracket
    ensures timestamp ==> r[1..|ts| + 1] == ts && r[|ts| + 1..|ts| + 3] == [CloseBracket, Space]
    ensures IsSuffix(line, r)
  {
    if timestamp then [OpenBracket] + ts + [CloseBracket, Space] + line else line
  }

  /** Where the input ends: the index of the first empty read (`readline`
      returned `''`), or the number of reads when none is empty. */
  function EndOfInput(input: seq<Bytes>): (k: nat)
    ensures k <= |input|
    ensures forall j :: 0 <= j < k ==> input[j] != []
    ensures k < |input| ==> input[k] == []
  {
    if |input| == 0 || input[0] == [] then 0 else 1 + EndOfInput(input[1..])
  }

  /** Everything written for `lines`, in input order. */
  function Written(lines: seq<Bytes>, stamps: seq<Bytes>, timestamp: bool): Bytes
    requires |lines| <= |stamps|
  {
    if |lines| == 0 then []
    else Written(lines[..|lines| - 1], stamps, timestamp)
         + Format(lines[|lines| - 1], stamps[|lines| - 1], timestamp)
  }

  /** The lines joined end to end. */
  function Concat(lines: seq<Bytes>): Bytes {
    if |lines| == 0 then [] else Concat(lines[..|lines| - 1]) + lines[|lines| - 1]
  }

  /** Without timestamps the log holds the input bytes exactly. */
  lemma {:induction false} WrittenPlain(lines: seq<Bytes>, stamps: seq<Bytes>)
    requires |lines| <= |stamps|
    ensures Written(lines, stamps, false) == Concat(lines)
    decreases |lines|
  {
    if |lines| > 0 {
      WrittenPlain(lines[..|lines| - 1], stamps);
    }
  }

  /** What the first `k` reads wrote, counted by index rather than by
      slicing, which is how the loop walks the input. */
  function WrittenUpTo(input: seq<Bytes>, stamps: seq<Bytes>, timestamp: bool, k: nat): Bytes
    requires k <= |input| <= |stamps|
  {
    if k == 0 then [] else WrittenUpTo(input, stamps, timestamp, k - 1) + Format(input[k - 1], stamps[k - 1], timestamp)
  }

  /** Counting by index and slicing agree. */
  lemma {:induction false} WrittenUpToIsWritten(input: seq<Bytes>, stamps: seq<Bytes>, timestamp: bool, k: nat)
    requires k <= |input| <= |stamps|
    ensures WrittenUpTo(input, stamps, timestamp, k) == Written(input[..k], stamps, timestamp)
  {
    if k > 0 {
      WrittenUpToIsWritten(input, stamps, timestamp, k - 1);
      assert input[..k][..k - 1] == input[..k - 1];
    }
  }

  /** Writing more lines only extends what was written. */
  lemma {:induction false} WrittenGrows(input: seq<Bytes>, stamps: seq<Bytes>, timestamp: bool, i: nat, j: nat)
    requires i <= j <= |input| <= |stamps|
    ensures WrittenUpTo(input, stamps, timestamp, i) <= WrittenUpTo(input, stamps, timestamp, j)
    decreases j - i
  {
    if i < j {
      WrittenGrows(input, stamps, timestamp, i, j - 1);
    }
  }

  /** The lines the loop consumes: every read before the end of input. */
  function Received(input: seq<Bytes>): seq<Bytes> {
    input[..EndOfInput(input)]
  }

  /** Close, rotate and reopen: the chain shifts up one slot, the oldest
      generation is lost, and slot 0 holds a fresh empty active file. */
  function Rollover(fs: Disk, names: seq<Path>): (r: Disk)
    requires |names| >= 1
    ensures names[0] in r
    ensures Distinct(names) ==> r[names[0]] == []
    ensures forall p :: p !in names ==> Slot(r, p) == Slot(fs, p)
    ensures Distinct(names) ==> Slots(r, names) == [Some([])] + Slots(fs, names)[..|names| - 1]
    ensures Distinct(names) ==>
              Retained(Slots(fs, names))
              == Contents(Slot(fs, names[|names| - 1])) + Retained(Slots(r, names))
  {
    RolloverShifts(fs, names);
    OpenAppend(RotateLogs(fs, names), names[0])
  }

  lemma RolloverShifts(fs: Disk, names: seq<Path>)
    requires |names| >= 1
    ensures var r := OpenAppend(RotateLogs(fs, names), names[0]);
            Distinct(names) ==>
              && Slots(r, names) == [Some([])] + Slots(fs, names)[..|names| - 1]
              && Retained(Slots(fs, names))
                 == Contents(Slot(fs, names[|names| - 1])) + Retained(Slots(r, names))
  {
    if Distinct(names) {
      var rotated := RotateLogs(fs, names);
      assert Slots(rotated, names)[1..] == Slots(fs, names)[..|names| - 1];
      assert names[0] !in rotated by {
        assert Slots(rotated, names)[0] == None;
      }
      ReopenedSlots(rotated, names);
      RotateDropsOldest(fs, names);
      OpenKeepsRetained(rotated, names);
    }
  }

  /** Reopening a vacated active file puts an empty file in slot 0 and
      leaves the other slots as they were. */
  lemma ReopenedSlots(fs: Disk, names: seq<Path>)
    requires |names| >= 1
    requires Distinct(names)
    requires names[0] !in fs
    ensures Slots(OpenAppend(fs, names[0]), names) == [Some([])] + Slots(fs, names)[1..]
  {
    var r := OpenAppend(fs, names[0]);
    forall i | 1 <= i < |names|
      ensures Slots(r, names)[i] == Slots(fs, names)[i]
    {
      assert names[0] != names[i];
    }
  }

  /** Startup: rotate once if a previous run left the active file over the
      limit, then open it for append (creating it when absent). An active
      file within the limit is kept; an oversize one moves to slot 1. */
  function Startup(fs: Disk, names: seq<Path>, maxSize: int): (r: Disk)
    requires |names| >= 1
    ensures names[0] in r
    ensures Distinct(names) && maxSize >= 0 ==> |r[names[0]]| <= maxSize
    ensures forall p :: p !in names ==> Slot(r, p) == Slot(fs, p)
    ensures Distinct(names) ==> IsSuffix(Retained(Slots(r, names)), Retained(Slots(fs, names)))
    ensures !IsMaxSize(fs, names[0], maxSize) ==> r == fs[names[0] := Contents(Slot(fs, names[0]))]
    ensures Distinct(names) && IsMaxSize(fs, names[0], maxSize) ==>
              Slots(r, names) == [Some([])] + Slots(fs, names)[..|names| - 1]
  {
    if IsMaxSize(fs, names[0], maxSize) then Rollover(fs, names)
    else
      OpenKeepsRetained(fs, names);
      OpenAppend(fs, names[0])
  }

  /** One turn of the loop for a received (already formatted) line: append
      it to the active file; if the file is now over the limit, close it,
      rotate and reopen a fresh active file. The active file may exceed the
      limit by this one line only between the write and the check. */
  function CaptureLine(disk: Disk, names: seq<Path>, maxSize: int, line: Bytes): (r: Disk)
    requires |names| >= 1
    ensures names[0] in r
    ensures Distinct(names) && maxSize >= 0 ==> |r[names[0]]| <= maxSize
    ensures forall p :: p !in names ==> Slot(r, p) == Slot(disk, p)
    ensures Distinct(names) ==>
              IsSuffix(Retained(Slots(r, names)), Retained(Slots(disk, names)) + line)
    ensures |Contents(Slot(disk, names[0]))| + |line| <= maxSize ==>
              r == disk[names[0] := Contents(Slot(disk, names[0])) + line]
    ensures Distinct(names) && IsMaxSize(Append(disk, names[0], line), names[0], maxSize) ==>
              Slots(r, names) == [Some([])] + Slots(Append(disk, names[0], line), names)[..|names| - 1]
  {
    var written := Append(disk, names[0], line);
    assert Distinct(names) ==>
             Retained(Slots(written, names)) == Retained(Slots(disk, names)) + line by {
      if Distinct(names) {
        AppendExtendsRetained(disk, names, line);
      }
    }
    if IsMaxSize(written, names[0], maxSize) then Rollover(written, names) else written
  }

  /** The disk after the loop has captured the first `i` reads, one
      `CaptureLine` per read in input order, starting from the freshly
      opened `disk0`. */
  function RunFrom(disk0: Disk, names: seq<Path>, maxSize: int, timestamp: bool,
                   input: seq<Bytes>, stamps: seq<Bytes>, i: nat): Disk
    requires |names| >= 1
    requires i <= |input| <= |stamps|
  {
    if i == 0 then disk0
    else CaptureLine(RunFrom(disk0, names, maxSize, timestamp, input, stamps, i - 1), names, maxSize,
                     Format(input[i - 1], stamps[i - 1], timestamp))
  }

  /** Runs the capture loop over the reads `input`, the `i`-th stamped with
      `stamps[i]` when `timestamp` is set, starting from disk `fs` with the
      rotation chain `names`. Returns the disk when the input ends, and
      (as a ghost) how many rotations the run made.

      The active file exists at the end; over a chain of distinct names and
      a non-negative limit it is no larger than `maxSize`. The retained log
      (oldest generation first) is a tail of what was there before followed
      by every line written, in input order. A run without rotations has
      simply appended the lines to the active file, and that is the case
      whenever all of them fit. After `rotations` rotations, slots
      `1..rotations` each hold more than the limit and every older
      generation has moved up by `rotations` slots (`Generations`).
      Nothing outside the chain is touched. Exactly: the result is `Startup`
      followed by one `CaptureLine` per received read (`RunFrom`). */
  method LogStdin(fs: Disk, names: seq<Path>, maxSize: int, timestamp: bool,
                  input: seq<Bytes>, stamps: seq<Bytes>) returns (r: Disk, ghost rotations: nat)
    requires |names| >= 1
    requires |stamps| == |input|
    ensures names[0] in r
    ensures Distinct(names) && maxSize >= 0 ==> |r[names[0]]| <= maxSize
    ensures forall p :: p !in names ==> Slot(r, p) == Slot(fs, p)
    ensures Distinct(names) ==>
              IsSuffix(Retained(Slots(r, names)),
                       Retained(Slots(fs, names)) + Written(Received(input), stamps, timestamp))
    ensures |Contents(Slot(fs, names[0]))| + |Written(Received(input), stamps, timestamp)| <= maxSize ==>
              r == fs[names[0] := Contents(Slot(fs, names[0])) + Written(Received(input), stamps, timestamp)]
    ensures Distinct(names) && |names| >= 2 && maxSize >= 0
            && |Contents(Slot(fs, names[0]))| + |Written(Received(input), stamps, timestamp)| > maxSize ==>
              |Contents(Slot(r, names[1]))| > maxSize
    ensures rotations == 0 ==>
              r == fs[names[0] := Contents(Slot(fs, names[0])) + Written(Received(input), stamps, timestamp)]
    ensures rotations <= |Received(input)| + 1
    ensures Distinct(names) ==> Generations(fs, names, maxSize, r, rotations)
    ensures r == RunFrom(Startup(fs, names, maxSize), names, maxSize, timestamp, input, stamps, EndOfInput(input))
  {
    ghost var total := Written(Received(input), stamps, timestamp);
    var disk := Startup(fs, names, maxSize);
    StartupProgress(fs, names, maxSize);
    r, rotations := CaptureLoop(fs, names, maxSize, timestamp, input, stamps, disk,
                                if IsMaxSize(fs, names[0], maxSize) then 1 else 0);
    // End of input: the handle is closed; every write already reached the disk.
    ProgressAtEnd(fs, names, maxSize, r, total, rotations);
  }

  /** The `while True` loop proper, from the freshly opened active file
      `disk0` until the input ends; `fs` is the disk before startup and
      `k0` counts the rotations startup made. */
  method CaptureLoop(ghost fs: Disk, names: seq<Path>, maxSize: int, timestamp: bool,
                     input: seq<Bytes>, stamps: seq<Bytes>, disk0: Disk, ghost k0: nat)
    returns (r: Disk, ghost k: nat)
    requires |names| >= 1
    requires |stamps| == |input|
    requires k0 <= 1
    requires Progress(fs, names, maxSize, disk0, [], k0)
    requires |Contents(Slot(fs, names[0]))| + |Written(Received(input), stamps, timestamp)| <= maxSize ==> k0 == 0
    ensures Progress(fs, names, maxSize, r, Written(Received(input), stamps, timestamp), k)
    ensures |Contents(Slot(fs, names[0]))| + |Written(Received(input), stamps, timestamp)| <= maxSize ==> k == 0
    ensures k <= |Received(input)| + 1
    ensures r == RunFrom(disk0, names, maxSize, timestamp, input, stamps, EndOfInput(input))
  {
    CapturedAtStart(fs, names, maxSize, timestamp, input, stamps, disk0, k0);
    r := disk0;
    k := k0;
    var i := 0;
    while i < |input| && input[i] != []
      invariant Captured(fs, disk0, names, maxSize, timestamp, input, stamps, i, r, k)
    {
      r, k := CaptureStep(fs, disk0, names, maxSize, timestamp, input, stamps, i, r, k);
      i := i + 1;
    }
    CapturedAtEnd(fs, disk0, names, maxSize, timestamp, input, stamps, i, r, k);
  }

  /** The loop's invariant holds before the first read. */
  lemma CapturedAtStart(fs: Disk, names: seq<Path>, maxSize: int, timestamp: bool,
                        input: seq<Bytes>, stamps: seq<Bytes>, disk: Disk, k: nat)
    requires |names| >= 1
    requires |stamps| == |input|
    requires k <= 1
    requires Progress(fs, names, maxSize, disk, [], k)
    requires |Contents(Slot(fs, names[0]))| + |Written(Received(input), stamps, timestamp)| <= maxSize ==> k == 0
    ensures Captured(fs, disk, names, maxSize, timestamp, input, stamps, 0, disk, k)
  {
    WrittenUpToIsWritten(input, stamps, timestamp, EndOfInput(input));
  }

  /** Once the loop stops at the end of input, it has written every
      received line. */
  lemma CapturedAtEnd(fs: Disk, disk0: Disk, names: seq<Path>, maxSize: int, timestamp: bool,
                      input: seq<Bytes>, stamps: seq<Bytes>, i: nat, disk: Disk, k: nat)
    requires |names| >= 1
    requires |stamps| == |input|
    requires Captured(fs, disk0, names, maxSize, timestamp, input, stamps, i, disk, k)
    requires !(i < |input| && input[i] != [])
    ensures Progress(fs, names, maxSize, disk, Written(Received(input), stamps, timestamp), k)
    ensures |Contents(Slot(fs, names[0]))| + |Written(Received(input), stamps, timestamp)| <= maxSize ==> k == 0
    ensures k <= |Received(input)| + 1
    ensures disk == RunFrom(disk0, names, maxSize, timestamp, input, stamps, EndOfInput(input))
  {
    assert i == EndOfInput(input);
    WrittenUpToIsWritten(input, stamps, timestamp, i);
  }

  /** The loop's invariant once the first `i` reads are consumed: none of
      them was the end of input, the disk has made `Progress` with what they
      wrote after `k` rotations, at most one per read plus one at startup,
      and a run that fits in the active file has not rotated. */
  ghost predicate Captured(fs: Disk, disk0: Disk, names: seq<Path>, maxSize: int, timestamp: bool,
                           input: seq<Bytes>, stamps: seq<Bytes>, i: nat, disk: Disk, k: nat)
    requires |names| >= 1
    requires |stamps| == |input|
  {
    && i <= EndOfInput(input)
    && disk == RunFrom(disk0, names, maxSize, timestamp, input, stamps, i)
    && k <= i + 1
    && Progress(fs, names, maxSize, disk, WrittenUpTo(input, stamps, timestamp, i), k)
    && (|Contents(Slot(fs, names[0]))| + |WrittenUpTo(input, stamps, timestamp, EndOfInput(input))| <= maxSize
        ==> k == 0)
  }

  /** One turn of the loop: format the `i`-th read and capture it. */
  method CaptureStep(ghost fs: Disk, ghost disk0: Disk, names: seq<Path>, maxSize: int, timestamp: bool,
                     input: seq<Bytes>, stamps: seq<Bytes>, i: nat, disk: Disk, ghost k: nat)
    returns (next: Disk, ghost k': nat)
    requires |names| >= 1
    requires |stamps| == |input|
    requires i < |input| && input[i] != []
    requires Captured(fs, disk0, names, maxSize, timestamp, input, stamps, i, disk, k)
    ensures Captured(fs, disk0, names, maxSize, timestamp, input, stamps, i + 1, next, k')
    ensures next == CaptureLine(disk, names, maxSize, Format(input[i], stamps[i], timestamp))
  {
    ghost var total := WrittenUpTo(input, stamps, timestamp, EndOfInput(input));
    if |Contents(Slot(fs, names[0]))| + |total| <= maxSize {
      WrittenGrows(input, stamps, timestamp, i + 1, EndOfInput(input));
      NoOverflowWhileFitting(fs, names, maxSize, disk, WrittenUpTo(input, stamps, timestamp, i),
                             Format(input[i], stamps[i], timestamp), total);
    }
    next, k' := Advance(fs, disk0, names, maxSize, timestamp, input, stamps, i, disk, k);
  }

  /** Writes the `i`-th read, formatted, with `CaptureLine`; `k'` counts
      the rotation this may cause. */
  method Advance(ghost fs: Disk, ghost disk0: Disk, names: seq<Path>, maxSize: int, timestamp: bool,
                 input: seq<Bytes>, stamps: seq<Bytes>, i: nat, disk: Disk, ghost k: nat)
    returns (next: Disk, ghost k': nat)
    requires |names| >= 1
    requires i < |input| <= |stamps|
    requires Progress(fs, names, maxSize, disk, WrittenUpTo(input, stamps, timestamp, i), k)
    requires disk == RunFrom(disk0, names, maxSize, timestamp, input, stamps, i)
    ensures Progress(fs, names, maxSize, next, WrittenUpTo(input, stamps, timestamp, i + 1), k')
    ensures k' == if IsMaxSize(Append(disk, names[0], Format(input[i], stamps[i], timestamp)), names[0], maxSize)
                  then k + 1 else k
    ensures next == CaptureLine(disk, names, maxSize, Format(input[i], stamps[i], timestamp))
    ensures next == RunFrom(disk0, names, maxSize, timestamp, input, stamps, i + 1)
  {
    var line := Format(input[i], stamps[i], timestamp);
    CaptureLineProgress(fs, names, maxSize, disk, WrittenUpTo(input, stamps, timestamp, i), k, line);
    next := CaptureLine(disk, names, maxSize, line);
    k' := if IsMaxSize(Append(disk, names[0], line), names[0], maxSize) then k + 1 else k;
  }

  /** Before any rotation, a line that still fits within the whole run's
      output does not push the active file over the limit. */
  lemma NoOverflowWhileFitting(fs: Disk, names: seq<Path>, maxSize: int, disk: Disk, log: Bytes,
                               line: Bytes, total: Bytes)
    requires |names| >= 1
    requires Progress(fs, names, maxSize, disk, log, 0)
    requires log + line <= total
    requires |Contents(Slot(fs, names[0]))| + |total| <= maxSize
    ensures !IsMaxSize(Append(disk, names[0], line), names[0], maxSize)
  {
    assert |log + line| <= |total|;
  }

  /** At the end of the input: a run that never rotated has only appended,
      and one that went past the limit somewhere has rotated, so slot 1
      holds a file over the limit. */
  lemma ProgressAtEnd(fs: Disk, names: seq<Path>, maxSize: int, disk: Disk, total: Bytes, k: nat)
    requires |names| >= 1
    requires Progress(fs, names, maxSize, disk, total, k)
    ensures k == 0 ==> disk == fs[names[0] := Contents(Slot(fs, names[0])) + total]
    ensures Distinct(names) && |names| >= 2 && maxSize >= 0
            && |Contents(Slot(fs, names[0]))| + |total| > maxSize ==>
              |Contents(Slot(disk, names[1]))| > maxSize
  {
    if k == 0 && Distinct(names) && maxSize >= 0 {
      assert |disk[names[0]]| == |Contents(Slot(fs, names[0]))| + |total|;
    }
  }

  /** The rotation chain `k` rotations after `fs`: each slot `1..k` holds
      more than `maxSize` bytes, and each higher slot holds the generation that was `k` slots lower in
      `fs`. The generations pushed past the end of the chain are lost. */
  ghost predicate Generations(fs: Disk, names: seq<Path>, maxSize: int, disk: Disk, k: nat) {
    && (forall j {:trigger Slot(disk, names[j])} :: 1 <= j < |names| && j <= k ==>
          names[j] in disk && |disk[names[j]]| > maxSize)
    && (forall j {:trigger Slot(disk, names[j])} :: k < j < |names| ==>
          Slot(disk, names[j]) == Slot(fs, names[j - k]))
  }

  /** A disk that agrees with `disk` on slots `1..` keeps its generations. */
  lemma GenerationsKeep(fs: Disk, names: seq<Path>, maxSize: int, disk: Disk, other: Disk, k: nat)
    requires Generations(fs, names, maxSize, disk, k)
    requires forall j :: 1 <= j < |names| ==> Slot(other, names[j]) == Slot(disk, names[j])
    ensures Generations(fs, names, maxSize, other, k)
  {
    forall j | 1 <= j < |names| && j <= k
      ensures names[j] in other && |other[names[j]]| > maxSize
    {
      assert Slot(other, names[j]) == Slot(disk, names[j]);
    }
  }

  /** Rotating an active file that is over the limit adds one generation. */
  lemma GenerationsShift(fs: Disk, names: seq<Path>, maxSize: int, before: Disk, after: Disk, k: nat)
    requires |names| >= 1
    requires Generations(fs, names, maxSize, before, k)
    requires names[0] in before && |before[names[0]]| > maxSize
    requires Slots(after, names) == [Some([])] + Slots(before, names)[..|names| - 1]
    ensures Generations(fs, names, maxSize, after, k + 1)
  {
    forall j | 1 <= j < |names| && j <= k + 1
      ensures names[j] in after && |after[names[j]]| > maxSize
    {
      assert Slots(after, names)[j] == Slots(before, names)[j - 1];
      assert Slot(after, names[j]) == Slot(before, names[j - 1]);
    }
    forall j | k + 1 < j < |names|
      ensures Slot(after, names[j]) == Slot(fs, names[j - (k + 1)])
    {
      assert Slots(after, names)[j] == Slots(before, names)[j - 1];
      assert Slot(after, names[j]) == Slot(before, names[j - 1]);
      assert Slot(before, names[j - 1]) == Slot(fs, names[j - 1 - k]);
    }
  }

  /** What holds of the disk `disk` once the lines making up `log` have been
      captured, starting from `fs`, with `k` rotations so far. Before the
      first rotation the lines were simply appended; after `k` of them the
      chain holds `Generations`. */
  ghost predicate Progress(fs: Disk, names: seq<Path>, maxSize: int, disk: Disk, log: Bytes, k: nat)
    requires |names| >= 1
  {
    && names[0] in disk
    && (Distinct(names) && maxSize >= 0 ==> |disk[names[0]]| <= maxSize)
    && (forall p :: p !in names ==> Slot(disk, p) == Slot(fs, p))
    && (Distinct(names) ==> IsSuffix(Retained(Slots(disk, names)), Retained(Slots(fs, names)) + log))
    && (k == 0 ==> disk == fs[names[0] := Contents(Slot(fs, names[0])) + log])
    && (Distinct(names) ==> Generations(fs, names, maxSize, disk, k))
  }

  lemma StartupProgress(fs: Disk, names: seq<Path>, maxSize: int)
    requires |names| >= 1
    ensures Progress(fs, names, maxSize, Startup(fs, names, maxSize), [],
                     if IsMaxSize(fs, names[0], maxSize) then 1 else 0)
  {
    var before := Retained(Slots(fs, names));
    var r := Startup(fs, names, maxSize);
    assert before + [] == before;
    assert Contents(Slot(fs, names[0])) + [] == Contents(Slot(fs, names[0]));
    if Distinct(names) {
      StartupGenerations(fs, names, maxSize, r);
    }
  }

  /** Startup rotates at most once, and only an active file over the
      limit: any disk `r` that meets `Startup`'s description of the two
      cases holds generations after that many rotations. */
  lemma StartupGenerations(fs: Disk, names: seq<Path>, maxSize: int, r: Disk)
    requires |names| >= 1
    requires Distinct(names)
    requires !IsMaxSize(fs, names[0], maxSize) ==> r == fs[names[0] := Contents(Slot(fs, names[0]))]
    requires IsMaxSize(fs, names[0], maxSize) ==> Slots(r, names) == [Some([])] + Slots(fs, names)[..|names| - 1]
    ensures Generations(fs, names, maxSize, r, if IsMaxSize(fs, names[0], maxSize) then 1 else 0)
  {
    GenerationsNone(fs, names, maxSize);
    if IsMaxSize(fs, names[0], maxSize) {
      GenerationsShift(fs, names, maxSize, fs, r, 0);
    } else {
      forall j | 1 <= j < |names|
        ensures Slot(r, names[j]) == Slot(fs, names[j])
      {
        assert names[0] != names[j];
      }
      GenerationsKeep(fs, names, maxSize, fs, r, 0);
    }
  }

  /** Before any rotation, every slot holds its own generation. */
  lemma GenerationsNone(fs: Disk, names: seq<Path>, maxSize: int)
    ensures Generations(fs, names, maxSize, fs, 0)
  {
    forall j | 0 < j < |names|
      ensures Slot(fs, names[j]) == Slot(fs, names[j - 0])
    {
    }
  }

  lemma CaptureLineProgress(fs: Disk, names: seq<Path>, maxSize: int, disk: Disk, log: Bytes, k: nat, line: Bytes)
    requires |names| >= 1
    requires Progress(fs, names, maxSize, disk, log, k)
    ensures Progress(fs, names, maxSize, CaptureLine(disk, names, maxSize, line), log + line,
                     if IsMaxSize(Append(disk, names[0], line), names[0], maxSize) then k + 1 else k)
  {
    var next := CaptureLine(disk, names, maxSize, line);
    var written := Append(disk, names[0], line);
    var before := Retained(Slots(fs, names));
    var initial := Contents(Slot(fs, names[0]));
    if Distinct(names) {
      SuffixStep(Retained(Slots(disk, names)), before + log, Retained(Slots(next, names)), line);
      ConcatAssoc(before, log, line);
      assert Generations(fs, names, maxSize, written, k) by {
        GenerationsKeep(fs, names, maxSize, disk, written, k);
      }
      if IsMaxSize(written, names[0], maxSize) {
        GenerationsShift(fs, names, maxSize, written, next, k);
      }
    }
    if k == 0 && !IsMaxSize(written, names[0], maxSize) {
      assert Contents(Slot(disk, names[0])) == initial + log;
      assert next == fs[names[0] := initial + log][names[0] := initial + log + line];
      ConcatAssoc(initial, log, line);
    }
  }

  /** Regrouping a concatenation. */
  lemma ConcatAssoc(a: Bytes, b: Bytes, c: Bytes)
    ensures (a + b) + c == a + (b + c)
  {
  }

  /** A tail of `b`, extended by `line`, and then cut down to a tail again,
      is still a tail of `b + line`. */
  lemma SuffixStep(a: Bytes, b: Bytes, c: Bytes, line: Bytes)
    requires IsSuffix(a, b)
    requires IsSuffix(c, a + line)
    ensures IsSuffix(c, b + line)
  {
  }
}
