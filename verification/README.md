# log_stdin, modelled in Dafny

`log_stdin.py` captures lines piped into it and stores them in a bounded
chain of rotating log files. The files are `name`, `name.1`, …,
`name.(n-1)`, all in one directory. Slot 0 is the active file. Higher
slots hold older generations.

The model covers four parts of the script:

- building the chain of names (`Paths`);
- the size check and the evict-then-shift rotation (`Rotation`);
- the capture loop: read, optionally stamp, append, check, rotate (`Capture`);
- the configuration precedence and the main flow (`Config`, `Script`).

The disk is a finite map from a path to the bytes of the regular file
there (`FileSystem.Disk`). An absent path is "not a file". The size of a
file is the length of its contents. Python 2 strings are byte strings, so
lines and file contents are sequences of `Byte`.

Each rendering of `datetime.datetime.now()` is passed in as an opaque byte
string, one per read (`stamps`). The input is the finite sequence of
values `sys.stdin.readline()` returned (`input`). The loop stops at the
first empty read, or at the end of the sequence.

Rotation is a pure function. Its recursive helper `ShiftDown` performs the
renames in the source's order: highest index first. Over distinct names,
rotation shifts the chain's slots right by one, leaves slot 0 empty and
drops the oldest slot. `BuildLogFilenamesDistinct` proves that the chain
the script builds always has distinct names. It relies on the decimal
round trip `int(str(i)) == i`.

The capture loop is a method. Its loop invariant `Capture.Captured` wraps
`Capture.Progress`, which says:

- the active file exists;
- its size is at most the limit;
- paths outside the chain are untouched;
- the retained log, read oldest generation first, is a tail of the old
  retained log followed by every line written so far, in input order;
- before any rotation, the disk is the old disk with the lines appended to
  the active file;
- after `k` rotations the chain holds `Capture.Generations`: slots `1..k`
  each hold more than the limit, each slot above `k` holds the
  generation that was `k` slots lower at the start, and only the
  generations pushed past the end of the chain are lost.

`Captured` also records that the run has made at most one rotation per
read plus one at startup, and that a run which fits in the active file
never rotates. Each turn of the loop (`CaptureStep`) formats one read and
hands it to `CaptureLine`. `LogStdin` and `RunScript` return the number
of rotations as a ghost result, so their contracts can state the
generations. Both also pin the whole disk: it is `Capture.RunFrom`, the
result of `Startup` followed by one `CaptureLine` per received read, and
those two have exact contracts. So which slot holds which bytes (the
lines after the last rotation in the active file, each overflowing file
in the slot it was rotated into) is fixed.

The size bound is stated for limits `>= 0`. With a negative limit the
freshly reopened empty file is already over the limit, and the source
does not check again until the next write.

Two behaviours of the code are easy to miss, and the model keeps both:

- A chain length below 1 is not rejected. `build_log_filenames` then
  returns just the bare name.
- A non-empty config file replaces the defaults as a whole. The defaults
  are not merged into it key by key. A key the file lacks, and the command
  line does not supply, makes the lookups at `log_stdin.py:202-207` raise
  `KeyError`. This is modelled as `Failure(MissingKey(..))`.

## Model

| member | source | states |
|---|---|---|
| Paths.Join | log_stdin.py:46 | `os.path.join(path, basename)` under the POSIX rule: an absolute `basename` is returned as it is; a `path` that is empty or ends in `/` is followed directly by `basename`; any other `path` gets one `/` before it; the result always ends with `basename` |
| Paths.BuildLogFilenames | log_stdin.py:43-50 | the chain has `max(1, max_number)` names; name 0 is `join(path, basename)` and name `i >= 1` is name 0 + "." + `str(i)` |
| Paths.NumberedNames | log_stdin.py:48-49 | the loop over `range(lo, hi)` yields `hi - lo` names (none when `hi <= lo`), the k-th suffixed with `str(lo + k)` |
| Paths.DecimalRoundTrip | log_stdin.py:49 | the suffix `str(i)` reads back as `i` |
| Paths.NatToStringInjective | log_stdin.py:49 | different generation numbers give different suffixes |
| Paths.BuildLogFilenamesDistinct | log_stdin.py:43-50 | no path occurs twice in the chain, for every base name, directory and count |
| FileSystem.Remove | log_stdin.py:58 | `os.remove` deletes exactly the given path and leaves every other path as it was |
| FileSystem.Move | log_stdin.py:62 | `shutil.move` of an existing file puts its contents at the destination (replacing what was there) and removes the source; every other path is unchanged |
| FileSystem.OpenAppend | log_stdin.py:92 | opening in append mode creates an empty file when none exists, never changes an existing file's contents and touches no other path |
| FileSystem.Append | log_stdin.py:103 | a write through the append handle leaves the old contents followed by the data, and touches no other path |
| Rotation.EvictOldest | log_stdin.py:56-58 | afterwards the oldest name of the chain is not a file, whether or not it was one before; every other path is unchanged |
| Rotation.IsMaxSize | log_stdin.py:65-74 | false for a missing file whatever the limit; otherwise true iff the size strictly exceeds the limit, so a file exactly at the limit does not trigger rotation |
| Rotation.ShiftDown | log_stdin.py:59-62 | with distinct names and slot `k` already vacated, renaming from the highest index down moves every file in slots `0..k-1` up one slot, leaves slot 0 empty and keeps the slots above `k`; paths outside the chain are untouched; with no files in slots `0..k-1` it changes nothing |
| Rotation.RotateLogs | log_stdin.py:53-62 | over distinct names, slot `i+1` afterwards holds exactly what slot `i` held, or is absent if that was absent; slot 0 is absent (for one name, the file is just deleted); paths outside the chain are unchanged; an all-absent chain is left unchanged |
| Rotation.RotateDropsOldest | log_stdin.py:56-62 | rotation loses exactly the oldest generation: the retained log before is the evicted file followed by the retained log after |
| Rotation.AppendExtendsRetained | log_stdin.py:103 | a write to the active file extends the retained log by exactly the written bytes |
| Rotation.OpenKeepsRetained | log_stdin.py:92 | opening the active file for append never changes the retained log |
| Capture.Format | log_stdin.py:98-101 | without timestamps the line is unchanged; with them it is `"[" + ts + "] "` followed by the unchanged line |
| Capture.EndOfInput | log_stdin.py:93-96 | the loop consumes the reads before the first empty read (or all of them), every one of them non-empty |
| Capture.WrittenPlain | log_stdin.py:98-103 | without timestamps the written bytes are the input lines joined, byte for byte |
| Capture.Rollover | log_stdin.py:105-107 | closing, rotating and reopening shifts every slot of a distinct chain up by one, puts a fresh empty file in slot 0, and loses exactly the oldest generation; paths outside the chain are unchanged |
| Capture.Startup | log_stdin.py:80-92 | after the startup check and open, the active file exists and (for a limit `>= 0` and distinct names) is within the limit; an active file that is not over the limit (including an absent one, whatever the limit) is only opened, which creates it if needed and changes nothing else; an oversize one moves to slot 1, the older files move up one slot each and slot 0 is a fresh empty file |
| Capture.GenerationsShift | log_stdin.py:104-107 | rotating an active file that is over the limit adds one generation: slot 1 now holds that file, and every older generation moves up one more slot |
| Capture.StartupGenerations | log_stdin.py:80-81 | startup makes one rotation exactly when the active file is over the limit, and none otherwise, and the chain holds the generations for that count |
| Capture.CaptureLine | log_stdin.py:103-107 | after one write-check-rotate step the active file exists and is within the limit; the retained log is a tail of the old one plus the line; if the line fits, it is simply appended; if the write takes the file over the limit, that file moves to slot 1, the older files move up one slot each and slot 0 is a fresh empty file |
| Capture.LogStdin | log_stdin.py:77-111 | at the end of the input the active file exists and is within the limit; the retained log is a tail of the old retained log followed by all lines written, in input order, none after the first empty read; when everything fits, no rotation happens and the lines are appended to the active file; when it does not and the chain has two or more names, slot 1 ends up holding more than the limit; a run with no rotation has only appended; after its `rotations` rotations (at most one per read plus one at startup), slots `1..rotations` each hold more than the limit and every slot above holds the generation `rotations` slots lower before the run; nothing outside the chain changes; exactly, the disk is `Startup` followed by one `CaptureLine` per received read, in input order (`RunFrom`) |
| Config.Resolve | log_stdin.py:172-199 | each key comes from its command-line option if given, else from a non-empty loaded config file, else from the defaults `logfile.dat`, `.`, `5`, `1000000`, `False`; `--no-timestamp` wins over `-t` |
| Config.Effective | log_stdin.py:201-207 | the run starts iff all five keys are set, with exactly their values |
| Config.FalsyFileFallsBack | log_stdin.py:173-180 | a missing, unreadable or empty config file gives the same configuration as no file, and it is complete |
| Config.NoOptionsMeansDefaults | log_stdin.py:134-139 | with no file and no options the run uses the default values |
| Config.FileWithoutNameFails | log_stdin.py:172-204 | a non-empty config file without `logfile_name`, and no `-f`, stops the run with a missing-key error |
| Config.SetConfigDefault | log_stdin.py:129-140 | the defaults are `logfile_name` = `logfile.dat`, `path` = `.`, `max_number_logfiles` = 5, `max_logfile_size` = 1000000 and `timestamp` = False |
| Script.RunScript | log_stdin.py:172-207 | the run fails exactly when the merged configuration lacks a key; otherwise, on the chain built from it, the active file exists and is within the limit, and the retained log is a tail of the old one followed by every captured line; if everything fits, the lines are simply appended to the active file; otherwise, with two or more names, slot 1 holds more than the limit; after its `rotations` rotations, slots `1..rotations` each hold more than the limit and every slot above holds the generation `rotations` slots lower before the run; exactly, the disk is `Startup` followed by one `CaptureLine` per received read on that chain |

## Left out

- The Ctrl-C handler (`log_stdin.py:84-90`) is asynchronous interruption. An interrupt while the loop waits in `readline` (`log_stdin.py:94`) after N reads leaves the disk that `LogStdin` returns for the first N reads, because closing the handle changes nothing on the modelled disk. The other windows are not modelled:
  - after the write and before the size check (`log_stdin.py:103-104`): the run exits with the active file over the limit;
  - after the rotation and before the reopen (`log_stdin.py:106-107`): the run exits with no active file;
  - inside `rotate_logs` (`log_stdin.py:57-62`): the run exits with a half-shifted chain.
- The clock: `datetime.datetime.now()` and its rendering are the `stamps` parameter.
- Line buffering: every write is visible to the size check at once. In the source, a final line without a terminator stays in the buffer, so the size check at `log_stdin.py:104` does not see it. The close at `log_stdin.py:111` then flushes it, and the run can end with the active file over the limit. `Capture.LogStdin` and `Script.RunScript` state the bound at end of input for the unbuffered model, so they do not cover this case.
- Failures of `os.remove`, `shutil.move` and `open` (permissions, full disk) are not modelled. The model's file operations are total.
- The disk model has no directories. A directory at a log path is not covered: at `name.i` with `i >= 1`, `os.path.isfile` is false, so `rotate_logs` skips it (`log_stdin.py:57`, `61`) and `shutil.move` (`log_stdin.py:62`) moves the lower generation into that directory.
- `os.path.join` is modelled by its POSIX rule for two arguments; `posixpath` itself is not part of this model.
- Command-line parsing, `int()` on option strings, `load_config_file`'s JSON reading, `--create-config-file` (`log_stdin.py:143-150`, `169-170`) and all printed diagnostics are not modelled. The merge works on already-parsed values.
- A config file whose JSON is not an object, or whose values have unexpected types, is not modelled.
- `make_continuous_log_input.py` is a test data generator (print and sleep). It is not part of this model.
