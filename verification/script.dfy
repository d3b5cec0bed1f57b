/** The script's main flow: resolve the configuration, build the chain of
    log file names once, and run the capture loop over it. */
module Script {
  import opened Wrappers
  import opened Paths
  import opened FileSystem
  import opened Rotation
  import opened Config
  import opened Capture

  /** Runs the script on the parsed options `args`, the outcome `load` of
      loading the config file, the disk `fs` and the reads `input` (stamped
      with `stamps`). Fails exactly when the merged configuration lacks a
      key. Otherwise the returned disk has the active file of the chain
      built from the configuration, within the size limit when that limit
      is not negative, and its retained log is a tail of the old one
      followed by every captured line. If everything fits in the active
      file, the lines are simply appended to it; otherwise slot 1 holds more
      than the limit. The ghost `rotations` counts the rotations of the
      run: slots `1..rotations` each hold more than the limit and every
      older generation has moved up by `rotations` slots. Exactly, the disk
      is the one `LogStdin` gives on that chain. */
  method RunScript(args: CliArgs, load: LoadResult, fs: Disk, input: seq<Bytes>, stamps: seq<Bytes>)
    returns (r: Result<Disk, ConfigError>, ghost rotations: nat)
    requires |stamps| == |input|
    ensures r.Failure? <==> Effective(Resolve(args, load)).Failure?
    ensures r.Failure? ==> r.error == Effective(Resolve(args, load)).error
    ensures r.Success? ==>
              var config := Effective(Resolve(args, load)).value;
              var names := BuildLogFilenames(config.logfileName, config.path, config.maxNumberLogfiles);
              && names[0] in r.value
              && (config.maxLogfileSize >= 0 ==> |r.value[names[0]]| <= config.maxLogfileSize)
              && (forall p :: p !in names ==> Slot(r.value, p) == Slot(fs, p))
              && IsSuffix(Retained(Slots(r.value, names)),
                          Retained(Slots(fs, names)) + Written(Received(input), stamps, config.timestamp))
    ensures r.Success? ==>
              var config := Effective(Resolve(args, load)).value;
              var names := BuildLogFilenames(config.logfileName, config.path, config.maxNumberLogfiles);
              var captured := Written(Received(input), stamps, config.timestamp);
              && (|Contents(Slot(fs, names[0]))| + |captured| <= config.maxLogfileSize ==>
                    r.value == fs[names[0] := Contents(Slot(fs, names[0])) + captured])
              && (|names| >= 2 && config.maxLogfileSize >= 0
                  && |Contents(Slot(fs, names[0]))| + |captured| > config.maxLogfileSize ==>
                    |Contents(Slot(r.value, names[1]))| > config.maxLogfileSize)
    ensures r.Success? ==>
              var config := Effective(Resolve(args, load)).value;
              var names := BuildLogFilenames(config.logfileName, config.path, config.maxNumberLogfiles);
              && (rotations == 0 ==>
                    r.value == fs[names[0] := Contents(Slot(fs, names[0]))
                                              + Written(Received(input), stamps, config.timestamp)])
              && rotations <= |Received(input)| + 1
              && Generations(fs, names, config.maxLogfileSize, r.value, rotations)
    ensures r.Success? ==>
              var config := Effective(Resolve(args, load)).value;
              var names := BuildLogFilenames(config.logfileName, config.path, config.maxNumberLogfiles);
              r.value == RunFrom(Startup(fs, names, config.maxLogfileSize), names, config.maxLogfileSize,
                                 config.timestamp, input, stamps, EndOfInput(input))
  {
    var resolved := Effective(Resolve(args, load));
    if resolved.Failure? {
      return Failure(resolved.error), 0;
    }
    var config := resolved.value;
    var names := BuildLogFilenames(config.logfileName, config.path, config.maxNumberLogfiles);
    BuildLogFilenamesDistinct(config.logfileName, config.path, config.maxNumberLogfiles);
    var disk;
    disk, rotations := LogStdin(fs, names, config.maxLogfileSize, config.timestamp, input, stamps);
    r := Success(disk);
  }
}
