/**
 * src/utils/crop_to_short.py: a command-line tool that crops one video to a
 * vertical short written next to it, under the same name with "_short"
 * inserted before the extension.
 */
module ShortCrop {
  import opened Paths

  const Suffix: string := "_short"

  /** The ffmpeg binary that the tool invokes. */
  const FfmpegExe: string := "C:\\Program Files\\ffmpeg-2025-03-13-git-958c46800e-full_build\\bin\\ffmpeg.exe"

  /** join(dirname(input), name + "_short" + ext) where (name, ext) = splitext(basename(input)). */
  function ShortOutputPath(input: string): string
  {
    var parts := SplitExt(Basename(input));
    Join(Dirname(input), parts.0 + Suffix + parts.1)
  }

  /** The basename of the output path. */
  function ShortName(input: string): (name: string)
    ensures Sep !in name
  {
    var parts := SplitExt(Basename(input));
    assert Basename(input) == parts.0 + parts.1;
    assert forall i :: 0 <= i < |parts.0| ==> parts.0[i] == Basename(input)[i];
    assert forall i :: 0 <= i < |parts.1| ==> parts.1[i] == Basename(input)[|parts.0| + i];
    parts.0 + Suffix + parts.1
  }

  /** The output's last component is the input's stem, "_short" and the input's extension. */
  lemma ShortOutputBasename(input: string)
    ensures Basename(ShortOutputPath(input)) == ShortName(input)
  {
    BasenameOfJoin(Dirname(input), ShortName(input));
  }

  /** The output is written in the directory of the input. */
  lemma ShortOutputStaysInDirectory(input: string)
    ensures Dirname(ShortOutputPath(input)) == Dirname(input)
  {
    var _ := ShortName(input);
    DirnameOfJoin(input, ShortName(input));
  }

  /**
   * The output keeps the input's extension: splitting the output's basename
   * gives the input's stem with "_short" appended, and the input's extension.
   */
  lemma ShortOutputKeepsExtension(input: string)
    ensures SplitExt(Basename(ShortOutputPath(input))) ==
            (SplitExt(Basename(input)).0 + Suffix, SplitExt(Basename(input)).1)
  {
    ShortOutputBasename(input);
    var b := Basename(input);
    StemSuffixKeepsExtension(b);
  }

  /** splitext(stem + "_short" + ext) == (stem + "_short", ext) for the parts of a separator-free name. */
  lemma StemSuffixKeepsExtension(b: string)
    requires Sep !in b
    ensures SplitExt(SplitExt(b).0 + Suffix + SplitExt(b).1) == (SplitExt(b).0 + Suffix, SplitExt(b).1)
  {
    var (stem, ext) := SplitExt(b);
    if ext == [] {
      assert stem + Suffix + ext == b + Suffix;
      NoExtensionStaysNone(b);
    } else {
      ExtensionMovesPastSuffix(stem, ext);
    }
  }

  lemma NoExtensionStaysNone(b: string)
    requires Sep !in b && SplitExt(b).1 == []
    ensures SplitExt(b + Suffix) == (b + Suffix, [])
  {
    var q := b + Suffix;
    assert Sep !in q;
    LastIndexUnique(b, Sep, -1);
    LastIndexUnique(q, Sep, -1);
    LastIndexAppendFree(b, Suffix, ExtSep);
    var d := LastIndex(b, ExtSep);
    if d > -1 {
      // only dots precede the last dot of b, and q agrees with b there
      assert !exists j :: 0 <= j < d && b[j] != ExtSep;
      assert forall j :: 0 <= j < d ==> q[j] == b[j];
      assert !exists j :: 0 <= j < d && q[j] != ExtSep;
    }
  }

  lemma ExtensionMovesPastSuffix(stem: string, ext: string)
    requires Sep !in stem + ext && ext != [] && SplitExt(stem + ext) == (stem, ext)
    ensures SplitExt(stem + Suffix + ext) == (stem + Suffix, ext)
  {
    var b := stem + ext;
    assert ext[0] == ExtSep && ExtSep !in ext[1..] && Sep !in ext;
    var q := (stem + Suffix) + ext;
    assert Sep !in stem by { assert forall i :: 0 <= i < |stem| ==> stem[i] == b[i]; }
    assert Sep !in q;
    LastIndexUnique(q, Sep, -1);
    var e := |stem| + |Suffix|;
    assert q[e] == ExtSep;
    forall j | e < j < |q| ensures q[j] != ExtSep {
      assert q[j] == ext[1..][j - e - 1];
    }
    LastIndexUnique(q, ExtSep, e);
    assert q[|stem|] == '_';
    assert q[..e] == stem + Suffix;
    assert q[e..] == ext;
  }

  /** The extension starts at the last dot; dots that only lead the name start none. */
  lemma SplitExtLeadingDots()
    ensures SplitExt(".mp4") == (".mp4", "")
    ensures SplitExt("..mp4") == ("..mp4", "")
  {
  }

  /** Only the last dot starts the extension. */
  lemma SplitExtLastDot()
    ensures SplitExt("a..mp4") == ("a.", ".mp4")
  {
    var p := "a..mp4";
    LastIndexUnique(p, ExtSep, 2);
    LastIndexUnique(p, Sep, -1);
    assert p[0] != ExtSep;
    assert p[..2] == "a." && p[2..] == ".mp4";
  }

  /** A name without a dot has no extension. */
  lemma SplitExtNoDot()
    ensures SplitExt("noext") == ("noext", "")
  {
  }

  /** The output's basename is never the input's, so the input file is never the ffmpeg target. */
  lemma ShortOutputNeverOverwritesInput(input: string)
    ensures Basename(ShortOutputPath(input)) != Basename(input)
    ensures ShortOutputPath(input) != input
  {
    ShortOutputBasename(input);
    var parts := SplitExt(Basename(input));
    assert |ShortName(input)| == |Basename(input)| + |Suffix|;
  }

  /** The ffmpeg argument list: crop the centre to 9:16, scale to 1080x1920, and overwrite (-y) the output. */
  function FfmpegCommand(input: string, output: string): (cmd: seq<string>)
    ensures |cmd| == 13 && cmd[2] == input && cmd[|cmd| - 1] == output && cmd[11] == "-y"
  {
    [FfmpegExe, "-i", input, "-vf", "crop=ih*9/16:ih,scale=1080:1920",
     "-preset", "fast", "-c:v", "h264_nvenc", "-b:v", "5M", "-y", output]
  }

  /** What subprocess.run gives back: a finished process with its exit code, or an exception. */
  datatype RunResult = Completed(returnCode: int) | Threw

  /** convert_to_short: True exactly when ffmpeg ran and exited with status 0. */
  function ConvertToShort(run: RunResult): (ok: bool)
    ensures ok <==> run.Completed? && run.returnCode == 0
    ensures run.Threw? ==> !ok
  {
    match run
    case Threw => false
    case Completed(code) => code == 0
  }

  /** What the script's main block does with its argument vector. */
  datatype Invocation =
    | Usage(exitStatus: int)                // prints the usage line and exits
    | Convert(input: string, output: string, command: seq<string>)

  /** Exactly one argument (argv of length two) is required; anything else exits with status 1 before any work. */
  function CommandLine(argv: seq<string>): (r: Invocation)
    ensures |argv| != 2 <==> r == Usage(1)
    ensures |argv| == 2 ==> r.Convert? && r.input == argv[1] && r.output == ShortOutputPath(argv[1])
    ensures r.Convert? ==> r.command == FfmpegCommand(r.input, r.output)
  {
    if |argv| != 2 then Usage(1)
    else
      var input := argv[1];
      var output := ShortOutputPath(input);
      Convert(input, output, FfmpegCommand(input, output))
  }

  /** Even with -y, the command the tool runs never names its input as the output. */
  lemma CommandLineNeverOverwritesInput(argv: seq<string>)
    requires CommandLine(argv).Convert?
    ensures CommandLine(argv).command[|CommandLine(argv).command| - 1] != CommandLine(argv).command[2]
  {
    ShortOutputNeverOverwritesInput(argv[1]);
  }
}
