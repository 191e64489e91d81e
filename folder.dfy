/**
 * `process_folder`: pick the video files of the input folder, convert each one into a
 * temporary file, move the result to its place in the output folder and delete the original.
 *
 * The folder is a `FileSystem` object whose file map and directory set the per-file
 * operations change in place; `Step` and `Steps` say, as values, what one file and a whole
 * batch do to it. A failure inside the per-file `try` block is an operation that reports
 * `false`, after which the temporary file is removed (best effort) and the loop goes on.
 */
module Folder {
  import opened Options
  import opened Text
  import opened Commands
  import opened Conversion

  // ---------------------------------------------------------------------------
  // Which directory entries are processed

  const VideoFormats: seq<string> := [".mkv", ".mp4", ".avi"]

  const WordsToIgnore: seq<string> := ["sample", "SAMPLE", "Sample", ".DS_Store"]

  /** A video file by its extension, and not a sample clip or Finder metadata. */
  predicate IsCandidate(f: string) {
    && (exists ext :: ext in VideoFormats && EndsWith(f, ext))
    && !(exists w :: w in WordsToIgnore && Contains(f, w))
  }

  /** The entries to process, in listing order: exactly the candidates. */
  function CandidateFiles(listing: seq<string>): (r: seq<string>)
    ensures |r| <= |listing|
    ensures forall f :: f in r <==> f in listing && IsCandidate(f)
  {
    if listing == [] then []
    else
      var rest := CandidateFiles(listing[1..]);
      assert forall f :: f in listing <==> f == listing[0] || f in listing[1..];
      (if IsCandidate(listing[0]) then [listing[0]] else []) + rest
  }

  /** The filter keeps listing order. */
  lemma {:induction false} CandidateFilesAppend(a: seq<string>, b: seq<string>)
    ensures CandidateFiles(a + b) == CandidateFiles(a) + CandidateFiles(b)
  {
    if a == [] {
      assert a + b == b;
    } else {
      var ab := a + b;
      assert ab[0] == a[0] && ab[1..] == a[1..] + b;
      CandidateFilesAppend(a[1..], b);
    }
  }

  // ---------------------------------------------------------------------------
  // POSIX `os.path.join` and `os.path.splitext`

  /** `os.path.join(a, b)`: an absolute `b` wins; otherwise one `/` between the parts. */
  function PathJoin(a: string, b: string): (r: string)
    ensures EndsWith(r, b)
  {
    if b != [] && b[0] == '/' then b
    else if a == [] || a[|a| - 1] == '/' then a + b
    else a + "/" + b
  }

  /** The last position of `c` in `s`, or -1. */
  function RFind(s: string, c: char): (r: int)
    ensures -1 <= r < |s|
    ensures r >= 0 ==> s[r] == c
    ensures forall k :: r < k < |s| ==> s[k] != c
  {
    if s == [] then -1
    else if s[|s| - 1] == c then |s| - 1
    else RFind(s[..|s| - 1], c)
  }

  /**
   * `os.path.splitext`: the extension is the part from the last dot of the last path
   * component on, unless only dots precede that dot in the component (`.mkv` has none).
   */
  function SplitExt(p: string): (r: (string, string))
    ensures r.0 + r.1 == p
    ensures r.1 == [] || (r.1[0] == '.' && forall k :: 1 <= k < |r.1| ==> r.1[k] != '.' && r.1[k] != '/')
    ensures p != [] ==> r.0 != []
    ensures r.1 != [] ==> exists k :: RFind(p, '/') < k < |r.0| && p[k] != '.'
    ensures r.1 == [] ==> forall k, m :: RFind(p, '/') < k < m < |p| && p[k] != '.' ==> p[m] != '.'
  {
    var sep := RFind(p, '/');
    var dot := RFind(p, '.');
    if dot > sep && exists k :: sep < k < dot && p[k] != '.' then (p[..dot], p[dot..]) else (p, "")
  }

  /** The name without its extension: the output's base name and, with subfolders, its folder's name. */
  function Base(name: string): string {
    SplitExt(name).0
  }

  /** A video name loses exactly its three-letter extension, once some non-dot character precedes it. */
  lemma VideoNameSplit(name: string, ext: string, k: nat)
    requires '/' !in name && ext in VideoFormats && EndsWith(name, ext)
    requires k < |name| - 4 && name[k] != '.'
    ensures SplitExt(name) == (name[..|name| - 4], ext)
  {
    var n := |name|;
    assert name[n - 4..] == ext;
    assert name[n - 4] == '.' && name[n - 3] != '.' && name[n - 2] != '.' && name[n - 1] != '.';
    var dot := RFind(name, '.');
    assert dot == n - 4;
    assert RFind(name, '/') == -1;
  }

  /** A name that is nothing but dots and an extension, like `.mkv`, has no extension at all. */
  lemma DotsOnlyKeepWholeName(name: string, ext: string)
    requires '/' !in name && ext in VideoFormats && EndsWith(name, ext)
    requires forall k :: 0 <= k < |name| - 4 ==> name[k] == '.'
    ensures Base(name) == name
  {
    var n := |name|;
    assert name[n - 4..] == ext;
    assert name[n - 4] == '.' && name[n - 3] != '.' && name[n - 2] != '.' && name[n - 1] != '.';
    assert RFind(name, '.') == n - 4;
  }

  // ---------------------------------------------------------------------------
  // Where the output goes

  /** The folder the output is moved into: the output folder, or `<output>/<base>` with subfolders. */
  function OutputDir(outputDir: string, name: string, subfolders: bool): string {
    if subfolders then PathJoin(outputDir, Base(name)) else outputDir
  }

  /** `<base>.mp4` in the folder the output is moved into. */
  function OutputPath(outputDir: string, name: string, subfolders: bool): (r: string)
    ensures EndsWith(r, ".mp4")
  {
    var r := PathJoin(OutputDir(outputDir, name, subfolders), Base(name) + ".mp4");
    assert EndsWith(Base(name) + ".mp4", ".mp4");
    assert r[|r| - 4..] == (Base(name) + ".mp4")[|Base(name) + ".mp4"| - 4..];
    r
  }

  /**
   * For a plain directory entry and an output folder not ending in `/`, the output is
   * `<output>/<base>.mp4`, or `<output>/<base>/<base>.mp4` with subfolders.
   */
  lemma OutputPathShape(outputDir: string, name: string, subfolders: bool)
    requires '/' !in name && name != [] && outputDir != [] && outputDir[|outputDir| - 1] != '/'
    ensures var b := Base(name);
            && b != [] && b <= name
            && OutputPath(outputDir, name, subfolders)
               == if subfolders then outputDir + "/" + b + "/" + b + ".mp4" else outputDir + "/" + b + ".mp4"
  {
    BaseIsPrefix(name);
    if subfolders {
      NestedOutputPath(outputDir, name);
    } else {
      FlatOutputPath(outputDir, name);
    }
  }

  lemma FlatOutputPath(outputDir: string, name: string)
    requires '/' !in name && name != [] && outputDir != [] && outputDir[|outputDir| - 1] != '/'
    ensures OutputPath(outputDir, name, false) == outputDir + "/" + Base(name) + ".mp4"
  {
    BaseIsPrefix(name);
    var file := Base(name) + ".mp4";
    assert file[0] == Base(name)[0];
    assert OutputPath(outputDir, name, false) == PathJoin(outputDir, file);
    JoinPlain(outputDir, file);
  }

  lemma NestedOutputPath(outputDir: string, name: string)
    requires '/' !in name && name != [] && outputDir != [] && outputDir[|outputDir| - 1] != '/'
    ensures OutputPath(outputDir, name, true) == outputDir + "/" + Base(name) + "/" + Base(name) + ".mp4"
  {
    BaseIsPrefix(name);
    var b := Base(name);
    var file := b + ".mp4";
    assert file[0] == b[0];
    JoinPlain(outputDir, b);
    var dir := outputDir + "/" + b;
    assert dir[|dir| - 1] == b[|b| - 1];
    assert OutputPath(outputDir, name, true) == PathJoin(dir, file);
    JoinPlain(dir, file);
  }

  /** The base of a plain directory entry is a non-empty prefix of it, neither starting nor ending with `/`. */
  lemma BaseIsPrefix(name: string)
    requires '/' !in name && name != []
    ensures var b := Base(name); b != [] && b <= name && b[0] != '/' && b[|b| - 1] != '/'
  {
    var b := Base(name);
    assert b + SplitExt(name).1 == name;
    assert b[0] == name[0] && b[|b| - 1] == name[|b| - 1];
    assert name[0] in name && name[|b| - 1] in name;
  }

  /** Joining a relative part to a folder not ending in `/` puts exactly one `/` between them. */
  lemma JoinPlain(a: string, b: string)
    requires a != [] && a[|a| - 1] != '/' && b != [] && b[0] != '/'
    ensures PathJoin(a, b) == a + "/" + b
  {
  }

  /**
   * Video names that differ only in their extension share one output path: `movie.mkv` and
   * `movie.avi` both become `movie.mp4`, and the later one replaces the earlier.
   */
  lemma SameBaseSameOutput(outputDir: string, subfolders: bool, a: string, extA: string, b: string, extB: string, k: nat)
    requires '/' !in a && extA in VideoFormats && EndsWith(a, extA)
    requires '/' !in b && extB in VideoFormats && EndsWith(b, extB)
    requires k < |a| - 4 && a[k] != '.' && a[..|a| - 4] == b[..|b| - 4]
    ensures OutputPath(outputDir, a, subfolders) == OutputPath(outputDir, b, subfolders)
  {
    VideoNameSplit(a, extA, k);
    assert b[k] == a[k];
    VideoNameSplit(b, extB, k);
  }

  /** An `.mp4` input converted without subfolders into its own folder gets its own path as output. */
  lemma SameFolderOutputIsInput(dir: string, name: string, k: nat)
    requires '/' !in name && EndsWith(name, ".mp4") && k < |name| - 4 && name[k] != '.'
    ensures OutputPath(dir, name, false) == PathJoin(dir, name)
  {
    VideoNameSplit(name, ".mp4", k);
    assert name[..|name| - 4] + ".mp4" == name;
  }

  // ---------------------------------------------------------------------------
  // The folder as a value

  /** What a file holds: an empty temporary file, the converted form of an input, or anything else. */
  datatype Data = Blank | Converted(source: string) | Other

  datatype Disk = Disk(files: map<string, Data>, dirs: set<string>)

  /**
   * What the environment supplies for one file: the fresh name `tempfile` hands out, the
   * three probe results, and whether the `ffmpeg` run succeeds.
   */
  datatype FileEnv = FileEnv(temp: string, probes: Probes, ffmpegOk: bool)

  /** `convert_to_mp4` returned true. */
  predicate ConvertOk(input: string, mode: Mode, e: FileEnv) {
    Decide(input, e.temp, mode, e.probes).Run? && e.ffmpegOk
  }

  /**
   * One directory entry, resolved: the original, the temporary file, the folder to move
   * into, the output path, and whether the conversion succeeded.
   */
  datatype Job = Job(input: string, temp: string, dir: string, out: string, converted: bool)

  function JobOf(inputDir: string, outputDir: string, mode: Mode, subfolders: bool, name: string, e: FileEnv): Job {
    var input := PathJoin(inputDir, name);
    Job(input, e.temp, OutputDir(outputDir, name, subfolders), OutputPath(outputDir, name, subfolders),
        ConvertOk(input, mode, e))
  }

  /** `os.remove(p)` in the `except` handler: removes the file if there is one, and fails silently otherwise. */
  function Cleanup(d: Disk, p: string): (r: Disk)
    ensures r.files == d.files - {p} && r.dirs == d.dirs
  {
    if p in d.files then d.(files := d.files - {p}) else d
  }

  /** `shutil.move(src, dst)` within one file system: the data now lives at `dst`, replacing what was there. */
  function MoveFile(d: Disk, src: string, dst: string): (r: Disk)
    requires src in d.files
    ensures dst in r.files && r.files[dst] == d.files[src]
    ensures src != dst ==> src !in r.files
    ensures r.files - {src, dst} == d.files - {src, dst} && r.dirs == d.dirs
  {
    d.(files := (d.files - {src})[dst := d.files[src]])
  }

  /**
   * The `try` block after a successful conversion: create the subfolder, read both sizes,
   * move the temporary file into place, delete the original. The first step that raises
   * ends it, and the handler removes the temporary file.
   */
  function AfterConversion(d: Disk, j: Job, subfolders: bool): (r: Disk)
    ensures r.files - Touched(j) == d.files - Touched(j)
    ensures d.dirs <= r.dirs <= d.dirs + {j.dir}
  {
    if subfolders && j.dir in d.files then Cleanup(d, j.temp)
    else
      var d1 := if subfolders then d.(dirs := d.dirs + {j.dir}) else d;
      if j.input !in d1.files || j.temp !in d1.files || j.dir !in d1.dirs then Cleanup(d1, j.temp)
      else
        var d2 := MoveFile(d1, j.temp, j.out);
        if j.input !in d2.files then Cleanup(d2, j.temp)
        else d2.(files := d2.files - {j.input})
  }

  /**
   * One iteration of the loop: a temporary file is created, the conversion writes into it,
   * and on success the rest of the `try` block runs. When the conversion reports failure
   * nothing is cleaned up: the temporary file stays.
   */
  function Step(d: Disk, j: Job, subfolders: bool): (r: Disk)
    ensures r.files - Touched(j) == d.files - Touched(j)
    ensures d.dirs <= r.dirs <= d.dirs + {j.dir}
  {
    var created := d.(files := d.files[j.temp := Blank]);
    if !j.converted then created
    else AfterConversion(created.(files := created.files[j.temp := Converted(j.input)]), j, subfolders)
  }

  /** The resolved entries of a batch, one per name, in order. */
  function Jobs(inputDir: string, outputDir: string, mode: Mode, subfolders: bool,
                names: seq<string>, env: string -> FileEnv): (r: seq<Job>)
    ensures |r| == |names|
    ensures forall i :: 0 <= i < |names| ==> r[i] == JobOf(inputDir, outputDir, mode, subfolders, names[i], env(names[i]))
  {
    seq(|names|, i requires 0 <= i < |names| => JobOf(inputDir, outputDir, mode, subfolders, names[i], env(names[i])))
  }

  /** The loop over a batch: the entries one after another, in order. */
  function Steps(d: Disk, jobs: seq<Job>, subfolders: bool): (r: Disk)
    ensures d.dirs <= r.dirs
  {
    if jobs == [] then d else Step(Steps(d, jobs[..|jobs| - 1], subfolders), jobs[|jobs| - 1], subfolders)
  }

  // ---------------------------------------------------------------------------
  // What one file does to the folder

  /**
   * Whether the `try` block runs to its end: the conversion succeeded, the subfolder could be
   * made (no file is in its way), the original is there, and the folder to move into exists.
   */
  predicate Succeeds(d: Disk, j: Job, subfolders: bool) {
    && j.converted
    && (subfolders ==> j.dir !in d.files && j.dir != j.temp)
    && j.input in d.files
    && (subfolders || j.dir in d.dirs)
  }

  /**
   * The names involved in one file are kept apart: a fresh temporary name, and an output
   * path that is neither the temporary file nor the original.
   */
  predicate Separate(d: Disk, j: Job) {
    j.temp !in d.files && j.temp != j.input && j.temp != j.out && j.out != j.input
  }

  /** The `try` block run to its end: the temporary file's data is at the output path, the original is gone. */
  lemma AfterConversionSuccess(d: Disk, j: Job, subfolders: bool)
    requires j.temp in d.files && j.input in d.files && j.temp != j.input && j.out != j.input
    requires subfolders ==> j.dir !in d.files
    requires subfolders || j.dir in d.dirs
    ensures AfterConversion(d, j, subfolders).files == (d.files - {j.input, j.temp})[j.out := d.files[j.temp]]
  {
    var d1 := if subfolders then d.(dirs := d.dirs + {j.dir}) else d;
    var d2 := MoveFile(d1, j.temp, j.out);
    var r := d2.(files := d2.files - {j.input});
    var expected := (d.files - {j.input, j.temp})[j.out := d.files[j.temp]];
    assert r.files.Keys == expected.Keys;
  }

  /**
   * On success the original is gone and the output path holds its converted form; the
   * temporary file is gone as well, and no other file changes.
   */
  lemma StepSuccess(d: Disk, j: Job, subfolders: bool)
    requires Separate(d, j) && Succeeds(d, j, subfolders)
    ensures Step(d, j, subfolders).files == (d.files - {j.input})[j.out := Converted(j.input)]
  {
    var written := d.(files := d.files[j.temp := Converted(j.input)]);
    AfterConversionSuccess(written, j, subfolders);
    assert written.files - {j.input, j.temp} == d.files - {j.input};
  }

  /**
   * The original is deleted exactly when the whole `try` block succeeds; when the conversion
   * succeeded but a later step failed, the temporary file is removed and no file changes.
   */
  lemma StepOriginalRemovedIff(d: Disk, j: Job, subfolders: bool)
    requires Separate(d, j) && j.input in d.files
    ensures j.input !in Step(d, j, subfolders).files <==> Succeeds(d, j, subfolders)
    ensures j.converted && !Succeeds(d, j, subfolders) ==> Step(d, j, subfolders).files == d.files
  {
    if Succeeds(d, j, subfolders) {
      StepSuccess(d, j, subfolders);
    } else if j.converted {
      var written := d.(files := d.files[j.temp := Converted(j.input)]);
      assert written.files - {j.temp} == d.files;
    }
  }

  /** When the conversion reports failure, the temporary file is left behind, empty, and nothing else changes. */
  lemma StepLeavesTempOnFailedConversion(d: Disk, j: Job, subfolders: bool)
    requires !j.converted
    ensures var r := Step(d, j, subfolders);
            j.temp in r.files && r.files[j.temp] == Blank && r.files - {j.temp} == d.files - {j.temp} && r.dirs == d.dirs
  {
  }

  /** An output path equal to the original: the move replaces the original, then the original's path is deleted. */
  lemma StepOutputOntoInput(d: Disk, j: Job, subfolders: bool)
    requires j.out == j.input && j.temp !in d.files && j.temp != j.input
    requires Succeeds(d, j, subfolders)
    ensures Step(d, j, subfolders).files == d.files - {j.input}
  {
    var written := d.(files := d.files[j.temp := Converted(j.input)]);
    var d1 := if subfolders then written.(dirs := written.dirs + {j.dir}) else written;
    var moved := MoveFile(d1, j.temp, j.out);
    assert moved.files - {j.input} == d.files - {j.input};
  }

  /**
   * Converting an `.mp4` file into its own folder without subfolders moves the result onto
   * the original and then deletes the original: neither the input nor its conversion survives.
   */
  lemma SameFolderLosesOutput(d: Disk, dir: string, mode: Mode, name: string, e: FileEnv, k: nat)
    requires '/' !in name && EndsWith(name, ".mp4") && k < |name| - 4 && name[k] != '.'
    requires e.temp !in d.files && e.temp != PathJoin(dir, name)
    requires Succeeds(d, JobOf(dir, dir, mode, false, name, e), false)
    ensures Step(d, JobOf(dir, dir, mode, false, name, e), false).files == d.files - {PathJoin(dir, name)}
  {
    SameFolderOutputIsInput(dir, name, k);
    StepOutputOntoInput(d, JobOf(dir, dir, mode, false, name, e), false);
  }

  /** The paths one file may touch: its original, its temporary file and its output. */
  function Touched(j: Job): set<string> {
    {j.input, j.temp, j.out}
  }

  /**
   * A whole batch leaves every path that is not the original, temporary file or output of
   * one of its entries as it was, and only ever adds directories.
   */
  lemma {:induction false} StepsFrame(d: Disk, jobs: seq<Job>, subfolders: bool, p: string)
    requires forall i :: 0 <= i < |jobs| ==> p !in Touched(jobs[i])
    ensures var r := Steps(d, jobs, subfolders);
            (p in r.files <==> p in d.files) && (p in d.files ==> r.files[p] == d.files[p]) && d.dirs <= r.dirs
  {
    if jobs != [] {
      var front := jobs[..|jobs| - 1];
      StepsFrame(d, front, subfolders, p);
      var before := Steps(d, front, subfolders);
      var j := jobs[|jobs| - 1];
      assert p !in Touched(j);
      var after := Step(before, j, subfolders);
      assert (p in after.files <==> p in after.files - Touched(j)) && (p in before.files <==> p in before.files - Touched(j));
      assert p in before.files ==> (before.files - Touched(j))[p] == before.files[p];
    }
  }

  // ---------------------------------------------------------------------------
  // The folder as an object

  /** Outcome of `process_folder`: it exits early when a folder is missing. */
  datatype Status = InputDirMissing | OutputDirMissing | Done

  class FileSystem {
    var files: map<string, Data>
    var dirs: set<string>

    constructor (files0: map<string, Data>, dirs0: set<string>)
      ensures files == files0 && dirs == dirs0
    {
      files := files0;
      dirs := dirs0;
    }

    function State(): Disk
      reads this
    {
      Disk(files, dirs)
    }

    /** `os.path.isdir`. */
    method IsDir(p: string) returns (b: bool)
      ensures b <==> p in dirs
    {
      b := p in dirs;
    }

    /** `os.path.getsize` succeeds: the file exists. */
    method Exists(p: string) returns (b: bool)
      ensures b <==> p in files
    {
      b := p in files;
    }

    /** `NamedTemporaryFile(delete=False)`: an empty file under the given name. */
    method CreateTemp(p: string)
      modifies this
      ensures files == old(files)[p := Blank] && dirs == old(dirs)
    {
      files := files[p := Blank];
    }

    /** What `ffmpeg` leaves in the output file it was given. */
    method Write(p: string, data: Data)
      modifies this
      ensures files == old(files)[p := data] && dirs == old(dirs)
    {
      files := files[p := data];
    }

    /** `os.makedirs(p, exist_ok=True)`: fails only when a file is in the way. */
    method MakeDirs(p: string) returns (ok: bool)
      modifies this
      ensures ok <==> p !in old(files)
      ensures files == old(files)
      ensures dirs == if ok then old(dirs) + {p} else old(dirs)
    {
      ok := p !in files;
      if ok {
        dirs := dirs + {p};
      }
    }

    /** `shutil.move(src, dst)` where `dst` is a path inside the folder `dstDir`. */
    method Move(src: string, dst: string, dstDir: string) returns (ok: bool)
      modifies this
      ensures ok <==> src in old(files) && dstDir in old(dirs)
      ensures ok ==> State() == MoveFile(old(State()), src, dst)
      ensures !ok ==> State() == old(State())
    {
      ok := src in files && dstDir in dirs;
      if ok {
        files := (files - {src})[dst := files[src]];
      }
    }

    /** `os.remove(p)`. */
    method Remove(p: string) returns (ok: bool)
      modifies this
      ensures ok <==> p in old(files)
      ensures State() == Cleanup(old(State()), p)
    {
      ok := p in files;
      if ok {
        files := files - {p};
      }
    }
  }

  /** The conversion of one file, with `ffmpeg` writing its result into the temporary file. */
  method RunConversion(fs: FileSystem, input: string, mode: Mode, e: FileEnv) returns (ok: bool)
    modifies fs
    ensures ok <==> ConvertOk(input, mode, e)
    ensures fs.State() == if ok then old(fs.State()).(files := old(fs.files)[e.temp := Converted(input)]) else old(fs.State())
  {
    ok := ConvertToMp4(input, e.temp, mode, e.probes, e.ffmpegOk);
    if ok {
      fs.Write(e.temp, Converted(input));
    }
  }

  /** The `try` block after a successful conversion, with the handler's cleanup. */
  method FinishFile(fs: FileSystem, input: string, temp: string, dir: string, out: string, subfolders: bool)
    modifies fs
    ensures fs.State() == AfterConversion(old(fs.State()), Job(input, temp, dir, out, true), subfolders)
  {
    var ok := true;
    if subfolders {
      ok := fs.MakeDirs(dir);
    }
    if ok {
      ok := fs.Exists(input);
    }
    if ok {
      ok := fs.Exists(temp);
    }
    if ok {
      ok := fs.Move(temp, out, dir);
    }
    if ok {
      ok := fs.Remove(input);
    }
    if !ok {
      var _ := fs.Remove(temp);
    }
  }

  /** One iteration of the loop: paths, temporary file, conversion, and on success the move. */
  method ProcessFile(fs: FileSystem, inputDir: string, outputDir: string, mode: Mode, subfolders: bool,
                     name: string, e: FileEnv)
    modifies fs
    ensures fs.State() == Step(old(fs.State()), JobOf(inputDir, outputDir, mode, subfolders, name, e), subfolders)
  {
    var input := PathJoin(inputDir, name);
    var base := SplitExt(name).0;
    var outName := base + ".mp4";
    var dir, out;
    if subfolders {
      dir := PathJoin(outputDir, base);
      out := PathJoin(dir, outName);
    } else {
      dir := outputDir;
      out := PathJoin(outputDir, outName);
    }
    fs.CreateTemp(e.temp);
    var converted := RunConversion(fs, input, mode, e);
    if converted {
      FinishFile(fs, input, e.temp, dir, out, subfolders);
    }
  }

  /** The loop of `process_folder` over the entries to process, in order. */
  method ProcessFiles(fs: FileSystem, inputDir: string, outputDir: string, mode: Mode, subfolders: bool,
                      files: seq<string>, env: string -> FileEnv)
    modifies fs
    ensures fs.State() == Steps(old(fs.State()), Jobs(inputDir, outputDir, mode, subfolders, files, env), subfolders)
  {
    ghost var jobs := Jobs(inputDir, outputDir, mode, subfolders, files, env);
    for i := 0 to |files|
      invariant fs.State() == Steps(old(fs.State()), jobs[..i], subfolders)
    {
      StepsSnoc(old(fs.State()), jobs, i, subfolders);
      ProcessFile(fs, inputDir, outputDir, mode, subfolders, files[i], env(files[i]));
    }
    assert jobs[..|files|] == jobs;
  }

  lemma StepsSnoc(d: Disk, jobs: seq<Job>, i: nat, subfolders: bool)
    requires i < |jobs|
    ensures Steps(d, jobs[..i + 1], subfolders) == Step(Steps(d, jobs[..i], subfolders), jobs[i], subfolders)
  {
    assert jobs[..i + 1][..i] == jobs[..i];
  }

  /**
   * `process_folder`: stop when either folder is missing; otherwise process the candidates
   * of `listing` (the folder's entries, already in natural sort order) one after another.
   */
  method ProcessFolder(fs: FileSystem, inputDir: string, outputDir: string, mode: Mode, subfolders: bool,
                       listing: seq<string>, env: string -> FileEnv) returns (status: Status)
    modifies fs
    ensures status == InputDirMissing <==> inputDir !in old(fs.dirs)
    ensures status == OutputDirMissing <==> inputDir in old(fs.dirs) && outputDir !in old(fs.dirs)
    ensures status == Done ==>
              fs.State() == Steps(old(fs.State()), Jobs(inputDir, outputDir, mode, subfolders, CandidateFiles(listing), env), subfolders)
    ensures status != Done ==> fs.State() == old(fs.State())
  {
    var inputOk := fs.IsDir(inputDir);
    if !inputOk {
      return InputDirMissing;
    }
    var outputOk := fs.IsDir(outputDir);
    if !outputOk {
      return OutputDirMissing;
    }
    var files := CandidateFiles(listing);
    ProcessFiles(fs, inputDir, outputDir, mode, subfolders, files, env);
    status := Done;
  }
}
