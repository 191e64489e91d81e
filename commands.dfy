/**
 * The argument vectors the converter hands to `ffprobe` and `ffmpeg`.
 *
 * The probe vector gets `-select_streams <kind>` inserted after `-show_streams` when a
 * stream kind is asked for. The transcode vector is the input part, the mode's flags
 * (re-encode to H.265/AAC 5.1, or copy), one `-map`/language pair per kept audio stream,
 * at most one subtitle mapping, and the temporary output file last.
 */
module Commands {
  import opened Options
  import opened Text
  import opened Selection

  /** Re-encode, or copy the streams into the new container. */
  datatype Mode = Encode | Remux

  // ---------------------------------------------------------------------------
  // Counting and finding arguments

  /** How many times the argument `x` occurs in `args`. */
  function Count(args: seq<string>, x: string): nat {
    if args == [] then 0 else (if args[0] == x then 1 else 0) + Count(args[1..], x)
  }

  lemma {:induction false} CountAppend(a: seq<string>, b: seq<string>, x: string)
    ensures Count(a + b, x) == Count(a, x) + Count(b, x)
  {
    if a == [] {
      assert a + b == b;
    } else {
      assert (a + b)[0] == a[0] && (a + b)[1..] == a[1..] + b;
      CountAppend(a[1..], b, x);
    }
  }

  lemma CountCons(a: string, rest: seq<string>, x: string)
    ensures Count([a] + rest, x) == (if a == x then 1 else 0) + Count(rest, x)
  {
    assert ([a] + rest)[1..] == rest;
  }

  /** An argument that occurs nowhere is counted zero times, and conversely. */
  lemma {:induction false} CountZero(args: seq<string>, x: string)
    ensures Count(args, x) == 0 <==> x !in args
  {
    if args != [] {
      CountZero(args[1..], x);
      assert args == [args[0]] + args[1..];
    }
  }

  /** The flag `a` is immediately followed by the value `b` somewhere in `args`. */
  predicate HasPair(args: seq<string>, a: string, b: string) {
    exists i :: 0 <= i < |args| - 1 && args[i] == a && args[i + 1] == b
  }

  // ---------------------------------------------------------------------------
  // ffprobe

  /** The probe vector when every stream is wanted. */
  function BaseProbeArgs(input: string): seq<string> {
    ["ffprobe", "-v", "error", "-show_streams", "-print_format", "json", input]
  }

  /** `list.insert(i, x)` for a position inside the list. */
  function Insert(args: seq<string>, i: nat, x: string): (r: seq<string>)
    requires i <= |args|
    ensures |r| == |args| + 1 && r[i] == x
    ensures r[..i] == args[..i] && r[i + 1..] == args[i..]
  {
    args[..i] + [x] + args[i..]
  }

  /** A stream kind was asked for: Python treats `None` and `""` alike as "no". */
  predicate Selects(kind: Option<string>) {
    kind.Some? && kind.value != ""
  }

  /**
   * The `ffprobe` vector: the fixed flags with the input last, and, when a stream kind is
   * asked for, `-select_streams <kind>` at positions 4 and 5, the rest shifted right.
   */
  method ProbeArgs(input: string, kind: Option<string>) returns (cmd: seq<string>)
    ensures |cmd| == (if Selects(kind) then 9 else 7) && cmd[|cmd| - 1] == input
    ensures cmd[..4] == ["ffprobe", "-v", "error", "-show_streams"]
    ensures Selects(kind) ==> cmd[4] == "-select_streams" && cmd[5] == kind.value
    ensures Selects(kind) ==> cmd[..4] + cmd[6..] == BaseProbeArgs(input)
    ensures !Selects(kind) ==> cmd == BaseProbeArgs(input)
  {
    cmd := ["ffprobe", "-v", "error", "-show_streams", "-print_format", "json", input];
    if kind.Some? && kind.value != "" {
      cmd := Insert(cmd, 4, "-select_streams");
      cmd := Insert(cmd, 5, kind.value);
    }
  }

  // ---------------------------------------------------------------------------
  // ffmpeg

  /** Read the input, overwrite the output without asking. */
  function InputArgs(input: string): seq<string> {
    ["ffmpeg", "-i", input, "-y"]
  }

  /** H.265 through x265, silenced, preset fast, CRF 23. */
  const EncodeVideoFlags: seq<string> := ["-c:v", "libx265", "-x265-params", "log-level=0", "-preset", "fast", "-crf", "23"]

  /** AAC at 192k in a 5.1 channel layout. */
  const EncodeAudioFlags: seq<string> := ["-c:a", "aac", "-b:a", "192k", "-channel_layout", "5.1"]

  /** Copy video and audio as they are. */
  const CopyFlags: seq<string> := ["-c:v", "copy", "-c:a", "copy"]

  /** Keep the first video stream; drop the container's metadata. */
  const VideoMapFlags: seq<string> := ["-map", "0:v:0", "-map_metadata", "-1"]

  /** The tag that lets Apple players recognise an HEVC stream. */
  const HevcTag: seq<string> := ["-tag:v", "hvc1"]

  /** Index at the front of the file for streaming; no console output. */
  const OutputFlags: seq<string> := ["-movflags", "+faststart", "-loglevel", "quiet"]

  /** The encode mode's list after the input part. */
  const EncodeFlags: seq<string> := EncodeVideoFlags + EncodeAudioFlags + VideoMapFlags + HevcTag + OutputFlags

  /** The remux mode's list after the input part. */
  const RemuxFlags: seq<string> := CopyFlags + VideoMapFlags + OutputFlags

  /**
   * The mode's flags: H.265 video and AAC audio when encoding, both streams copied when
   * remuxing, the first video stream mapped either way. In copy mode the HEVC tag is added
   * only for an HEVC source (ModeFlagsStreams places the streams, ModeFlagsCount counts the flags).
   */
  function ModeFlags(mode: Mode, videoCodec: Option<string>): (r: seq<string>)
    ensures |r| >= 12 && r[0] == "-c:v" && r[1] == (if mode == Encode then "libx265" else "copy")
  {
    match mode
    case Encode => EncodeFlags
    case Remux => if videoCodec == Some("hevc") then RemuxFlags + HevcTag else RemuxFlags
  }

  /**
   * Where the audio codec and the video mapping sit in the mode's flags: after the video
   * encoding flags when encoding (`-c:a aac`, then `-map 0:v:0` after the audio flags),
   * right after `-c:v copy` when remuxing (`-c:a copy`, then `-map 0:v:0`).
   */
  lemma ModeFlagsStreams(mode: Mode, videoCodec: Option<string>)
    ensures var r := ModeFlags(mode, videoCodec);
            var a := if mode == Encode then 8 else 2;
            var v := if mode == Encode then 14 else 4;
            && v + 1 < |r|
            && r[a] == "-c:a" && r[a + 1] == (if mode == Encode then "aac" else "copy")
            && r[v] == "-map" && r[v + 1] == "0:v:0"
  {
    if mode == Encode {
      var front := EncodeVideoFlags + EncodeAudioFlags + VideoMapFlags;
      assert front[8] == "-c:a" && front[9] == "aac" && front[14] == "-map" && front[15] == "0:v:0";
      assert ModeFlags(mode, videoCodec) == front + (HevcTag + OutputFlags);
    } else {
      var front := CopyFlags + VideoMapFlags;
      assert front[2] == "-c:a" && front[3] == "copy" && front[4] == "-map" && front[5] == "0:v:0";
      assert RemuxFlags == front + OutputFlags;
    }
  }

  /** What one kept audio stream adds: its mapping and an English language tag. */
  function AudioMapOf(index: string): seq<string> {
    ["-map", "0:" + index, "-metadata:s:a:0", "language=eng"]
  }

  /** The mappings of all kept audio streams, in order. */
  function AudioMapArgs(indices: seq<string>): (r: seq<string>)
    ensures |r| == 4 * |indices|
  {
    if indices == [] then [] else AudioMapOf(indices[0]) + AudioMapArgs(indices[1..])
  }

  /** Only the first kept subtitle is mapped, converted to `mov_text` with its own language. */
  function SubtitleArgs(subs: seq<Subtitle>): (r: seq<string>)
    ensures r == [] <==> subs == []
    ensures subs != [] ==> && |r| == 6 && HasPair(r, "-map", "0:" + subs[0].index)
                           && HasPair(r, "-c:s", "mov_text")
                           && HasPair(r, "-metadata:s:s:0", "language=" + subs[0].language)
  {
    if subs == [] then []
    else
      var r := ["-map", "0:" + subs[0].index, "-c:s", "mov_text", "-metadata:s:s:0", "language=" + subs[0].language];
      assert r[0] == "-map" && r[1] == "0:" + subs[0].index && HasPair(r, "-map", "0:" + subs[0].index);
      assert r[2] == "-c:s" && r[3] == "mov_text" && HasPair(r, "-c:s", "mov_text");
      assert r[4] == "-metadata:s:s:0" && r[5] == "language=" + subs[0].language;
      assert HasPair(r, "-metadata:s:s:0", "language=" + subs[0].language);
      r
  }

  /**
   * The whole `ffmpeg` vector. It always starts with `ffmpeg -i <input> -y` and always ends
   * with the temporary output file.
   */
  function FfmpegCommand(input: string, temp: string, mode: Mode, videoCodec: Option<string>,
                         audio: seq<string>, subs: seq<Subtitle>): (r: seq<string>)
    ensures |r| >= 5 && r[..4] == ["ffmpeg", "-i", input, "-y"] && r[|r| - 1] == temp
  {
    InputArgs(input) + ModeFlags(mode, videoCodec) + AudioMapArgs(audio) + SubtitleArgs(subs) + [temp]
  }

  lemma {:induction false} AudioMapArgsAppend(a: seq<string>, b: seq<string>)
    ensures AudioMapArgs(a + b) == AudioMapArgs(a) + AudioMapArgs(b)
  {
    if a == [] {
      assert a + b == b;
    } else {
      assert (a + b)[0] == a[0] && (a + b)[1..] == a[1..] + b;
      AudioMapArgsAppend(a[1..], b);
    }
  }

  /** Builds the vector as the converter does: start from the mode's list, then extend it. */
  method BuildFfmpegCommand(input: string, temp: string, mode: Mode, videoCodec: Option<string>,
                            audio: seq<string>, subs: seq<Subtitle>) returns (cmd: seq<string>)
    ensures cmd == FfmpegCommand(input, temp, mode, videoCodec, audio, subs)
  {
    cmd := StartCommand(input, mode, videoCodec);
    ghost var head := cmd;
    if audio != [] {
      cmd := AppendAudioMaps(cmd, audio);
    } else {
      assert cmd == head + AudioMapArgs(audio) by { assert AudioMapArgs(audio) == []; }
    }
    ghost var mapped := cmd;
    if subs != [] {
      var sub := subs[0];
      cmd := cmd + ["-map", "0:" + sub.index, "-c:s", "mov_text", "-metadata:s:s:0", "language=" + sub.language];
    }
    assert cmd == mapped + SubtitleArgs(subs);
    cmd := cmd + [temp];
    assert cmd == head + AudioMapArgs(audio) + SubtitleArgs(subs) + [temp];
  }

  /** The audio loop: each index in turn extends the vector with its mapping and language tag. */
  method AppendAudioMaps(start: seq<string>, audio: seq<string>) returns (cmd: seq<string>)
    ensures cmd == start + AudioMapArgs(audio)
  {
    cmd := start;
    for i := 0 to |audio|
      invariant cmd == start + AudioMapArgs(audio[..i])
    {
      cmd := cmd + ["-map", "0:" + audio[i]];
      cmd := cmd + ["-metadata:s:a:0", "language=eng"];
      AudioMapArgsSnoc(audio[..i], audio[i]);
      assert audio[..i + 1] == audio[..i] + [audio[i]];
    }
    assert audio[..|audio|] == audio;
  }

  /** The literal list each mode starts from, with the HEVC tag added when copying HEVC. */
  method StartCommand(input: string, mode: Mode, videoCodec: Option<string>) returns (cmd: seq<string>)
    ensures cmd == InputArgs(input) + ModeFlags(mode, videoCodec)
  {
    if mode == Encode {
      cmd := ["ffmpeg", "-i", input, "-y"] + EncodeFlags;
    } else {
      cmd := ["ffmpeg", "-i", input, "-y"] + RemuxFlags;
      if videoCodec == Some("hevc") {
        cmd := cmd + HevcTag;
      }
    }
  }

  lemma AudioMapArgsSnoc(a: seq<string>, x: string)
    ensures AudioMapArgs(a + [x]) == AudioMapArgs(a) + ["-map", "0:" + x] + ["-metadata:s:a:0", "language=eng"]
  {
    AudioMapArgsAppend(a, [x]);
    assert AudioMapArgs([x]) == AudioMapOf(x);
  }

  // ---------------------------------------------------------------------------
  // What the transcode vector contains

  /** Each kept audio stream, in order, contributes its four arguments at a fixed stride. */
  lemma {:induction false} AudioMapArgsAt(indices: seq<string>, k: nat)
    requires k < |indices|
    ensures |AudioMapArgs(indices)| == 4 * |indices|
    ensures AudioMapArgs(indices)[4 * k..4 * k + 4] == AudioMapOf(indices[k])
  {
    if k > 0 {
      AudioMapArgsAt(indices[1..], k - 1);
      var rest := AudioMapArgs(indices[1..]);
      assert AudioMapArgs(indices)[4 * k..4 * k + 4] == rest[4 * (k - 1)..4 * (k - 1) + 4];
    }
  }

  /**
   * In the transcode vector, the arguments of the k-th kept audio stream sit right after
   * the mode's flags: `-map 0:<index> -metadata:s:a:0 language=eng`.
   */
  lemma AudioMappedInOrder(input: string, temp: string, mode: Mode, videoCodec: Option<string>,
                           audio: seq<string>, subs: seq<Subtitle>, k: nat)
    requires k < |audio|
    ensures var cmd := FfmpegCommand(input, temp, mode, videoCodec, audio, subs);
            var at := 4 + |ModeFlags(mode, videoCodec)| + 4 * k;
            at + 4 < |cmd| && cmd[at..at + 4] == ["-map", "0:" + audio[k], "-metadata:s:a:0", "language=eng"]
  {
    var head := InputArgs(input) + ModeFlags(mode, videoCodec);
    AudioMapArgsAt(audio, k);
    var w := AudioMapOf(audio[k]);
    SliceOfMiddle(head, AudioMapArgs(audio), SubtitleArgs(subs), [temp], 4 * k, w);
    assert |w| == 4 && |head| == 4 + |ModeFlags(mode, videoCodec)|;
    assert FfmpegCommand(input, temp, mode, videoCodec, audio, subs) == head + AudioMapArgs(audio) + SubtitleArgs(subs) + [temp];
  }

  /** A slice of the second of four pieces, seen through the whole. */
  lemma SliceOfMiddle(head: seq<string>, mid: seq<string>, t1: seq<string>, t2: seq<string>, i: nat, w: seq<string>)
    requires i + |w| <= |mid| && mid[i..i + |w|] == w && t2 != []
    ensures var all := head + mid + t1 + t2;
            |head| + i + |w| < |all| && all[|head| + i..|head| + i + |w|] == w
  {
    var all := head + mid + t1 + t2;
    assert all[..|head| + |mid|] == head + mid;
    assert (head + mid)[|head|..] == mid;
  }

  /** A kept subtitle: the six arguments for the first one stand just before the output file. */
  lemma SubtitleMappedLast(input: string, temp: string, mode: Mode, videoCodec: Option<string>,
                           audio: seq<string>, subs: seq<Subtitle>)
    requires subs != []
    ensures var cmd := FfmpegCommand(input, temp, mode, videoCodec, audio, subs);
            |cmd| >= 7 && cmd[|cmd| - 7..|cmd| - 1]
              == ["-map", "0:" + subs[0].index, "-c:s", "mov_text", "-metadata:s:s:0", "language=" + subs[0].language]
  {
    var cmd := FfmpegCommand(input, temp, mode, videoCodec, audio, subs);
    var front := InputArgs(input) + ModeFlags(mode, videoCodec) + AudioMapArgs(audio);
    assert cmd == front + SubtitleArgs(subs) + [temp];
    assert cmd[|cmd| - 7..|cmd| - 1] == SubtitleArgs(subs);
  }

  /**
   * Without a kept subtitle, nothing between the input part and the output file maps or
   * tags a subtitle: no `-c:s`, no subtitle metadata, and only the video and audio `-map`s.
   */
  lemma NoSubtitleArgs(input: string, temp: string, mode: Mode, videoCodec: Option<string>, audio: seq<string>)
    ensures var cmd := FfmpegCommand(input, temp, mode, videoCodec, audio, []);
            && Count(cmd[4..|cmd| - 1], "-c:s") == 0
            && Count(cmd[4..|cmd| - 1], "-metadata:s:s:0") == 0
            && Count(cmd[4..|cmd| - 1], "-map") == 1 + |audio|
  {
    StreamMapCounts(input, temp, mode, videoCodec, audio, []);
    CountMiddle(input, temp, mode, videoCodec, audio, [], "-metadata:s:s:0");
    AudioMapArgsCount(audio, "-metadata:s:s:0");
    ModeFlagsCount(mode, videoCodec, "-metadata:s:s:0");
  }

  /** A string that starts with `0:` is never a flag. */
  lemma SpecifierIsNotFlag(index: string, x: string)
    requires x != [] && x[0] == '-'
    ensures "0:" + index != x
  {
    assert ("0:" + index)[0] == '0';
  }

  lemma LanguageIsNotFlag(lang: string, x: string)
    requires x != [] && x[0] == '-'
    ensures "language=" + lang != x
  {
    assert ("language=" + lang)[0] == 'l';
  }

  /** Counting a flag among the audio mappings: one `-map` per stream, and no other flag but the metadata one. */
  lemma {:induction false} AudioMapArgsCount(indices: seq<string>, x: string)
    requires x != [] && x[0] == '-' && x != "-metadata:s:a:0"
    ensures Count(AudioMapArgs(indices), x) == if x == "-map" then |indices| else 0
  {
    if indices != [] {
      var one := AudioMapOf(indices[0]);
      SpecifierIsNotFlag(indices[0], x);
      LanguageIsNotFlag("eng", x);
      assert Count(one, x) == (if x == "-map" then 1 else 0) by {
        CountCons("language=eng", [], x);
        CountCons("-metadata:s:a:0", ["language=eng"], x);
        CountCons("0:" + indices[0], ["-metadata:s:a:0", "language=eng"], x);
        CountCons("-map", ["0:" + indices[0], "-metadata:s:a:0", "language=eng"], x);
      }
      CountAppend(one, AudioMapArgs(indices[1..]), x);
      AudioMapArgsCount(indices[1..], x);
    }
  }

  /** Counting a flag among the subtitle arguments. */
  lemma SubtitleArgsCount(subs: seq<Subtitle>, x: string)
    requires x != [] && x[0] == '-' && x != "-metadata:s:s:0"
    ensures Count(SubtitleArgs(subs), x) == if subs != [] && (x == "-map" || x == "-c:s") then 1 else 0
  {
    if subs != [] {
      var spec, lang := "0:" + subs[0].index, "language=" + subs[0].language;
      SpecifierIsNotFlag(subs[0].index, x);
      LanguageIsNotFlag(subs[0].language, x);
      CountCons(lang, [], x);
      CountCons("-metadata:s:s:0", [lang], x);
      CountCons("mov_text", ["-metadata:s:s:0", lang], x);
      CountCons("-c:s", ["mov_text", "-metadata:s:s:0", lang], x);
      CountCons(spec, ["-c:s", "mov_text", "-metadata:s:s:0", lang], x);
      CountCons("-map", [spec, "-c:s", "mov_text", "-metadata:s:s:0", lang], x);
    }
  }

  /** The flags after the input part and before the output file, counted piece by piece. */
  lemma CountMiddle(input: string, temp: string, mode: Mode, videoCodec: Option<string>,
                    audio: seq<string>, subs: seq<Subtitle>, x: string)
    ensures var cmd := FfmpegCommand(input, temp, mode, videoCodec, audio, subs);
            Count(cmd[4..|cmd| - 1], x)
              == Count(ModeFlags(mode, videoCodec), x) + Count(AudioMapArgs(audio), x) + Count(SubtitleArgs(subs), x)
  {
    var flags := ModeFlags(mode, videoCodec);
    var maps := AudioMapArgs(audio);
    var subArgs := SubtitleArgs(subs);
    MiddleOfFive(InputArgs(input), flags, maps, subArgs, temp);
    CountAppend(flags + maps, subArgs, x);
    CountAppend(flags, maps, x);
  }

  /** What lies between a four-element head and the last element. */
  lemma MiddleOfFive(head: seq<string>, f: seq<string>, a: seq<string>, s: seq<string>, last: string)
    requires |head| == 4
    ensures var all := head + f + a + s + [last];
            all[4..|all| - 1] == f + a + s
  {
    var all := head + f + a + s + [last];
    assert all == head + (f + a + s) + [last];
  }

  /**
   * Between the input part and the output file, the vector maps the first video stream,
   * each kept audio stream once and at most one subtitle: the number of `-map` flags is
   * 1 + |audio| (+1 with a subtitle), and `-c:s` occurs exactly once with a subtitle and
   * not at all without.
   */
  lemma StreamMapCounts(input: string, temp: string, mode: Mode, videoCodec: Option<string>,
                        audio: seq<string>, subs: seq<Subtitle>)
    ensures var cmd := FfmpegCommand(input, temp, mode, videoCodec, audio, subs);
            && Count(cmd[4..|cmd| - 1], "-map") == 1 + |audio| + (if subs == [] then 0 else 1)
            && Count(cmd[4..|cmd| - 1], "-c:s") == (if subs == [] then 0 else 1)
  {
    CountMiddle(input, temp, mode, videoCodec, audio, subs, "-map");
    CountMiddle(input, temp, mode, videoCodec, audio, subs, "-c:s");
    AudioMapArgsCount(audio, "-map");
    AudioMapArgsCount(audio, "-c:s");
    SubtitleArgsCount(subs, "-map");
    SubtitleArgsCount(subs, "-c:s");
    ModeFlagsCount(mode, videoCodec, "-map");
    ModeFlagsCount(mode, videoCodec, "-c:s");
  }

  /** The flags that map, encode or tag a stream. */
  predicate StreamFlag(x: string) {
    x == "-map" || x == "-c:s" || x == "-tag:v" || x == "-metadata:s:s:0"
  }

  /**
   * A shape every stream flag has: `-ma…`, `-me…`, `-t…` or `-c?s…`. An argument without it is no
   * stream flag, which is decided character by character.
   */
  predicate FlagShape(y: string) {
    && |y| >= 4 && y[0] == '-'
    && ((y[1] == 'm' && (y[2] == 'a' || y[2] == 'e')) || y[1] == 't' || (y[1] == 'c' && y[3] == 's'))
  }

  /** A list none of whose arguments has the shape holds no stream flag. */
  lemma ShapelessCount(args: seq<string>, x: string)
    requires StreamFlag(x)
    requires forall i :: 0 <= i < |args| ==> !FlagShape(args[i])
    ensures Count(args, x) == 0
  {
    assert FlagShape(x);
    CountZero(args, x);
  }

  /** No stream flag is among the video encoding flags. */
  lemma EncodeVideoCount(x: string)
    requires StreamFlag(x)
    ensures Count(EncodeVideoFlags, x) == 0
  {
    ShapelessCount(EncodeVideoFlags, x);
  }

  /** No stream flag is among the audio encoding flags. */
  lemma EncodeAudioCount(x: string)
    requires StreamFlag(x)
    ensures Count(EncodeAudioFlags, x) == 0
  {
    ShapelessCount(EncodeAudioFlags, x);
  }

  /** No stream flag is among the copy flags. */
  lemma CopyCount(x: string)
    requires StreamFlag(x)
    ensures Count(CopyFlags, x) == 0
  {
    ShapelessCount(CopyFlags, x);
  }

  /** No stream flag is among the output flags. */
  lemma OutputCount(x: string)
    requires StreamFlag(x)
    ensures Count(OutputFlags, x) == 0
  {
    ShapelessCount(OutputFlags, x);
  }

  /** The video mapping holds `-map` once and no other stream flag. */
  lemma VideoMapCount(x: string)
    requires StreamFlag(x)
    ensures Count(VideoMapFlags, x) == (if x == "-map" then 1 else 0)
  {
    assert "-map"[1] == 'm' && "-c:s"[1] == 'c' && "-tag:v"[1] == 't';
    var rest := VideoMapFlags[1..];
    assert VideoMapFlags == ["-map"] + rest;
    CountZero(rest, x);
    CountCons("-map", rest, x);
  }

  /** The HEVC tag holds `-tag:v` once and no other stream flag. */
  lemma HevcTagCount(x: string)
    requires StreamFlag(x)
    ensures Count(HevcTag, x) == (if x == "-tag:v" then 1 else 0)
  {
    CountCons("hvc1", [], x);
    CountCons("-tag:v", ["hvc1"], x);
  }

  lemma ModeFlagsCount(mode: Mode, videoCodec: Option<string>, x: string)
    requires StreamFlag(x)
    ensures Count(ModeFlags(mode, videoCodec), x) == (
      if x == "-map" then 1
      else if x == "-tag:v" && (mode == Encode || videoCodec == Some("hevc")) then 1
      else 0)
  {
    EncodeVideoCount(x);
    EncodeAudioCount(x);
    CopyCount(x);
    OutputCount(x);
    VideoMapCount(x);
    HevcTagCount(x);
    CountAppend(EncodeVideoFlags, EncodeAudioFlags, x);
    CountAppend(EncodeVideoFlags + EncodeAudioFlags, VideoMapFlags, x);
    CountAppend(EncodeVideoFlags + EncodeAudioFlags + VideoMapFlags, HevcTag, x);
    CountAppend(EncodeVideoFlags + EncodeAudioFlags + VideoMapFlags + HevcTag, OutputFlags, x);
    CountAppend(CopyFlags, VideoMapFlags, x);
    CountAppend(CopyFlags + VideoMapFlags, OutputFlags, x);
    CountAppend(RemuxFlags, HevcTag, x);
  }

  /**
   * The Apple HEVC tag `-tag:v hvc1` is in the vector exactly when encoding (always H.265)
   * or when copying a source whose video codec is `hevc`.
   */
  lemma Hvc1TagIff(input: string, temp: string, mode: Mode, videoCodec: Option<string>,
                   audio: seq<string>, subs: seq<Subtitle>)
    ensures HasPair(FfmpegCommand(input, temp, mode, videoCodec, audio, subs), "-tag:v", "hvc1")
        <==> mode == Encode || videoCodec == Some("hevc")
  {
    if mode == Encode || videoCodec == Some("hevc") {
      Hvc1TagPresent(input, temp, mode, videoCodec, audio, subs);
    } else {
      Hvc1TagAbsent(input, temp, videoCodec, audio, subs);
    }
  }

  lemma Hvc1TagPresent(input: string, temp: string, mode: Mode, videoCodec: Option<string>,
                       audio: seq<string>, subs: seq<Subtitle>)
    requires mode == Encode || videoCodec == Some("hevc")
    ensures HasPair(FfmpegCommand(input, temp, mode, videoCodec, audio, subs), "-tag:v", "hvc1")
  {
    var flags := ModeFlags(mode, videoCodec);
    HevcTagInModeFlags(mode, videoCodec);
    PairPrefix(InputArgs(input), flags, "-tag:v", "hvc1");
    PairSuffix(InputArgs(input) + flags, AudioMapArgs(audio), "-tag:v", "hvc1");
    PairSuffix(InputArgs(input) + flags + AudioMapArgs(audio), SubtitleArgs(subs), "-tag:v", "hvc1");
    PairSuffix(InputArgs(input) + flags + AudioMapArgs(audio) + SubtitleArgs(subs), [temp], "-tag:v", "hvc1");
  }

  lemma Hvc1TagAbsent(input: string, temp: string, videoCodec: Option<string>,
                      audio: seq<string>, subs: seq<Subtitle>)
    requires videoCodec != Some("hevc")
    ensures !HasPair(FfmpegCommand(input, temp, Remux, videoCodec, audio, subs), "-tag:v", "hvc1")
  {
    var cmd := FfmpegCommand(input, temp, Remux, videoCodec, audio, subs);
    CountMiddle(input, temp, Remux, videoCodec, audio, subs, "-tag:v");
    AudioMapArgsCount(audio, "-tag:v");
    SubtitleArgsCount(subs, "-tag:v");
    ModeFlagsCount(Remux, videoCodec, "-tag:v");
    CountZero(cmd[4..|cmd| - 1], "-tag:v");
    assert cmd[0] == "ffmpeg" && cmd[1] == "-i" && cmd[3] == "-y";
    NoPairAfterInput(cmd, "-tag:v", "hvc1");
  }

  /** The mode's own flags carry the HEVC tag when encoding or copying HEVC. */
  lemma HevcTagInModeFlags(mode: Mode, videoCodec: Option<string>)
    requires mode == Encode || videoCodec == Some("hevc")
    ensures HasPair(ModeFlags(mode, videoCodec), "-tag:v", "hvc1")
  {
    if mode == Encode {
      PairInside(EncodeVideoFlags + EncodeAudioFlags + VideoMapFlags, OutputFlags, "-tag:v", "hvc1");
    } else {
      PairInside(RemuxFlags, [], "-tag:v", "hvc1");
      assert RemuxFlags + HevcTag + [] == ModeFlags(mode, videoCodec);
    }
  }

  /** A pair written out between two pieces is found. */
  lemma PairInside(x: seq<string>, y: seq<string>, a: string, b: string)
    ensures HasPair(x + [a, b] + y, a, b)
  {
    var s := x + [a, b] + y;
    assert s[|x|] == a && s[|x| + 1] == b;
  }

  /** A pair stays a pair when something is put before it... */
  lemma PairPrefix(x: seq<string>, m: seq<string>, a: string, b: string)
    requires HasPair(m, a, b)
    ensures HasPair(x + m, a, b)
  {
    var i :| 0 <= i < |m| - 1 && m[i] == a && m[i + 1] == b;
    var s := x + m;
    assert s[|x| + i] == a && s[|x| + i + 1] == b;
  }

  /** ... or after it. */
  lemma PairSuffix(m: seq<string>, y: seq<string>, a: string, b: string)
    requires HasPair(m, a, b)
    ensures HasPair(m + y, a, b)
  {
    var i :| 0 <= i < |m| - 1 && m[i] == a && m[i + 1] == b;
    var s := m + y;
    assert s[i] == a && s[i + 1] == b;
  }

  /**
   * In a vector `ffmpeg -i <input> -y ... <output>`, a flag that is none of `ffmpeg`, `-i`,
   * `-y` and is absent between the input part and the output starts no pair.
   */
  lemma NoPairAfterInput(s: seq<string>, a: string, b: string)
    requires |s| >= 5 && s[0] != a && s[1] != a && s[3] != a && s[3] != b && a !in s[4..|s| - 1]
    ensures !HasPair(s, a, b)
  {
    forall i | 4 <= i < |s| - 1
      ensures s[i] != a
    {
      assert s[i] == s[4..|s| - 1][i - 4];
    }
  }
}
