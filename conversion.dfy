/**
 * The decision part of `convert_to_mp4`: probe the file three times (audio streams, all
 * streams, subtitle streams), select what to keep, refuse the file when there is no English
 * audio or when an AV1 video would have to be copied, and otherwise run `ffmpeg`.
 */
module Conversion {
  import opened Options
  import opened Text
  import opened Probe
  import opened Selection
  import opened Commands

  /**
   * The three probe results of one file, in the order they are taken. `None` stands for a
   * probe that raised: `ffprobe` exiting non-zero, or output that is not JSON.
   */
  datatype Probes = Probes(audio: Option<Payload>, video: Option<Payload>, subtitles: Option<Payload>)

  predicate ProbesOk(p: Probes) {
    p.audio.Some? && p.video.Some? && p.subtitles.Some?
  }

  /** Why a file is not converted, or the `ffmpeg` vector to run for it. */
  datatype Decision = ProbeFailed | NoEnglishAudio | Av1NeedsEncode | Run(cmd: seq<string>)

  function AudioOf(p: Probes): seq<string>
    requires ProbesOk(p)
  {
    EnglishAudioIndices(Streams(p.audio.value))
  }

  function VideoOf(p: Probes): Option<string>
    requires ProbesOk(p)
  {
    VideoCodec(Streams(p.video.value))
  }

  function SubtitlesOf(p: Probes): seq<Subtitle>
    requires ProbesOk(p)
  {
    SubtitleStreams(Streams(p.subtitles.value))
  }

  /**
   * What `convert_to_mp4` decides before starting `ffmpeg`. A failed probe ends it first;
   * then a file without English (or undetermined) audio is refused, whatever its video;
   * then copying AV1 video is refused; otherwise the vector is built from the selections.
   */
  function Decide(input: string, temp: string, mode: Mode, p: Probes): (r: Decision)
    ensures r.ProbeFailed? <==> !ProbesOk(p)
    ensures r.NoEnglishAudio? <==> ProbesOk(p) && AudioOf(p) == []
    ensures r.Av1NeedsEncode? <==> ProbesOk(p) && AudioOf(p) != [] && mode == Remux && VideoOf(p) == Some("av1")
    ensures r.Run? ==> ProbesOk(p) && r.cmd == FfmpegCommand(input, temp, mode, VideoOf(p), AudioOf(p), SubtitlesOf(p))
  {
    if !ProbesOk(p) then ProbeFailed
    else
      var audio := AudioOf(p);
      var video := VideoOf(p);
      if audio == [] then NoEnglishAudio
      else if mode == Remux && video == Some("av1") then Av1NeedsEncode
      else Run(FfmpegCommand(input, temp, mode, video, audio, SubtitlesOf(p)))
  }

  /**
   * `convert_to_mp4`: true exactly when a vector was built and `ffmpeg` then succeeded.
   * `ffmpegOk` is the outcome of running the vector, which this model does not compute.
   */
  method ConvertToMp4(input: string, temp: string, mode: Mode, p: Probes, ffmpegOk: bool) returns (ok: bool)
    ensures ok <==> Decide(input, temp, mode, p).Run? && ffmpegOk
  {
    if !ProbesOk(p) {
      return false;
    }
    var audio := EnglishAudioIndices(Streams(p.audio.value));
    var video := VideoCodec(Streams(p.video.value));
    var subs := SubtitleStreams(Streams(p.subtitles.value));
    if audio == [] {
      return false;
    }
    if mode == Remux && video == Some("av1") {
      return false;
    }
    var cmd := BuildFfmpegCommand(input, temp, mode, video, audio, subs);
    ok := ffmpegOk;
  }

  /** The English-audio check comes first: without such audio the file is refused as such, in either mode and for any video. */
  lemma NoEnglishAudioFirst(input: string, temp: string, mode: Mode, p: Probes)
    requires ProbesOk(p) && forall s :: s in Streams(p.audio.value) ==> !IsEnglishOrUnd(s)
    ensures Decide(input, temp, mode, p) == NoEnglishAudio
  {
    EnglishAudioIndicesEmpty(Streams(p.audio.value));
  }

  /** Encoding never refuses a file for its video codec: with probes and English audio it always runs. */
  lemma EncodeAlwaysRuns(input: string, temp: string, p: Probes, s: Stream)
    requires ProbesOk(p) && s in Streams(p.audio.value) && IsEnglishOrUnd(s)
    ensures Decide(input, temp, Encode, p).Run?
  {
    assert Decimal(s.index) in AudioOf(p);
  }

  /**
   * A vector that is run maps at least one English (or undetermined) audio stream: right
   * after the mode's flags stands `-map 0:<n>` where `n` reads back as that stream's number.
   */
  lemma RunMapsEnglishAudio(input: string, temp: string, mode: Mode, p: Probes)
    requires Decide(input, temp, mode, p).Run?
    ensures var cmd := Decide(input, temp, mode, p).cmd;
            var at := 4 + |ModeFlags(mode, VideoOf(p))|;
            && at + 1 < |cmd| && cmd[at] == "-map" && |cmd[at + 1]| > 2 && cmd[at + 1][..2] == "0:"
            && exists s :: s in Streams(p.audio.value) && IsEnglishOrUnd(s) && ParseDecimal(cmd[at + 1][2..]) == Some(s.index)
  {
    var audio := AudioOf(p);
    var cmd := Decide(input, temp, mode, p).cmd;
    AudioMappedInOrder(input, temp, mode, VideoOf(p), audio, SubtitlesOf(p), 0);
    var at := 4 + |ModeFlags(mode, VideoOf(p))|;
    assert cmd[at..at + 4][1] == "0:" + audio[0];
    assert cmd[at + 1][2..] == audio[0];
    EnglishAudioIndexDenotesStream(Streams(p.audio.value), audio[0]);
  }

  /** Copying is refused for AV1 video only; any other first video codec (or none) is copied. */
  lemma RemuxRefusesOnlyAv1(input: string, temp: string, p: Probes)
    requires ProbesOk(p) && AudioOf(p) != []
    ensures Decide(input, temp, Remux, p).Run? <==> VideoOf(p) != Some("av1")
  {
  }
}
