/**
 * What the two scanner scripts share: the `ffprobe` vector that asks for the audio codec
 * names of one file, the reading of its result, and how the scanned root is chosen.
 */
module Scanning {
  import opened Options
  import opened Text
  import opened Probe

  /** The probe vector: audio streams only, codec names only, as JSON, the file last. */
  function ScanProbeArgs(path: string): (r: seq<string>)
    ensures |r| == 10 && r[9] == path
    ensures r[3] == "-select_streams" && r[4] == "a" && r[5] == "-show_entries" && r[6] == "stream=codec_name"
  {
    ["ffprobe", "-v", "error", "-select_streams", "a", "-show_entries", "stream=codec_name", "-of", "json", path]
  }

  /** Only the last argument depends on the file. */
  lemma ScanProbeArgsFixed(p: string, q: string)
    ensures ScanProbeArgs(p)[..9] == ScanProbeArgs(q)[..9]
  {
  }

  /** A stream whose `codec_name` is present and not empty (Python's truth test on it). */
  predicate HasCodecName(s: Stream) {
    s.codecName.Some? && s.codecName.value != ""
  }

  /** The codec names of the streams that have one, in stream order (CodecNamesMembers says which). */
  function CodecNames(streams: seq<Stream>): (r: seq<string>)
    ensures |r| <= |streams|
  {
    if streams == [] then [] else CodecNameOf(streams[0]) + CodecNames(streams[1..])
  }

  /** Exactly the present, non-empty codec names are kept. */
  lemma {:induction false} CodecNamesMembers(streams: seq<Stream>)
    ensures forall c :: c in CodecNames(streams) ==> c != ""
    ensures forall s :: s in streams && HasCodecName(s) ==> s.codecName.value in CodecNames(streams)
    ensures forall c :: c in CodecNames(streams) ==> exists s :: s in streams && HasCodecName(s) && s.codecName.value == c
  {
    if streams != [] {
      CodecNamesMembers(streams[1..]);
      assert forall s :: s in streams <==> s == streams[0] || s in streams[1..];
    }
  }

  /** What one stream contributes. */
  function CodecNameOf(s: Stream): seq<string> {
    if HasCodecName(s) then [s.codecName.value] else []
  }

  /** The names keep stream order. */
  lemma {:induction false} CodecNamesAppend(a: seq<Stream>, b: seq<Stream>)
    ensures CodecNames(a + b) == CodecNames(a) + CodecNames(b)
  {
    if a == [] {
      assert a + b == b;
    } else {
      var ab := a + b;
      assert ab[0] == a[0] && ab[1..] == a[1..] + b;
      CodecNamesAppend(a[1..], b);
    }
  }

  /**
   * `audio_codecs`: nothing when the probe failed (`ffprobe` exiting non-zero, or output that
   * is not JSON), otherwise the codec names of the reported streams.
   */
  function AudioCodecs(probe: Option<Payload>): (r: Option<seq<string>>)
    ensures r.None? <==> probe.None?
    ensures r.Some? ==> r.value == CodecNames(Streams(probe.value))
  {
    match probe
    case None => None
    case Some(p) => Some(CodecNames(Streams(p)))
  }

  /** A payload without a `streams` key reads as a file without audio: an empty list, not a failure. */
  lemma NoStreamsKeyNoCodecs()
    ensures AudioCodecs(Some(Payload(None))) == Some([])
  {
  }

  /** The root to scan: the first argument, or the current directory. */
  function Root(argv: seq<string>): (r: string)
    ensures |argv| > 1 ==> r == argv[1]
    ensures |argv| <= 1 ==> r == "."
  {
    if |argv| > 1 then argv[1] else "."
  }
}
