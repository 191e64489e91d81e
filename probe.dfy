/**
 * What one `ffprobe -show_streams -print_format json` call hands back, as already-parsed
 * records: the JSON object, whose `streams` key may be missing, and one record per stream.
 */
module Probe {
  import opened Options

  /**
   * One entry of the `streams` array. `index` is the stream's number in the file;
   * `codec_type` and `codec_name` may be absent; an absent `tags` object is the empty map.
   */
  datatype Stream = Stream(
    index: int,
    codecType: Option<string>,
    codecName: Option<string>,
    tags: map<string, string>)

  /** The decoded JSON object of one probe. */
  datatype Payload = Payload(streams: Option<seq<Stream>>)

  /** `payload.get("streams", [])`. */
  function Streams(p: Payload): (r: seq<Stream>)
    ensures p.streams.Some? ==> r == p.streams.value
    ensures p.streams.None? ==> r == []
  {
    p.streams.GetOr([])
  }

  /** `s.get("tags", {}).get(key, default)`. */
  function Tag(s: Stream, key: string, default: string): (r: string)
    ensures key in s.tags ==> r == s.tags[key]
    ensures key !in s.tags ==> r == default
  {
    if key in s.tags then s.tags[key] else default
  }

  /** The stream's language tag; a stream without one counts as undetermined, `und`. */
  function Language(s: Stream): (r: string)
    ensures "language" in s.tags ==> r == s.tags["language"]
    ensures "language" !in s.tags ==> r == "und"
  {
    Tag(s, "language", "und")
  }
}
