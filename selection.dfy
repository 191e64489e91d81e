/**
 * Which streams of a probed file the converter keeps: the English (or undetermined) audio
 * streams, the codec of the first video stream, and the English (or undetermined) text
 * subtitles that an MP4 container can carry.
 */
module Selection {
  import opened Options
  import opened Text
  import opened Probe

  /** The language filter shared by audio and subtitles: `eng` or `und` (which includes untagged). */
  predicate IsEnglishOrUnd(s: Stream) {
    Language(s) == "eng" || Language(s) == "und"
  }

  // ---------------------------------------------------------------------------
  // Audio

  /**
   * The numbers, as decimal strings, of the audio streams to keep: exactly those of the
   * English or undetermined streams, in probe order.
   */
  function EnglishAudioIndices(streams: seq<Stream>): (r: seq<string>)
    ensures |r| <= |streams|
    ensures forall s :: s in streams && IsEnglishOrUnd(s) ==> Decimal(s.index) in r
    ensures forall x :: x in r ==> exists s :: s in streams && IsEnglishOrUnd(s) && x == Decimal(s.index)
  {
    if streams == [] then []
    else
      var rest := EnglishAudioIndices(streams[1..]);
      assert forall s :: s in streams ==> s == streams[0] || s in streams[1..];
      AudioIndexOf(streams[0]) + rest
  }

  /** What one stream contributes to the audio selection. */
  function AudioIndexOf(s: Stream): seq<string> {
    if IsEnglishOrUnd(s) then [Decimal(s.index)] else []
  }

  /** Selection keeps probe order: the selection of a concatenation is the concatenation of selections. */
  lemma {:induction false} EnglishAudioIndicesAppend(a: seq<Stream>, b: seq<Stream>)
    ensures EnglishAudioIndices(a + b) == EnglishAudioIndices(a) + EnglishAudioIndices(b)
  {
    if a != [] {
      assert (a + b)[0] == a[0] && (a + b)[1..] == a[1..] + b;
      EnglishAudioIndicesAppend(a[1..], b);
      calc {
        EnglishAudioIndices(a + b);
        AudioIndexOf(a[0]) + EnglishAudioIndices(a[1..] + b);
        AudioIndexOf(a[0]) + (EnglishAudioIndices(a[1..]) + EnglishAudioIndices(b));
        (AudioIndexOf(a[0]) + EnglishAudioIndices(a[1..])) + EnglishAudioIndices(b);
        EnglishAudioIndices(a) + EnglishAudioIndices(b);
      }
    } else {
      assert a + b == b;
    }
  }

  /** The selection is empty exactly when no stream is English or undetermined. */
  lemma {:induction false} EnglishAudioIndicesEmpty(streams: seq<Stream>)
    ensures EnglishAudioIndices(streams) == [] <==> forall s :: s in streams ==> !IsEnglishOrUnd(s)
  {
    if streams != [] {
      EnglishAudioIndicesEmpty(streams[1..]);
      assert forall s :: s in streams <==> s == streams[0] || s in streams[1..];
    }
  }

  /** Every selected index reads back as the number of an English or undetermined stream. */
  lemma EnglishAudioIndexDenotesStream(streams: seq<Stream>, x: string)
    requires x in EnglishAudioIndices(streams)
    ensures exists s :: s in streams && IsEnglishOrUnd(s) && ParseDecimal(x) == Some(s.index)
  {
    var s :| s in streams && IsEnglishOrUnd(s) && x == Decimal(s.index);
    DecimalRoundTrip(s.index);
  }

  // ---------------------------------------------------------------------------
  // Video

  predicate IsVideo(s: Stream) {
    s.codecType == Some("video")
  }

  /** Position `i` holds the first stream whose `codec_type` is `video`. */
  predicate FirstVideoAt(streams: seq<Stream>, i: int) {
    0 <= i < |streams| && IsVideo(streams[i]) && forall j :: 0 <= j < i ==> !IsVideo(streams[j])
  }

  /**
   * The lower-cased codec name of the first video stream (empty when that stream has no
   * codec name), or nothing when no stream is a video stream.
   */
  function VideoCodec(streams: seq<Stream>): (r: Option<string>)
    ensures r.Some? <==> exists i :: 0 <= i < |streams| && IsVideo(streams[i])
    ensures r.Some? ==> exists i :: FirstVideoAt(streams, i) && r.value == Lower(streams[i].codecName.GetOr(""))
  {
    if streams == [] then None
    else if IsVideo(streams[0]) then
      assert FirstVideoAt(streams, 0);
      Some(Lower(streams[0].codecName.GetOr("")))
    else
      var r := VideoCodec(streams[1..]);
      assert forall i :: 1 <= i < |streams| ==> streams[i] == streams[1..][i - 1];
      if r.Some? then
        var i :| FirstVideoAt(streams[1..], i) && r.value == Lower(streams[1..][i].codecName.GetOr(""));
        assert FirstVideoAt(streams, i + 1);
        r
      else r
  }

  // ---------------------------------------------------------------------------
  // Subtitles

  /** Text subtitle codecs that can be converted to MP4's `mov_text`. */
  const SubtitleCodecs: set<string> := {"subrip", "ass", "ssa", "mov_text"}

  /** The description of one kept subtitle stream. */
  datatype Subtitle = Subtitle(index: string, codec: string, language: string, title: string)

  predicate KeepSubtitle(s: Stream) {
    s.codecName.Some? && s.codecName.value in SubtitleCodecs && IsEnglishOrUnd(s)
  }

  /** The entry reported for a kept stream: its number, codec, language (`und` if untagged) and stripped title. */
  function SubtitleEntry(s: Stream): Subtitle {
    Subtitle(Decimal(s.index), s.codecName.GetOr("unknown"), Language(s), Strip(Tag(s, "title", "")))
  }

  /**
   * The subtitle streams to keep, in probe order: exactly those with an allowed codec and an
   * English or undetermined language, each described with a language of `eng` or `und`
   * and a title free of surrounding whitespace.
   */
  function SubtitleStreams(streams: seq<Stream>): (r: seq<Subtitle>)
    ensures |r| <= |streams|
    ensures forall s {:trigger s in streams} :: s in streams && KeepSubtitle(s) ==> SubtitleEntry(s) in r
    ensures forall t :: t in r ==> exists s :: s in streams && KeepSubtitle(s) && t == SubtitleEntry(s)
    ensures forall t :: t in r ==> WellFormedSubtitle(t)
  {
    if streams == [] then []
    else
      var rest := SubtitleStreams(streams[1..]);
      assert forall s :: s in streams ==> s == streams[0] || s in streams[1..];
      SubtitleOf(streams[0]) + rest
  }

  /** What one stream contributes to the subtitle selection. */
  function SubtitleOf(s: Stream): (r: seq<Subtitle>)
    ensures forall t :: t in r ==> WellFormedSubtitle(t)
  {
    if KeepSubtitle(s) then [SubtitleEntry(s)] else []
  }

  /** A reported subtitle: an allowed codec, language `eng` or `und`, no whitespace around the title. */
  predicate WellFormedSubtitle(t: Subtitle) {
    && t.codec in SubtitleCodecs
    && (t.language == "eng" || t.language == "und")
    && (t.title == [] || (!IsSpace(t.title[0]) && !IsSpace(t.title[|t.title| - 1])))
  }

  /** Subtitle selection keeps probe order. */
  lemma {:induction false} SubtitleStreamsAppend(a: seq<Stream>, b: seq<Stream>)
    ensures SubtitleStreams(a + b) == SubtitleStreams(a) + SubtitleStreams(b)
  {
    if a == [] {
      assert a + b == b;
    } else {
      var ab := a + b;
      assert ab[0] == a[0] && ab[1..] == a[1..] + b;
      var head := SubtitleOf(a[0]);
      assert SubtitleStreams(ab) == head + SubtitleStreams(a[1..] + b);
      assert SubtitleStreams(a) == head + SubtitleStreams(a[1..]);
      SubtitleStreamsAppend(a[1..], b);
    }
  }

  /** The first reported subtitle is the entry of the first stream in probe order that is kept. */
  lemma {:induction false} FirstSubtitle(streams: seq<Stream>, i: nat)
    requires i < |streams| && KeepSubtitle(streams[i])
    requires forall j :: 0 <= j < i ==> !KeepSubtitle(streams[j])
    ensures SubtitleStreams(streams) != [] && SubtitleStreams(streams)[0] == SubtitleEntry(streams[i])
  {
    if i > 0 {
      FirstSubtitle(streams[1..], i - 1);
    }
  }
}
