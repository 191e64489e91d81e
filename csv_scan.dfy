/**
 * The CSV scanner: one `Filename,AudioCodec` row per MP4 file under the root whose probe
 * succeeded, written both to `AudioScan_output.txt` and to standard output.
 */
module CsvScan {
  import opened Options
  import opened Text
  import opened Probe
  import opened Scanning

  const Header: seq<string> := ["Filename", "AudioCodec"]

  /** The codec column: `unknown` for a file without audio, otherwise the names joined by `;`. */
  function CodecValue(codecs: seq<string>): (r: string)
    ensures codecs == [] ==> r == "unknown"
    ensures |codecs| == 1 ==> r == codecs[0]
  {
    if codecs == [] then "unknown" else Join(';', codecs)
  }

  /** The column reads back as the codec list, as long as no codec name holds a `;`. */
  lemma CodecValueRoundTrip(codecs: seq<string>)
    requires codecs != [] && forall k :: 0 <= k < |codecs| ==> ';' !in codecs[k]
    ensures Split(CodecValue(codecs), ';') == codecs
  {
    SplitJoin(';', codecs);
  }

  /** The row of one file whose probe succeeded. */
  function Row(path: string, codecs: seq<string>): seq<string> {
    [path, CodecValue(codecs)]
  }

  /** The rows after the header: one per path whose probe succeeded, in path order. */
  function CsvRows(paths: seq<string>, probe: string -> Option<Payload>): (r: seq<seq<string>>)
    ensures |r| <= |paths|
  {
    if paths == [] then [] else RowOf(paths[0], probe) + CsvRows(paths[1..], probe)
  }

  /**
   * Every row names a path whose probe succeeded and holds that path's codec column; every
   * such path has its row.
   */
  lemma {:induction false} CsvRowsMembers(paths: seq<string>, probe: string -> Option<Payload>)
    ensures forall row :: row in CsvRows(paths, probe) ==>
              exists p :: p in paths && AudioCodecs(probe(p)).Some? && row == Row(p, AudioCodecs(probe(p)).value)
    ensures forall p :: p in paths && AudioCodecs(probe(p)).Some? ==> Row(p, AudioCodecs(probe(p)).value) in CsvRows(paths, probe)
  {
    if paths != [] {
      CsvRowsMembers(paths[1..], probe);
      assert forall p :: p in paths <==> p == paths[0] || p in paths[1..];
    }
  }

  /** What one path contributes. */
  function RowOf(path: string, probe: string -> Option<Payload>): (r: seq<seq<string>>)
    ensures |r| <= 1
    ensures r != [] <==> probe(path).Some?
    ensures r != [] ==> r[0] == Row(path, CodecNames(Streams(probe(path).value)))
  {
    match AudioCodecs(probe(path))
    case None => []
    case Some(codecs) => [Row(path, codecs)]
  }

  /** Rows keep path order. */
  lemma {:induction false} CsvRowsAppend(a: seq<string>, b: seq<string>, probe: string -> Option<Payload>)
    ensures CsvRows(a + b, probe) == CsvRows(a, probe) + CsvRows(b, probe)
  {
    if a == [] {
      assert a + b == b;
    } else {
      var ab := a + b;
      assert ab[0] == a[0] && ab[1..] == a[1..] + b;
      CsvRowsAppend(a[1..], b, probe);
    }
  }

  lemma CsvRowsSnoc(a: seq<string>, p: string, probe: string -> Option<Payload>)
    ensures CsvRows(a + [p], probe) == CsvRows(a, probe) + RowOf(p, probe)
  {
    CsvRowsAppend(a, [p], probe);
    assert [p][1..] == [];
  }

  /** One more path: its row, if any, follows the rows so far. */
  lemma RowsStep(written: seq<seq<string>>, paths: seq<string>, i: nat, probe: string -> Option<Payload>)
    requires i < |paths|
    ensures written + CsvRows(paths[..i + 1], probe) == written + CsvRows(paths[..i], probe) + RowOf(paths[i], probe)
  {
    assert paths[..i + 1] == paths[..i] + [paths[i]];
    CsvRowsSnoc(paths[..i], paths[i], probe);
  }

  /**
   * `main`: exit status 2 before any row when the root does not exist; otherwise the header
   * and then one row per successfully probed path, the same rows to the file and to
   * standard output, and status 0.
   */
  method ScanToCsv(argv: seq<string>, existing: set<string>, paths: seq<string>, probe: string -> Option<Payload>)
    returns (status: int, fileRows: seq<seq<string>>, stdoutRows: seq<seq<string>>)
    ensures Root(argv) !in existing ==> status == 2 && fileRows == [] && stdoutRows == []
    ensures Root(argv) in existing ==> status == 0 && fileRows == stdoutRows == [Header] + CsvRows(paths, probe)
  {
    fileRows, stdoutRows := [], [];
    var root := if |argv| > 1 then argv[1] else ".";
    if root !in existing {
      return 2, fileRows, stdoutRows;
    }
    fileRows := fileRows + [Header];
    stdoutRows := stdoutRows + [Header];
    fileRows, stdoutRows := WriteRows(fileRows, paths, probe);
    status := 0;
  }

  /**
   * The loop of `main`: for each path in order, a file whose probe failed is skipped (the
   * loop continues), any other gets its row, written to both writers.
   */
  method WriteRows(written: seq<seq<string>>, paths: seq<string>, probe: string -> Option<Payload>)
    returns (fileRows: seq<seq<string>>, stdoutRows: seq<seq<string>>)
    ensures fileRows == stdoutRows == written + CsvRows(paths, probe)
  {
    fileRows, stdoutRows := written, written;
    for i := 0 to |paths|
      invariant fileRows == written + CsvRows(paths[..i], probe)
      invariant stdoutRows == fileRows
    {
      var codecs := AudioCodecs(probe(paths[i]));
      RowsStep(written, paths, i, probe);
      if codecs.Some? {
        var codecValue := if codecs.value != [] then Join(';', codecs.value) else "unknown";
        var row := [paths[i], codecValue];
        assert RowOf(paths[i], probe) == [row];
        fileRows := fileRows + [row];
        stdoutRows := stdoutRows + [row];
      }
    }
    assert paths[..|paths|] == paths;
  }
}
