/**
 * The DTS scanner: print every MP4 file under the root whose audio is DTS and nothing else.
 */
module DtsScan {
  import opened Options
  import opened Text
  import opened Probe
  import opened Scanning

  /** One codec name is a DTS variant: it starts with `dts` in any case (`dts`, `DTS-HD`, `dtshd`). */
  predicate IsDts(c: string) {
    StartsWith(Lower(c), "dts")
  }

  /** Every codec in the list is a DTS variant. */
  function AllDts(codecs: seq<string>): (r: bool)
    ensures r <==> forall c :: c in codecs ==> IsDts(c)
  {
    if codecs == [] then true
    else
      assert forall c :: c in codecs <==> c == codecs[0] || c in codecs[1..];
      IsDts(codecs[0]) && AllDts(codecs[1..])
  }

  /** `is_dts_only`: a file without audio is not DTS-only; otherwise every track must be DTS. */
  function IsDtsOnly(codecs: seq<string>): (r: bool)
    ensures codecs == [] ==> !r
    ensures codecs != [] ==> (r <==> forall c :: c in codecs ==> IsDts(c))
  {
    if codecs == [] then false else AllDts(codecs)
  }

  /** A DTS track next to any other track does not make the file DTS-only. */
  lemma MixedIsNotDtsOnly(codecs: seq<string>, i: nat)
    requires i < |codecs| && !IsDts(codecs[i])
    ensures !IsDtsOnly(codecs)
  {
    assert codecs[i] in codecs;
  }

  /** The files the loop prints: those whose probe succeeded and whose audio is DTS only. */
  predicate Printed(probe: Option<Payload>) {
    var codecs := AudioCodecs(probe);
    codecs.Some? && IsDtsOnly(codecs.value)
  }

  /** The loop over the sorted paths: exactly the printed files, in path order. */
  function DtsOnlyPaths(paths: seq<string>, probe: string -> Option<Payload>): (r: seq<string>)
    ensures |r| <= |paths|
    ensures forall p :: p in r <==> p in paths && Printed(probe(p))
  {
    if paths == [] then []
    else
      var rest := DtsOnlyPaths(paths[1..], probe);
      assert forall p :: p in paths <==> p == paths[0] || p in paths[1..];
      (if Printed(probe(paths[0])) then [paths[0]] else []) + rest
  }

  /** The output keeps path order. */
  lemma {:induction false} DtsOnlyPathsAppend(a: seq<string>, b: seq<string>, probe: string -> Option<Payload>)
    ensures DtsOnlyPaths(a + b, probe) == DtsOnlyPaths(a, probe) + DtsOnlyPaths(b, probe)
  {
    if a == [] {
      assert a + b == b;
    } else {
      var ab := a + b;
      assert ab[0] == a[0] && ab[1..] == a[1..] + b;
      DtsOnlyPathsAppend(a[1..], b, probe);
    }
  }

  /** A file whose probe failed is never printed. */
  lemma FailedProbeNotPrinted(paths: seq<string>, probe: string -> Option<Payload>, p: string)
    requires probe(p).None?
    ensures p !in DtsOnlyPaths(paths, probe)
  {
  }

  /** The exit status and the printed lines of `main`. */
  datatype Outcome = Outcome(status: int, printed: seq<string>)

  /**
   * `main`: status 2 and nothing printed when the root does not exist; otherwise status 0
   * and the DTS-only files among `paths`, the sorted MP4 files under the root.
   */
  function ScanResult(argv: seq<string>, existing: set<string>, paths: seq<string>, probe: string -> Option<Payload>): (r: Outcome)
    ensures Root(argv) !in existing <==> r.status == 2
    ensures Root(argv) !in existing ==> r.printed == []
    ensures Root(argv) in existing ==> r.status == 0 && r.printed == DtsOnlyPaths(paths, probe)
  {
    if Root(argv) !in existing then Outcome(2, []) else Outcome(0, DtsOnlyPaths(paths, probe))
  }
}
