/**
 * The converter's command line: `<inputPath> <outputPath> <encode|remux> <true|false>`,
 * with the mode and the subfolder flag read case-insensitively.
 */
module Cli {
  import opened Options
  import opened Text
  import opened Commands

  /** What the command line asks for: one of three usage errors (exit status 1), or a run. */
  datatype Command =
    | Usage
    | BadMode
    | BadBool
    | Start(inputDir: string, outputDir: string, mode: Mode, subfolders: bool)

  const TrueTokens: set<string> := {"true", "t", "yes", "y", "1"}

  const FalseTokens: set<string> := {"false", "f", "no", "n", "0"}

  /** The lower-case word that names a mode. */
  function ModeName(m: Mode): string {
    match m
    case Encode => "encode"
    case Remux => "remux"
  }

  /** The mode a lower-cased token names, if any. */
  function ModeOf(token: string): (r: Option<Mode>)
    ensures r.Some? <==> token in {"encode", "remux"}
    ensures r.Some? ==> ModeName(r.value) == token
  {
    if token == "encode" then Some(Encode)
    else if token == "remux" then Some(Remux)
    else None
  }

  /**
   * The command line `argv` (the script name first). Fewer than four arguments is a usage
   * error; the mode is checked before the flag; the flag must be one of the true or false
   * words after lowering.
   */
  function ParseCommandLine(argv: seq<string>): (r: Command)
    ensures r.Usage? <==> |argv| < 5
    ensures r.BadMode? <==> |argv| >= 5 && Lower(argv[3]) !in {"encode", "remux"}
    ensures r.BadBool? <==> |argv| >= 5 && Lower(argv[3]) in {"encode", "remux"}
                            && Lower(argv[4]) !in TrueTokens && Lower(argv[4]) !in FalseTokens
    ensures r.Start? ==> && r.inputDir == argv[1] && r.outputDir == argv[2]
                         && ModeName(r.mode) == Lower(argv[3])
                         && (r.subfolders <==> Lower(argv[4]) in TrueTokens)
                         && (!r.subfolders <==> Lower(argv[4]) in FalseTokens)
  {
    if |argv| < 5 then Usage
    else
      var mode := ModeOf(Lower(argv[3]));
      var flag := Lower(argv[4]);
      if mode.None? then BadMode
      else if flag in TrueTokens then Start(argv[1], argv[2], mode.value, true)
      else if flag in FalseTokens then Start(argv[1], argv[2], mode.value, false)
      else BadBool
  }

  /** No word means both true and false, so the order of the two tests does not matter. */
  lemma TokensDisjoint()
    ensures TrueTokens * FalseTokens == {}
  {
    assert "true"[0] == 't' && "false"[0] == 'f' && "yes"[0] == 'y' && "no"[0] == 'n';
  }

  /** Lowering leaves a word that is already lower case unchanged. */
  lemma {:induction false} LowerOfLower(s: string)
    requires forall k :: 0 <= k < |s| ==> !('A' <= s[k] <= 'Z')
    ensures Lower(s) == s
  {
    if s != [] {
      LowerOfLower(s[1..]);
    }
  }

  /**
   * A command line whose lowered mode word names a mode and whose lowered flag is one of the
   * ten true or false words reads as that run, however the two words are capitalised.
   */
  lemma ParseStart(argv: seq<string>, m: Mode)
    requires |argv| >= 5 && Lower(argv[3]) == ModeName(m)
    requires Lower(argv[4]) in TrueTokens + FalseTokens
    ensures ParseCommandLine(argv) == Start(argv[1], argv[2], m, Lower(argv[4]) in TrueTokens)
  {
    assert "encode"[0] == 'e' && "remux"[0] == 'r';
  }

  /** Writing a run's own words back on the command line reads as that run. */
  lemma ParseRoundTrip(prog: string, input: string, output: string, m: Mode, subfolders: bool)
    ensures ParseCommandLine([prog, input, output, ModeName(m), if subfolders then "true" else "false"])
         == Start(input, output, m, subfolders)
  {
    var argv := [prog, input, output, ModeName(m), if subfolders then "true" else "false"];
    LowerOfLower(ModeName(m));
    LowerOfLower(argv[4]);
    assert "false"[0] == 'f';
    ParseStart(argv, m);
  }

  /**
   * Case does not matter: two command lines with the same paths whose mode and flag words
   * agree after lowering read alike, errors included.
   */
  lemma ParseIgnoresCase(argv: seq<string>, other: seq<string>)
    requires |argv| >= 5 && |other| >= 5 && argv[1] == other[1] && argv[2] == other[2]
    requires Lower(argv[3]) == Lower(other[3]) && Lower(argv[4]) == Lower(other[4])
    ensures ParseCommandLine(argv) == ParseCommandLine(other)
  {
  }
}
