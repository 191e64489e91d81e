# MP4 converter pipeline: a Dafny model

This project models the Python batch converter `MP4_Converter.py` and its two audio-scanner
utilities, `Resources/ScanDTSAudioTracks_OutputTerminal.py` and
`Resources/ScanAudioTracks_ExportCSV.py`.

The converter takes a folder of `.mkv`/`.mp4`/`.avi` files and turns each one into an MP4. It
probes each file's streams with `ffprobe` and keeps the English (or undetermined) audio, the
first video stream and at most one English or undetermined text subtitle. It then builds an `ffmpeg` argument
vector, either re-encoding (H.265/AAC 5.1) or copying the streams. The result goes to a
temporary file, which is moved to `<output>/[<base>/]<base>.mp4`; after that the original is
deleted. The scanners walk a tree of MP4 files. One prints the files whose audio is DTS only.
The other writes a `Filename,AudioCodec` CSV.

Modules, one per file:

- `Options`, `Text`: an option type, and the Python string operations the code relies on. These are `lower`, `strip`, `startswith`/`endswith`, the substring test, `";".join` and `str(int)`. The programs never split a joined column or read a printed number back: `Text.Split` and `Text.ParseDecimal` are this model's own inverses of `";".join` and `str(int)`, there only for the round-trip lemmas.
- `Probe`: the parsed `ffprobe` JSON, given as records.
- `Selection`: the stream selection functions.
- `Commands`: the `ffprobe` and `ffmpeg` argument vectors. Each is a method that grows the vector in place as the source does, proved against a specification function.
- `Conversion`: the accept/reject decision of `convert_to_mp4`.
- `Folder`: the file filter, POSIX `os.path.join`/`splitext`, the output path, and a `FileSystem` class whose methods change a file map and a directory set. The per-file and per-folder loops are proved against the value-level `Step`/`Steps`.
- `Cli`: the command-line parsing of `__main__`.
- `Scanning`, `DtsScan`, `CsvScan`: the scanners.

The tool's current Swift version falls back to all audio when there is no English audio,
rejects DTS in remux mode, accepts `.mov` and `.m4v`, and checks for conflicts. The Python code
modelled here does none of these: it refuses a
file without English audio (`MP4_Converter.py:245-247`) and accepts only `.mkv`, `.mp4` and
`.avi`. The model follows the Python code.

## Model

| member | source | states |
|---|---|---|
| Text.Lower | MP4_Converter.py:185 | lowering keeps the length, lowers each character, and leaves no upper-case ASCII letter |
| Text.Strip | MP4_Converter.py:196 | the stripped title neither starts nor ends with whitespace (Python's `isspace` set) |
| Text.StripPadding | MP4_Converter.py:196 | what `strip` removes is exactly a leading and a trailing run of whitespace; the result is the piece of the input between them |
| Text.Join | Resources/ScanAudioTracks_ExportCSV.py:74 | `";".join`: empty for no pieces, the piece itself for one, and otherwise starts with the first piece and ends with the last |
| Text.SplitJoin | Resources/ScanAudioTracks_ExportCSV.py:74 | splitting a `;`-join of one or more pieces without `;` gives the pieces back |
| Text.NatToDecimal | MP4_Converter.py:177 | decimal digits, non-empty, no leading zero |
| Text.Decimal | MP4_Converter.py:177 | `str(n)` starts with `-` exactly for negative `n` |
| Text.NatToDecimalValue | MP4_Converter.py:177 | the digits of `n` have the value `n` |
| Text.DecimalRoundTrip | MP4_Converter.py:177 | reading `str(n)` back gives `n` |
| Text.DecimalInjective | MP4_Converter.py:193 | different stream numbers print differently |
| Probe.Streams | MP4_Converter.py:177 | `payload.get("streams", [])`: the stream list when the key is present, otherwise empty |
| Probe.Tag | MP4_Converter.py:195-196 | `s.get("tags", {}).get(key, default)`: the tag when present, otherwise the default |
| Probe.Language | MP4_Converter.py:178 | the language tag when present, otherwise `und` |
| Selection.EnglishAudioIndices | MP4_Converter.py:174-179 | every English or undetermined stream's number (a missing tag counts as `und`) is selected, only those, and no more entries than streams |
| Selection.EnglishAudioIndicesAppend | MP4_Converter.py:176-179 | selection keeps probe order: the selection of a concatenation is the concatenation of the selections |
| Selection.EnglishAudioIndicesEmpty | MP4_Converter.py:176-179 | the selection is empty exactly when no stream is English or undetermined |
| Selection.EnglishAudioIndexDenotesStream | MP4_Converter.py:177 | every selected string reads back as the number of a selected stream |
| Selection.VideoCodec | MP4_Converter.py:181-186 | there is a result exactly when some stream is a video stream, and it is the lowered codec name (`""` when absent) of the first one |
| Selection.SubtitleStreams | MP4_Converter.py:188-200 | a stream is reported iff its codec is subrip/ass/ssa/mov_text and its language is eng/und; each entry has language eng/und (`und` when untagged) and a title without surrounding whitespace |
| Selection.SubtitleStreamsAppend | MP4_Converter.py:191-199 | subtitle selection keeps probe order |
| Selection.FirstSubtitle | MP4_Converter.py:229 | the first reported subtitle is the first kept stream in probe order |
| Commands.CountAppend | MP4_Converter.py:202-232 | argument counts add up over concatenation |
| Commands.CountZero | MP4_Converter.py:202-232 | an argument is counted zero times iff it does not occur |
| Commands.Insert | MP4_Converter.py:168-169 | `list.insert` puts the element at the position, keeps what is before and shifts the rest by one |
| Commands.ProbeArgs | MP4_Converter.py:162-169 | the `ffprobe` vector ends with the input; with a non-empty stream kind, `-select_streams <kind>` is at positions 4 and 5 and removing them gives the plain vector; without one it is the plain vector |
| Commands.ModeFlags | MP4_Converter.py:204-219 | the mode's list opens with the video codec: `-c:v libx265` when encoding, `-c:v copy` when remuxing |
| Commands.ModeFlagsStreams | MP4_Converter.py:204-219 | encode sets `-c:a aac`, remux `-c:a copy`, and either maps `0:v:0`, each at its position in the mode's list |
| Commands.AudioMapArgs | MP4_Converter.py:222-225 | four arguments per kept audio stream |
| Commands.SubtitleArgs | MP4_Converter.py:227-230 | no arguments exactly without a kept subtitle; otherwise six, pairing `-map` with the first one's specifier, `-c:s` with `mov_text` and the subtitle metadata flag with its own language |
| Commands.FfmpegCommand | MP4_Converter.py:202-232 | the vector starts `ffmpeg -i <input> -y` and ends with the temporary file |
| Commands.BuildFfmpegCommand | MP4_Converter.py:202-232 | the in-place construction yields exactly the vector `FfmpegCommand` describes |
| Commands.StartCommand | MP4_Converter.py:204-219 | each mode's literal list (plus `-tag:v hvc1` when copying HEVC) is the input part followed by the mode's flags |
| Commands.AppendAudioMaps | MP4_Converter.py:222-225 | the audio loop appends the mappings of all indices, in order |
| Commands.AudioMapArgsAppend | MP4_Converter.py:223-225 | the audio mappings of a concatenation are the concatenated mappings |
| Commands.AudioMapArgsAt | MP4_Converter.py:223-225 | the k-th index contributes its four arguments at offset 4k |
| Commands.AudioMappedInOrder | MP4_Converter.py:221-225 | right after the mode's flags, the k-th audio index appears as `-map 0:<idx> -metadata:s:a:0 language=eng` |
| Commands.SubtitleMappedLast | MP4_Converter.py:227-231 | with a kept subtitle, the six arguments for the first one (`-c:s mov_text` and its own language) stand just before the output file |
| Commands.NoSubtitleArgs | MP4_Converter.py:227-230 | with no kept subtitle, between input part and output file there is no `-c:s`, no `-metadata:s:s:0`, and exactly 1 + audio `-map` flags |
| Commands.AudioMapArgsCount | MP4_Converter.py:223-225 | among the audio mappings `-map` occurs once per index and no other flag except the metadata flag occurs |
| Commands.SubtitleArgsCount | MP4_Converter.py:228-230 | the subtitle arguments hold `-map` and `-c:s` once each when a subtitle is kept, and nothing else that is a flag besides the metadata one |
| Commands.CountMiddle | MP4_Converter.py:202-232 | between input part and output file, counts split over the mode's flags, audio mappings and subtitle arguments |
| Commands.StreamMapCounts | MP4_Converter.py:209-230 | the vector maps the first video stream, each kept audio stream and at most one subtitle: 1 + audio (+1) `-map` flags, and `-c:s` once exactly with a subtitle |
| Commands.ModeFlagsCount | MP4_Converter.py:204-219 | each mode's flags map one stream, hold no subtitle codec or subtitle language, and carry `-tag:v` exactly when encoding or copying HEVC |
| Commands.Hvc1TagIff | MP4_Converter.py:204-219 | `-tag:v hvc1` is in the vector iff the mode is encode or the video codec is `hevc` |
| Commands.Hvc1TagPresent | MP4_Converter.py:210 | the pair is present when encoding or copying HEVC |
| Commands.Hvc1TagAbsent | MP4_Converter.py:212-219 | copying anything but HEVC produces no `-tag:v` at all |
| Conversion.Decide | MP4_Converter.py:234-253 | a failed probe, then missing English audio, then AV1 in remux mode refuse the file, each exactly in its case; otherwise the vector built from the selections runs |
| Conversion.ConvertToMp4 | MP4_Converter.py:234-272 | true exactly when a vector was built and `ffmpeg` succeeded |
| Conversion.NoEnglishAudioFirst | MP4_Converter.py:245-251 | without English or undetermined audio the file is refused for that reason, in either mode and whatever its video |
| Conversion.EncodeAlwaysRuns | MP4_Converter.py:249 | encode mode never refuses a file with English audio |
| Conversion.RunMapsEnglishAudio | MP4_Converter.py:241-253 | a vector that runs maps, right after the mode's flags, a stream whose number is that of an English or undetermined audio stream |
| Conversion.RemuxRefusesOnlyAv1 | MP4_Converter.py:249-251 | with English audio, remux runs iff the first video codec is not `av1` |
| Folder.CandidateFiles | MP4_Converter.py:303-306 | an entry is processed iff it ends in `.mkv`/`.mp4`/`.avi` and contains none of `sample`/`SAMPLE`/`Sample`/`.DS_Store` |
| Folder.CandidateFilesAppend | MP4_Converter.py:303-306 | the filter keeps listing order |
| Folder.PathJoin | MP4_Converter.py:310 | the joined path ends with the second part |
| Folder.RFind | MP4_Converter.py:311 | the result is the last position holding the character, or -1 |
| Folder.SplitExt | MP4_Converter.py:311 | root and extension concatenate to the name; the extension is empty or a dot followed by no dot or `/` (the last dot); a non-empty extension has a non-dot character before it in the last path component; an empty one means no dot follows a non-dot character there; a non-empty name has a non-empty root |
| Folder.VideoNameSplit | MP4_Converter.py:311 | a video name with a non-dot character before its extension loses exactly the four-character extension |
| Folder.DotsOnlyKeepWholeName | MP4_Converter.py:311 | a name of only dots before the extension (like `.mkv`) keeps its whole name as base |
| Folder.OutputPath | MP4_Converter.py:311-318 | the output path ends in `.mp4` |
| Folder.OutputPathShape | MP4_Converter.py:310-318 | the output is `<output>/<base>.mp4`, or `<output>/<base>/<base>.mp4` with subfolders, with the base a non-empty prefix of the name |
| Folder.SameBaseSameOutput | MP4_Converter.py:311-318 | two video names differing only in extension get the same output path |
| Folder.SameFolderOutputIsInput | MP4_Converter.py:310-318 | an `.mp4` input with input folder = output folder and no subfolders has its own path as output |
| Folder.Cleanup | MP4_Converter.py:346-349 | the handler's `os.remove`: afterwards the path holds no file, nothing else changes, and a missing file is no error |
| Folder.MoveFile | MP4_Converter.py:335 | `shutil.move`: the destination holds the source's data, the source is gone unless it is the destination, and no other path or directory changes |
| Folder.AfterConversion | MP4_Converter.py:328-349 | the `try` block with its handler changes no path but the original, temporary file and output, and adds at most the output folder |
| Folder.Step | MP4_Converter.py:320-350 | one loop iteration changes no path but the original, temporary file and output, and adds at most the output folder |
| Folder.Steps | MP4_Converter.py:309-350 | the loop over a batch never removes a directory |
| Folder.Jobs | MP4_Converter.py:309-321 | one resolved entry per name, in order |
| Folder.AfterConversionSuccess | MP4_Converter.py:326-339 | a completed `try` block puts the temporary file's data at the output path and removes original and temporary file |
| Folder.StepSuccess | MP4_Converter.py:320-339 | on success the output holds the converted input, the original and the temporary file are gone, and no other file changes |
| Folder.StepOriginalRemovedIff | MP4_Converter.py:326-350 | the original is deleted iff conversion, subfolder creation, size reads and move all succeed; a failure after a successful conversion removes the temporary file and leaves all files as they were |
| Folder.StepLeavesTempOnFailedConversion | MP4_Converter.py:320-341 | when the conversion reports failure the empty temporary file stays and nothing else changes |
| Folder.StepOutputOntoInput | MP4_Converter.py:335-339 | when output and original coincide, a successful step loses both |
| Folder.SameFolderLosesOutput | MP4_Converter.py:310-339 | converting an `.mp4` into its own folder without subfolders deletes the converted file along with the original |
| Folder.StepsFrame | MP4_Converter.py:309-350 | a whole batch leaves every other path as it was and only adds directories |
| Folder.FileSystem.IsDir | MP4_Converter.py:281 | true iff the path is a directory |
| Folder.FileSystem.Exists | MP4_Converter.py:332-333 | true iff the file exists |
| Folder.FileSystem.Write | MP4_Converter.py:259 | the file `ffmpeg` writes holds the given data, nothing else changes |
| Folder.FileSystem.CreateTemp | MP4_Converter.py:320-321 | an empty file appears under the fresh name |
| Folder.FileSystem.MakeDirs | MP4_Converter.py:330 | succeeds and adds the directory unless a file is in the way |
| Folder.FileSystem.Move | MP4_Converter.py:335 | succeeds iff the source exists and the destination folder exists, then the data lives at the destination |
| Folder.FileSystem.Remove | MP4_Converter.py:339 | succeeds iff the file exists, which is then gone |
| Folder.RunConversion | MP4_Converter.py:327 | succeeds iff `convert_to_mp4` does, and then the temporary file holds the converted input |
| Folder.FinishFile | MP4_Converter.py:328-349 | the operations of the `try` block and the handler's cleanup have the effect `AfterConversion` describes |
| Folder.ProcessFile | MP4_Converter.py:310-350 | one iteration has the effect `Step` describes |
| Folder.ProcessFiles | MP4_Converter.py:309-350 | the loop has the effect of the steps for all entries in order |
| Folder.ProcessFolder | MP4_Converter.py:274-350 | a missing input folder, then a missing output folder, stops before any change; otherwise the candidates are processed in order |
| Cli.ModeOf | MP4_Converter.py:367 | a mode is read iff the token is `encode` or `remux`, and it is the mode of that name |
| Cli.ParseCommandLine | MP4_Converter.py:357-384 | fewer than four arguments is a usage error; then a bad mode; then a flag that is neither true nor false word; otherwise a run with both paths, the named mode and the flag's truth value |
| Cli.TokensDisjoint | MP4_Converter.py:371-374 | no word is both a true and a false word |
| Cli.ParseRoundTrip | MP4_Converter.py:362-377 | a run's own words on the command line read as that run |
| Cli.ParseStart | MP4_Converter.py:362-377 | a command line whose lowered mode word names a mode and whose lowered flag is any of the ten true or false words reads as that run, with the flag's truth value |
| Cli.ParseIgnoresCase | MP4_Converter.py:364-365 | two command lines with the same paths whose mode and flag words agree after lowering read alike, errors included |
| Scanning.ScanProbeArgs | Resources/ScanDTSAudioTracks_OutputTerminal.py:15-26 | ten arguments selecting audio codec names, the file last |
| Scanning.CodecNamesMembers | Resources/ScanDTSAudioTracks_OutputTerminal.py:42-43 | exactly the present, non-empty codec names are kept |
| Scanning.CodecNamesAppend | Resources/ScanAudioTracks_ExportCSV.py:43-44 | codec names keep stream order |
| Scanning.CodecNames | Resources/ScanDTSAudioTracks_OutputTerminal.py:42-43 | at most one name per stream (CodecNamesMembers says which, CodecNamesAppend in what order) |
| Scanning.AudioCodecs | Resources/ScanDTSAudioTracks_OutputTerminal.py:14-43 | nothing exactly when the probe failed, otherwise the codec names of the streams (none when the key is missing) |
| DtsScan.AllDts | Resources/ScanDTSAudioTracks_OutputTerminal.py:49 | true iff every codec, lowered, starts with `dts` |
| DtsScan.IsDtsOnly | Resources/ScanDTSAudioTracks_OutputTerminal.py:46-49 | false for no codecs; otherwise true iff every codec is a DTS variant |
| DtsScan.MixedIsNotDtsOnly | Resources/ScanDTSAudioTracks_OutputTerminal.py:49 | one non-DTS track makes the file not DTS-only |
| DtsScan.DtsOnlyPaths | Resources/ScanDTSAudioTracks_OutputTerminal.py:58-63 | a path is printed iff its probe succeeded and its audio is DTS only |
| DtsScan.DtsOnlyPathsAppend | Resources/ScanDTSAudioTracks_OutputTerminal.py:58-63 | printed paths keep path order |
| DtsScan.FailedProbeNotPrinted | Resources/ScanDTSAudioTracks_OutputTerminal.py:59-61 | a file whose probe failed is never printed |
| Scanning.Root | Resources/ScanDTSAudioTracks_OutputTerminal.py:53 | the first argument, or `.` without one |
| DtsScan.ScanResult | Resources/ScanDTSAudioTracks_OutputTerminal.py:52-65 | status 2 and no output iff the root is missing; otherwise status 0 and the DTS-only paths |
| CsvScan.CodecValue | Resources/ScanAudioTracks_ExportCSV.py:74 | `unknown` for no codecs; a single codec as itself |
| CsvScan.CodecValueRoundTrip | Resources/ScanAudioTracks_ExportCSV.py:74 | the column splits back into the codec list |
| CsvScan.RowOf | Resources/ScanAudioTracks_ExportCSV.py:71-77 | at most one row per path, present exactly when its probe succeeded, holding the path and its codec column |
| CsvScan.CsvRows | Resources/ScanAudioTracks_ExportCSV.py:69-77 | no more rows than paths (CsvRowsMembers says which, CsvRowsAppend in what order) |
| CsvScan.CsvRowsMembers | Resources/ScanAudioTracks_ExportCSV.py:69-77 | every row is the row of a successfully probed path, and every such path has its row |
| CsvScan.CsvRowsAppend | Resources/ScanAudioTracks_ExportCSV.py:69-77 | rows keep path order |
| CsvScan.WriteRows | Resources/ScanAudioTracks_ExportCSV.py:69-77 | the loop writes the same rows to both writers, one per successfully probed path, in order |
| CsvScan.ScanToCsv | Resources/ScanAudioTracks_ExportCSV.py:47-82 | status 2 and no rows when the root is missing; otherwise status 0, header first, then the rows, identical in file and standard output |

## Left out

- Running `ffprobe`, `ffmpeg` and `tasklist`, and decoding JSON: probe results are given as parsed records, or `None` for a failed probe. Whether `ffmpeg` succeeds is a parameter.
- `check_if_process_running`: process polling with sleeps, which is operating-system I/O.
- The progress-animation thread, console output, the log-file copy of every message, and the symbol tables.
- Timing and sizes: `show_time`, `totalRunTime` and the megabyte figures are floating point and only printed. The size reads are modelled only as checks that the files exist.
- `natsorted` and `sorted(rglob(...))`: the listing and the path list are inputs, already in order. The listing is not tied to the file map.
- CSV quoting by the `csv` module: rows are lists of strings. The stderr progress line of the CSV scanner is left out too.
- The commented-out HTTP upload at the end of `MP4_Converter.py`.
- Probe.Stream: the stream number is always present; a stream without `index` (a `KeyError` caught as a failed conversion) is not modelled.
- Selection.VideoCodec: a `codec_name` that is JSON `null` (an `AttributeError` in the source) is not modelled.
- Text.Lower: lowers ASCII letters only; Python's `str.lower` also lowers other scripts. Every word a lowered string is compared with (`encode`, `remux`, the true and false words, `hevc`, `av1`, the prefix `dts`) is ASCII, and the only non-ASCII characters whose lowering contains an ASCII letter are U+212A (to `k`) and U+0130 (to `i` and a combining dot), which match none of those words; so no comparison comes out differently.
- Folder.PathJoin: POSIX `os.path.join` only; Windows drive letters and `\` separators are not modelled. Folder.SplitExt likewise follows POSIX `splitext`.
- Folder.FileSystem.Move: a destination that is an existing directory (where `shutil.move` moves into it) is not modelled; moving replaces a file at the destination.
- Folder.FileSystem.MakeDirs: fails only when a file is in the way; permission errors are not modelled. Missing parents are not modelled either, because the output folder was checked first.
- Folder.RunConversion: whatever a failed `ffmpeg` run leaves in the temporary file is modelled as an empty file.
- Folder.ProcessFolder: the exit status and message of `sys.exit` are reduced to a status value.
- Cli.ParseCommandLine: the exit status 1 of the three usage errors is implied by the error values, not a number.
