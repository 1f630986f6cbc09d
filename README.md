# image-transform-cli: argument checks and transform payload

This project models, in Dafny, the logic in `main.go` of the image-transform command-line tool that runs before the work is handed to the transform processor:

- **checkSourceArgument**: the source image filename must be non-empty.
- **checkOutputArgument**: the output filename must be non-empty. The `-size` string is split on every lowercase `x`. The first field is read as the width and the second as the height, both with Go's `strconv.Atoi`. Further fields are ignored.
- **getCommandLineArguments**: the checks run in the order above (source first). The result is a `CommandLineArguments` record. The flag values are taken as inputs.
- **The settings payload**: `{'output_width':W,'output_height':H}` with both values in decimal. The keys are in single quotes, so the payload is not JSON.
- **The server switch**: `useServerURL` is true exactly when a server URL was given. It is passed to the processor in `command.TransformArguments` together with the URL.

The Go library routines the code relies on are modelled for their observable behaviour on a 64-bit platform:

- `strconv.Atoi`: both its fast path for 1 to 18 bytes and its `ParseInt(s, 10, 0)` path, proved to agree. The slow path includes ParseUint's rule that an overflowing digit is a range error reported before any later non-digit.
- `strings.Split` and `strings.Join` with a one-character separator.
- `fmt`'s `%d`.

Modules:

- `Wrappers` (wrappers.dfy): the `Option`, `Result` and `Outcome` types.
- `GoStrconv` (strconv.dfy): decimal formatting and parsing. Also an independent integer grammar (`IsIntLiteral`, `LiteralValue`) that the parser is proved against, and the canonical form `%d` writes (`IsCanonicalLiteral`).
- `GoStrings` (strings.dfy): `IndexOf`, `Split`, `Join`.
- `Cli` (cli.dfy): the argument checks.
- `Payload` (payload.dfy): the settings payload and its decoder.
- `Transform` (transform.dfy): the server switch and the assembly of `TransformArguments`.

`log.Fatal` and the runtime panic become values of `CliError`:

- `MissingSourceFilename`
- `MissingOutputFilename`
- `InvalidWidth`
- `InvalidHeight`
- `HeightIndexOutOfRange`: the panic from indexing field `[1]` of a one-field split.

Each error carries what the Go error would report.

Behaviour of the code worth knowing:

- An empty size string does not reach the missing-height panic. `strings.Split("", "x")` is `[""]`, so `Atoi("")` fails first and the error is an invalid width.
- A size without an `x` whose text is a valid number (e.g. `"200"`) panics on the missing second field.
- No bounds are enforced: zero and negative sizes come back unchanged.
- main.go never passes `UseServerURL = true` with an empty URL.

## Model

| member | source | states |
|---|---|---|
| Cli.CheckSourceArgument | main.go:103-107 | passes exactly when the source filename is non-empty; otherwise the error is the missing source filename |
| Cli.CheckOutputArgument | main.go:136-152 | an empty output filename is reported, and only then, before the size string is looked at; success implies the size string contains an `x` |
| Cli.CheckOutputArgumentMeaning | main.go:136-152 | every outcome in terms of the integer grammar and the text before the first `x` and between the first and second `x`: filename, then width, then presence of a second field, then height; on success the two literal values, without bounds |
| Cli.CheckOutputArgumentFields | main.go:141-151 | width literal, `x`, height literal, then nothing or `x` followed by anything, gives exactly those two values |
| Cli.TrailingFieldsIgnored | main.go:141-146 | text after a second `x` changes neither the result nor the error |
| Cli.CheckOutputArgumentRoundTrip | main.go:141-151 | decimal(W) + `x` + decimal(H) parses to (W, H) for all 64-bit W and H, negative and zero included |
| Cli.WidthCheckedFirst | main.go:141-149 | a bad first field is reported as an invalid width whatever follows the first `x` |
| Cli.NoSeparatorFails | main.go:141-149 | a size string with no `x` never yields dimensions |
| Cli.EmptyDimensionsInvalidWidth | main.go:141-144 | the empty size string fails as an invalid width with a syntax error, not at the missing second field |
| Cli.ThreeByFourIgnoresNine | main.go:141-151 | "3x4x9" gives (3, 4) |
| Cli.DefaultOutputDimensionsParse | main.go:82-83 | the default size "200x200" gives (200, 200) |
| Cli.GetCommandLineArguments | main.go:90-100 | a missing source filename is the error whatever the output arguments; otherwise success exactly when the output check succeeds, with its error passed through; on success the record carries the given filenames and URL and the parsed width and height |
| Cli.SourceCheckedFirst | main.go:90-91 | an empty source filename is reported before the output arguments are examined |
| Cli.DefaultsOnly | main.go:72-100 | with only source and output given, the formula is data/oldformula.yml, the size 200x200 and the server URL empty |
| GoStrconv.Atoi | main.go:141 | Atoi's fast path gives the same result as ParseInt for every string, errors included, and every value fits a 64-bit int |
| GoStrconv.ParseInt | main.go:146 | succeeds exactly on an optional sign followed by one or more digits whose value fits a 64-bit int, and returns that value; a syntax error means the text is not such a literal |
| GoStrconv.FastPathAgrees | main.go:141 | for strings of 1 to 18 bytes the unchecked fast loop and ParseInt agree |
| GoStrconv.FormatInt | main.go:28-34 | `%d` output is a canonical literal (no `+`, no leading zero, no `-0`) whose value is the rendered integer |
| GoStrconv.CanonicalLiteralIsFormatInt | main.go:28-34 | every canonical literal is the `%d` rendering of its own value |
| GoStrconv.CanonicalLiteralUnique | main.go:28-34 | two canonical literals with the same value are the same text |
| GoStrconv.AtoiFormatInt | main.go:141-151 | Atoi reads back what `%d` wrote, for every 64-bit int |
| GoStrconv.ScanDigitsAllDigits | main.go:141 | on a digit string ParseUint's loop succeeds exactly when the value fits a uint64, and otherwise reports a range error |
| GoStrconv.ScanDigitsNonDigit | main.go:141 | a string with a non-digit never parses as unsigned |
| GoStrings.Split | main.go:141 | the fields are separator-free, there is at least one, and joining them with the separator gives back the input |
| GoStrings.SplitJoin | main.go:146 | splitting a join of separator-free fields gives back the fields |
| GoStrings.SplitAtFirst | main.go:141 | the first field ends at the first separator and the rest is the split of what follows |
| Payload.EncodeSettings | main.go:28-34 | the payload decodes back to the same width and height, width first; it is ASCII and contains no double quote |
| Payload.DecodedIsEncoded | main.go:28-34 | every text the decoder accepts is exactly the payload written for the decoded width and height, so the decoder and the encoder are inverse both ways and the payload text is fixed |
| Payload.EncodeSettingsText | main.go:28-34 | the payload is `{'output_width':` then decimal(W) then `,'output_height':` then decimal(H) then `}` |
| Payload.EncodeSettingsInjective | main.go:28-34 | two size pairs give the same payload only when they are equal |
| Payload.DecodeEncoded | main.go:28-34 | decoding `{'output_width':` decimal(W) `,'output_height':` decimal(H) `}` yields (W, H) |
| Payload.DefaultSettingsPayload | main.go:28-34 | for 200 by 200 the payload is exactly `{'output_width':200,'output_height':200}` |
| Payload.AsciiBytes | main.go:28-34 | the byte conversion keeps the length and each character's code |
| Transform.DeriveUseServerURL | main.go:38-41 | the flag is true if and only if the server URL is non-empty |
| Transform.BuildTransformArguments | main.go:21-51 | a formula read error, and only that, stops the run with that error; otherwise the source bytes, formula bytes and URL pass through unchanged, the settings are the payload's bytes, and the server flag agrees with the URL |

## Left out

- Flag parsing with the `flag` package (main.go:72-88): the parsed strings are parameters of `Cli.GetCommandLineArguments`. The aliases `-f`/`-oldformula` and `-in`/`-source` are not modelled.
- File I/O: `ioutil.ReadFile` (main.go:21, 23), `outputToFile` (main.go:123-134) and the unused `openSourceImage` (main.go:109-121). The bytes and the formula read outcome are parameters of `Transform.BuildTransformArguments`.
- PNG and image decoding and encoding (main.go:58, 116, 133): an external codec.
- The transform processor `command.NewCommandProcessor` / `ProcessArgumentsToTransformImage` (main.go:43-55). Its package is not part of this model. The model stops at the arguments handed to it.
- The output sink: `TransformArguments` has no `OutputImageData` field, because the `bytes.Buffer` is only filled by the processor.
- Process exit: `log.Fatal` and `panic` are error values, not program termination. Exit codes and message texts are not modelled. An error carries only the `NumError` kind and the offending field.
- Strings are sequences of characters, while Go strings are bytes. Every test in this code is on ASCII characters, so a non-ASCII character acts as a non-digit and a non-separator, just as its UTF-8 bytes would. The one byte-count test, Atoi's fast-path length, does not change the result, because both paths are proved to agree.
- Atoi on a 32-bit platform (where `int` is 32 bits) is not modelled; `int` is taken to be 64 bits.
- The engine's own reading of the settings payload is not part of this model. `DecodeSettings` is the reading side of the format, written to state the encoder's round trip.
