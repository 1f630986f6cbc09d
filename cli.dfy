/**
 * Validation of the command-line values in main.go: the source filename, the
 * output filename and the `WxH` output size. `log.Fatal` and the index panic
 * become `CliError` values; the first failing check is the one reported.
 */
module Cli {
  import opened Wrappers
  import opened GoStrconv
  import opened GoStrings

  const DefaultFormulaFilename: string := "data/oldformula.yml"
  const DefaultOutputDimensions: string := "200x200"
  const DimensionSeparator: char := 'x'

  datatype CliError =
    | MissingSourceFilename                              // log.Fatal("missing source filename")
    | MissingOutputFilename                              // log.Fatal("missing output filename")
    | InvalidWidth(kind: NumErrorKind, field: string)    // log.Fatal(widthErr)
    | InvalidHeight(kind: NumErrorKind, field: string)   // log.Fatal(heightErr)
    | HeightIndexOutOfRange                              // panic: index [1] of a one-field split

  datatype Dimensions = Dimensions(width: Int64, height: Int64)

  datatype CommandLineArguments = CommandLineArguments(
    FormulaFilename: string,
    OutputFilename: string,
    OutputHeight: Int64,
    OutputWidth: Int64,
    SourceImageFilename: string,
    ServerURL: string)

  /** checkSourceArgument: the only requirement on the source filename is that it is given. */
  function CheckSourceArgument(sourceImageFilename: string): (r: Outcome<CliError>)
    ensures r.Pass? <==> sourceImageFilename != ""
    ensures r.Fail? ==> r.error == MissingSourceFilename
  {
    if sourceImageFilename == "" then Fail(MissingSourceFilename) else Pass
  }

  /**
   * checkOutputArgument: the output filename must be given; the size string is
   * split on every `x`, the first field is read as the width and the second as
   * the height, and any further fields are ignored.
   */
  function CheckOutputArgument(outputFilename: string, outputDimensions: string): (r: Result<Dimensions, CliError>)
    ensures r == Failure(MissingOutputFilename) <==> outputFilename == ""
    ensures r.Success? ==> DimensionSeparator in outputDimensions
  {
    if outputFilename == "" then Failure(MissingOutputFilename)
    else
      var fields := Split(outputDimensions, DimensionSeparator);
      match Atoi(fields[0])
      case Failure(k) => Failure(InvalidWidth(k, fields[0]))
      case Success(w) =>
        if |fields| < 2 then Failure(HeightIndexOutOfRange)
        else
          match Atoi(fields[1])
          case Failure(k) => Failure(InvalidHeight(k, fields[1]))
          case Success(h) => Success(Dimensions(w, h))
  }

  /**
   * The validating half of getCommandLineArguments, given the values the flags
   * parsed to: the source filename is checked before the output arguments.
   */
  function GetCommandLineArguments(formulaFilename: string, sourceImageFilename: string,
                                   outputFilename: string, outputDimensions: string,
                                   serverURL: string): (r: Result<CommandLineArguments, CliError>)
    ensures sourceImageFilename == "" ==> r == Failure(MissingSourceFilename)
    ensures r.Success? <==> sourceImageFilename != "" && CheckOutputArgument(outputFilename, outputDimensions).Success?
    ensures sourceImageFilename != "" && r.Failure? ==>
      r == CheckOutputArgument(outputFilename, outputDimensions).PropagateFailure()
    ensures r.Success? ==>
      var d := CheckOutputArgument(outputFilename, outputDimensions).value;
      r.value == CommandLineArguments(formulaFilename, outputFilename, d.height, d.width, sourceImageFilename, serverURL)
  {
    match CheckSourceArgument(sourceImageFilename)
    case Fail(e) => Failure(e)
    case Pass =>
      match CheckOutputArgument(outputFilename, outputDimensions)
      case Failure(e) => Failure(e)
      case Success(d) =>
        Success(CommandLineArguments(
          FormulaFilename := formulaFilename,
          OutputFilename := outputFilename,
          OutputHeight := d.height,
          OutputWidth := d.width,
          SourceImageFilename := sourceImageFilename,
          ServerURL := serverURL))
  }

  // ---------------------------------------------------------------------------
  // The size string described by position rather than by Split.

  /** The text before the first `x`, or all of it when there is none. */
  function WidthText(dims: string): string {
    if DimensionSeparator in dims then dims[..IndexOf(dims, DimensionSeparator)] else dims
  }

  /** The text between the first and the second `x`, or after the first when there is no second. */
  function HeightText(dims: string): string
    requires DimensionSeparator in dims
  {
    var tail := dims[IndexOf(dims, DimensionSeparator) + 1..];
    if DimensionSeparator in tail then tail[..IndexOf(tail, DimensionSeparator)] else tail
  }

  /**
   * Every outcome of checkOutputArgument, stated with the integer grammar and the
   * positions of the `x`s: the filename first, then the width, then whether there
   * is a second field, then the height. No bound is put on the two values.
   */
  lemma CheckOutputArgumentMeaning(outputFilename: string, dims: string)
    ensures var r := CheckOutputArgument(outputFilename, dims);
      && (outputFilename == "" ==> r == Failure(MissingOutputFilename))
      && (outputFilename != "" && !IsInt64Literal(WidthText(dims)) ==>
            r.Failure? && r.error.InvalidWidth? && r.error.field == WidthText(dims))
      && (outputFilename != "" && IsInt64Literal(WidthText(dims)) && DimensionSeparator !in dims ==>
            r == Failure(HeightIndexOutOfRange))
      && (outputFilename != "" && IsInt64Literal(WidthText(dims)) && DimensionSeparator in dims
            && !IsInt64Literal(HeightText(dims)) ==>
            r.Failure? && r.error.InvalidHeight? && r.error.field == HeightText(dims))
      && (outputFilename != "" && IsInt64Literal(WidthText(dims)) && DimensionSeparator in dims
            && IsInt64Literal(HeightText(dims)) ==>
            r == Success(Dimensions(LiteralValue(WidthText(dims)), LiteralValue(HeightText(dims)))))
  {
    var fields := Split(dims, DimensionSeparator);
    if DimensionSeparator in dims {
      var i := IndexOf(dims, DimensionSeparator);
      var tail := dims[i + 1..];
      assert dims == dims[..i] + [DimensionSeparator] + tail;
      SplitAtFirst(dims[..i], DimensionSeparator, tail);
      assert fields[0] == WidthText(dims);
      if DimensionSeparator in tail {
        var j := IndexOf(tail, DimensionSeparator);
        assert tail == tail[..j] + [DimensionSeparator] + tail[j + 1..];
        SplitAtFirst(tail[..j], DimensionSeparator, tail[j + 1..]);
      }
      assert fields[1] == HeightText(dims);
    }
  }

  /**
   * A size written as width, `x`, height, optionally followed by `x` and anything
   * at all, yields that width and height.
   */
  lemma CheckOutputArgumentFields(outputFilename: string, w: string, h: string, rest: string)
    requires outputFilename != ""
    requires DimensionSeparator !in w && DimensionSeparator !in h
    requires IsInt64Literal(w) && IsInt64Literal(h)
    requires rest == [] || rest[0] == DimensionSeparator
    ensures CheckOutputArgument(outputFilename, w + [DimensionSeparator] + h + rest)
         == Success(Dimensions(LiteralValue(w), LiteralValue(h)))
  {
    var dims := w + [DimensionSeparator] + h + rest;
    FirstTwoFields(w, h, rest);
    assert Atoi(w) == Success(LiteralValue(w));
    assert Atoi(h) == Success(LiteralValue(h));
  }

  lemma FirstTwoFields(w: string, h: string, rest: string)
    requires DimensionSeparator !in w && DimensionSeparator !in h
    requires rest == [] || rest[0] == DimensionSeparator
    ensures var fields := Split(w + [DimensionSeparator] + h + rest, DimensionSeparator);
      |fields| >= 2 && fields[0] == w && fields[1] == h
  {
    var sep := DimensionSeparator;
    assert w + [sep] + h + rest == w + [sep] + (h + rest);
    SplitAtFirst(w, sep, h + rest);
    if rest == [] {
      assert h + rest == h;
    } else {
      assert h + rest == h + [sep] + rest[1..];
      SplitAtFirst(h, sep, rest[1..]);
    }
  }

  /** Text after a second `x` is ignored: it changes neither the result nor the error. */
  lemma TrailingFieldsIgnored(outputFilename: string, w: string, h: string, extra: string)
    requires DimensionSeparator !in w && DimensionSeparator !in h
    ensures CheckOutputArgument(outputFilename, w + [DimensionSeparator] + h + [DimensionSeparator] + extra)
         == CheckOutputArgument(outputFilename, w + [DimensionSeparator] + h)
  {
    var sep := DimensionSeparator;
    assert w + [sep] + h + [sep] + extra == w + [sep] + (h + [sep] + extra);
    SplitAtFirst(w, sep, h + [sep] + extra);
    SplitAtFirst(h, sep, extra);
    SplitAtFirst(w, sep, h);
  }

  /** Rendering any two 64-bit ints in decimal around an `x` parses back to them, signs and zero included. */
  lemma CheckOutputArgumentRoundTrip(outputFilename: string, width: Int64, height: Int64)
    requires outputFilename != ""
    ensures CheckOutputArgument(outputFilename, FormatInt(width) + [DimensionSeparator] + FormatInt(height))
         == Success(Dimensions(width, height))
  {
    var w, h := FormatInt(width), FormatInt(height);
    NoSeparatorInLiteral(w);
    NoSeparatorInLiteral(h);
    assert w + [DimensionSeparator] + h + [] == w + [DimensionSeparator] + h;
    CheckOutputArgumentFields(outputFilename, w, h, []);
  }

  lemma NoSeparatorInLiteral(s: string)
    requires IsIntLiteral(s)
    ensures DimensionSeparator !in s
  {
  }

  /** A size string with no `x`, the empty string among them, never yields dimensions. */
  lemma NoSeparatorFails(outputFilename: string, dims: string)
    requires DimensionSeparator !in dims
    ensures CheckOutputArgument(outputFilename, dims).Failure?
  {
  }

  /** An empty size string is rejected on its width, before the missing height is reached. */
  lemma EmptyDimensionsInvalidWidth(outputFilename: string)
    requires outputFilename != ""
    ensures CheckOutputArgument(outputFilename, "") == Failure(InvalidWidth(ErrSyntax, ""))
  {
  }

  /** A bad width is reported whatever follows the first `x`. */
  lemma WidthCheckedFirst(outputFilename: string, w: string, tail: string)
    requires outputFilename != ""
    requires DimensionSeparator !in w && !IsInt64Literal(w)
    ensures var r := CheckOutputArgument(outputFilename, w + [DimensionSeparator] + tail);
      r.Failure? && r.error.InvalidWidth? && r.error.field == w
  {
    SplitAtFirst(w, DimensionSeparator, tail);
  }

  /** "3x4x9" gives (3, 4). */
  lemma ThreeByFourIgnoresNine(outputFilename: string)
    requires outputFilename != ""
    ensures CheckOutputArgument(outputFilename, "3x4x9") == Success(Dimensions(3, 4))
  {
    assert "3x4x9" == "3" + [DimensionSeparator] + "4" + "x9";
    assert LiteralValue("3") == 3 && LiteralValue("4") == 4;
    CheckOutputArgumentFields(outputFilename, "3", "4", "x9");
  }

  /** The default size "200x200" gives (200, 200). */
  lemma DefaultOutputDimensionsParse(outputFilename: string)
    requires outputFilename != ""
    ensures CheckOutputArgument(outputFilename, DefaultOutputDimensions) == Success(Dimensions(200, 200))
  {
    assert DefaultOutputDimensions == FormatInt(200) + [DimensionSeparator] + FormatInt(200);
    CheckOutputArgumentRoundTrip(outputFilename, 200, 200);
  }

  /** A missing source filename is reported before anything about the output is examined. */
  lemma SourceCheckedFirst(formulaFilename: string, outputFilename: string, dims: string, serverURL: string)
    ensures GetCommandLineArguments(formulaFilename, "", outputFilename, dims, serverURL) == Failure(MissingSourceFilename)
  {
  }

  /** With only the source and output filenames given, every other value is its flag's default. */
  lemma DefaultsOnly(sourceImageFilename: string, outputFilename: string)
    requires sourceImageFilename != "" && outputFilename != ""
    ensures GetCommandLineArguments(DefaultFormulaFilename, sourceImageFilename, outputFilename, DefaultOutputDimensions, "")
         == Success(CommandLineArguments(DefaultFormulaFilename, outputFilename, 200, 200, sourceImageFilename, ""))
  {
    DefaultOutputDimensionsParse(outputFilename);
  }
}
