/**
 * The arguments main.go hands to the transform processor: the
 * `command.TransformArguments` record, built from the checked command line
 * and the files' contents, with its server-selection flag.
 */
module Transform {
  import opened Wrappers
  import opened Cli
  import opened Payload

  /** `command.TransformArguments` without its output sink. */
  datatype TransformArguments = TransformArguments(
    InputImageData: seq<byte>,
    FormulaData: seq<byte>,
    OutputSettingsData: seq<byte>,
    ServerURL: string,
    UseServerURL: bool)

  /** A failed read of the formula file, as `ioutil.ReadFile` reports it. */
  datatype ReadError = ReadError(message: string)

  /** The server flag agrees with the URL: delegation is asked for exactly when there is somewhere to send it. */
  predicate ServerFlagsAgree(args: TransformArguments) {
    args.UseServerURL <==> args.ServerURL != ""
  }

  /** main's `useServerURL`: false, then set to true when a server URL was given. */
  method DeriveUseServerURL(serverURL: string) returns (useServerURL: bool)
    ensures useServerURL <==> serverURL != ""
  {
    useServerURL := false;
    if serverURL != "" {
      useServerURL := true;
    }
  }

  /**
   * The part of main between reading the files and calling the processor. The
   * source file's read error is discarded, so whatever bytes the read returned
   * are passed on; a formula read error stops the run.
   */
  method BuildTransformArguments(cli: CommandLineArguments, inputImageData: seq<byte>,
                                 formulaRead: Result<seq<byte>, ReadError>)
    returns (r: Result<TransformArguments, ReadError>)
    ensures r.Failure? <==> formulaRead.Failure?
    ensures r.Failure? ==> r.error == formulaRead.error
    ensures r.Success? ==> ServerFlagsAgree(r.value)
    ensures r.Success? ==>
      && r.value.InputImageData == inputImageData
      && r.value.FormulaData == formulaRead.value
      && r.value.OutputSettingsData == AsciiBytes(EncodeSettings(cli.OutputWidth, cli.OutputHeight))
      && r.value.ServerURL == cli.ServerURL
  {
    if formulaRead.Failure? {
      return Failure(formulaRead.error);
    }
    var outputSettingsData := AsciiBytes(EncodeSettings(cli.OutputWidth, cli.OutputHeight));
    var useServerURL := DeriveUseServerURL(cli.ServerURL);
    r := Success(TransformArguments(
      InputImageData := inputImageData,
      FormulaData := formulaRead.value,
      OutputSettingsData := outputSettingsData,
      ServerURL := cli.ServerURL,
      UseServerURL := useServerURL));
  }
}
