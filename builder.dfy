/**
 * The build orchestrator (clientService.BuildClient and its helpers): check
 * the server address, normalise the requested file name, issue a token, and
 * run one `go build` for the chosen target with the connection settings
 * linked in.
 */
module Builder {
  import opened Wrappers
  import opened Strings
  import opened Errors

  /** system.OSType as this file sees it: Windows, Linux, and every other value, all treated alike. */
  datatype OSType = Windows | Linux | Other

  datatype BuildClientBinaryInput = BuildClientBinaryInput(
    serverAddress: string,
    serverPort: string,
    osTarget: OSType,
    filename: string,
    runHidden: bool)

  datatype AuthConfig = AuthConfig(secretKey: string)

  /** cmd.CombinedOutput(): the captured stdout and stderr, and the process error if it failed. */
  datatype ProcessResult = ProcessResult(output: string, err: Option<Error>)

  /** The collaborators whose code is not part of this model. */
  datatype BuildEnv = BuildEnv(
    isValidIPAddress: string -> bool,                 // net.ParseIP(s) != nil
    isValidURL: string -> bool,                       // url.ParseRequestURI(s) succeeds
    normalizeString: string -> Result<string, Error>, // utils.NormalizeString
    authConfig: Result<AuthConfig, Error>,            // AuthService.GetAuthConfig()
    newToken: string -> Result<string, Error>,        // jwt.NewToken(secret, jwt.IdentityDefaultUser)
    newUUID: string,                                  // uuid.New().String()
    run: (string, string) -> ProcessResult)           // sh -c <command>, run in the given directory

  /** The side-effecting steps of BuildClient, in the order it takes them. */
  datatype Step = ValidateAddress | NormalizeFilename | IssueToken | RunBuild(dir: string, command: string)

  /** cmd.Dir: the client source tree the build runs in. */
  const BuildDir := "client/"

  ghost predicate RanBuild(steps: seq<Step>) {
    exists i :: 0 <= i < |steps| && steps[i].RunBuild?
  }

  /** handleOSType: the GOOS value for a target. */
  function HandleOSType(os: OSType): (goos: string)
    ensures goos == "windows" <==> os == Windows
    ensures goos == "linux" <==> os == Linux
    ensures goos == "unknown" <==> os == Other
  {
    match os
    case Windows => "windows"
    case Linux => "linux"
    case Other => "unknown"
  }

  /** runHidden: the linker flag that hides the console window, or nothing. */
  function RunHidden(hidden: bool): (flag: string)
    ensures flag != "" <==> hidden
    ensures hidden ==> flag == "-H=windowsgui"
  {
    if hidden then "-H=windowsgui" else ""
  }

  /**
   * The file name buildFilename produces: the generated identifier stands in
   * for a blank name, and a Windows target gets ".exe" appended.
   */
  function FilenameFor(os: OSType, filename: string, newUUID: string): (r: string)
    ensures r == (if IsBlank(filename) then newUUID else filename) + (if os == Windows then ".exe" else "")
    ensures os == Windows ==> EndsWith(r, ".exe")
    ensures os != Windows && !IsBlank(filename) ==> r == filename
    ensures newUUID != "" ==> r != ""
  {
    TrimSpaceEmptyIffBlank(filename);
    var name := if |TrimSpace(filename)| <= 0 then newUUID else filename;
    if os == Windows then name + ".exe" else name
  }

  /** buildFilename. */
  method BuildFilename(os: OSType, filename: string, newUUID: string) returns (r: string)
    ensures r == FilenameFor(os, filename, newUUID)
  {
    var name := filename;
    if |TrimSpace(name)| <= 0 {
      name := newUUID;
    }
    match os {
      case Windows => r := name + ".exe";
      case _ => r := name;
    }
  }

  /**
   * The shell command of line 106 with its seven %s filled in order
   * (fmt.Sprintf copies string operands as they are): the target OS, then the
   * linker flags, then the output path. The command starts by naming the
   * target OS and ends by writing ../temp/<filename> from main.go.
   */
  function BuildCommand(goos: string, hiddenFlag: string, version: string, port: string,
                        address: string, token: string, filename: string): (c: string)
    ensures StartsWith(c, "GO_ENABLED=1 GOOS=" + goos + " GOARCH=amd64 go build ")
    ensures EndsWith(c, " -o ../temp/" + filename + " main.go")
  {
    var h, m, t := CommandHead(goos), LinkerFlags(hiddenFlag, version, port, address, token), CommandTail(filename);
    assert (h + m + t)[..|h|] == h;
    assert (h + m + t)[|h + m + t| - |t|..] == t;
    h + m + t
  }

  function CommandHead(goos: string): string {
    "GO_ENABLED=1 GOOS=" + goos + " GOARCH=amd64 go build "
  }

  /** The -ldflags argument, single-quoted for the shell: the version, port, address and token become main's constants. */
  function LinkerFlags(hiddenFlag: string, version: string, port: string, address: string, token: string): string {
    "-ldflags '" + hiddenFlag + " -s -w -X main.Version=" + version + " -X main.ServerPort=" + port
    + " -X main.ServerAddress=" + address + " -X main.Token=" + token + " -extldflags \"-static\"'"
  }

  function CommandTail(filename: string): string {
    " -o ../temp/" + filename + " main.go"
  }

  /** The command names the target: two targets that are not the same never give the same command. */
  lemma CommandNamesTarget(os1: OSType, os2: OSType, hidden1: string, hidden2: string, version1: string, version2: string,
                           port1: string, port2: string, address1: string, address2: string,
                           token1: string, token2: string, filename1: string, filename2: string)
    requires BuildCommand(HandleOSType(os1), hidden1, version1, port1, address1, token1, filename1)
          == BuildCommand(HandleOSType(os2), hidden2, version2, port2, address2, token2, filename2)
    ensures os1 == os2
  {
    var c := BuildCommand(HandleOSType(os1), hidden1, version1, port1, address1, token1, filename1);
    var g1, g2 := "GO_ENABLED=1 GOOS=" + HandleOSType(os1), "GO_ENABLED=1 GOOS=" + HandleOSType(os2);
    assert c[18] == g1[18] == HandleOSType(os1)[0] by {
      assert c[..|g1 + " GOARCH=amd64 go build "|][18] == c[18];
    }
    assert c[18] == g2[18] == HandleOSType(os2)[0] by {
      assert c[..|g2 + " GOARCH=amd64 go build "|][18] == c[18];
    }
  }

  /** With every other setting the same, the command names its output file: two names never give the same command. */
  lemma CommandNamesOutput(goos: string, hiddenFlag: string, version: string, port: string,
                           address: string, token: string, filename1: string, filename2: string)
    requires BuildCommand(goos, hiddenFlag, version, port, address, token, filename1)
          == BuildCommand(goos, hiddenFlag, version, port, address, token, filename2)
    ensures filename1 == filename2
  {
    var p := CommandHead(goos) + LinkerFlags(hiddenFlag, version, port, address, token);
    var t1, t2 := CommandTail(filename1), CommandTail(filename2);
    assert p + t1 == p + t2;
    assert t1 == (p + t1)[|p|..] == (p + t2)[|p|..] == t2;
    assert filename1 == t1[12..|t1| - 8];
    assert filename2 == t2[12..|t2| - 8];
  }

  /** GenerateNewToken: sign a token with the secret from the auth configuration. */
  function GenerateNewToken(env: BuildEnv): (r: Result<string, Error>)
    ensures env.authConfig.Failure? ==> r == Failure(env.authConfig.error)
    ensures env.authConfig.Success? ==> r == env.newToken(env.authConfig.value.secretKey)
    ensures r.Success? ==> env.authConfig.Success?
  {
    match env.authConfig
    case Failure(e) => Failure(e)
    case Success(config) => env.newToken(config.secretKey)
  }

  predicate IsValidServerAddress(env: BuildEnv, address: string) {
    env.isValidIPAddress(address) || env.isValidURL(address)
  }

  /**
   * BuildClient. The ghost steps record what was done, in order: each check
   * that fails returns before any later step, and the build process runs only
   * after all three checks have passed.
   */
  method BuildClient(appVersion: string, input: BuildClientBinaryInput, env: BuildEnv)
    returns (filename: string, err: Option<Error>, ghost steps: seq<Step>)
    // what the call returns
    ensures !IsValidServerAddress(env, input.serverAddress) ==>
      filename == "" && err == Some(InvalidServerAddress)
    ensures IsValidServerAddress(env, input.serverAddress) && env.normalizeString(input.filename).Failure? ==>
      filename == "" && err == Some(env.normalizeString(input.filename).error)
    ensures (IsValidServerAddress(env, input.serverAddress) && env.normalizeString(input.filename).Success?
             && GenerateNewToken(env).Failure?) ==>
      filename == "" && err == Some(GenerateNewToken(env).error)
    ensures (IsValidServerAddress(env, input.serverAddress) && env.normalizeString(input.filename).Success?
             && GenerateNewToken(env).Success?) ==>
      var name := FilenameFor(input.osTarget, env.normalizeString(input.filename).value, env.newUUID);
      var result := env.run(BuildDir, BuildCommand(HandleOSType(input.osTarget), RunHidden(input.runHidden),
        appVersion, input.serverPort, input.serverAddress, GenerateNewToken(env).value, name));
      && (result.err.Some? ==> filename == "" && err == Some(Wrapped("", result.err.value, ":" + result.output)))
      && (result.err.None? ==> filename == name && err == None)
    // what the call did, in order
    ensures !IsValidServerAddress(env, input.serverAddress) ==> steps == [ValidateAddress]
    ensures IsValidServerAddress(env, input.serverAddress) && env.normalizeString(input.filename).Failure? ==>
      steps == [ValidateAddress, NormalizeFilename]
    ensures (IsValidServerAddress(env, input.serverAddress) && env.normalizeString(input.filename).Success?
             && GenerateNewToken(env).Failure?) ==>
      steps == [ValidateAddress, NormalizeFilename, IssueToken]
    ensures (IsValidServerAddress(env, input.serverAddress) && env.normalizeString(input.filename).Success?
             && GenerateNewToken(env).Success?) ==>
      var name := FilenameFor(input.osTarget, env.normalizeString(input.filename).value, env.newUUID);
      var command := BuildCommand(HandleOSType(input.osTarget), RunHidden(input.runHidden), appVersion,
                                  input.serverPort, input.serverAddress, GenerateNewToken(env).value, name);
      steps == [ValidateAddress, NormalizeFilename, IssueToken, RunBuild(BuildDir, command)]
    ensures RanBuild(steps) <==>
      IsValidServerAddress(env, input.serverAddress) && env.normalizeString(input.filename).Success?
      && GenerateNewToken(env).Success?
    ensures err == None ==> RanBuild(steps)
  {
    steps := [ValidateAddress];
    if !env.isValidIPAddress(input.serverAddress) && !env.isValidURL(input.serverAddress) {
      return "", Some(InvalidServerAddress), steps;
    }

    steps := [ValidateAddress, NormalizeFilename];
    var normalized := env.normalizeString(input.filename);
    if normalized.Failure? {
      return "", Some(normalized.error), steps;
    }
    var newFilename := normalized.value;

    steps := [ValidateAddress, NormalizeFilename, IssueToken];
    var newToken := GenerateNewToken(env);
    if newToken.Failure? {
      return "", Some(newToken.error), steps;
    }

    newFilename := BuildFilename(input.osTarget, newFilename, env.newUUID);
    var buildCmd := BuildCommand(HandleOSType(input.osTarget), RunHidden(input.runHidden), appVersion,
                                 input.serverPort, input.serverAddress, newToken.value, newFilename);

    steps := [ValidateAddress, NormalizeFilename, IssueToken, RunBuild(BuildDir, buildCmd)];
    assert steps[3].RunBuild?;
    var result := env.run(BuildDir, buildCmd);
    if result.err.Some? {
      // fmt.Errorf("%w:%s", err, outputErr)
      return "", Some(Wrapped("", result.err.value, ":" + result.output)), steps;
    }
    return newFilename, None, steps;
  }
}
