/**
 * The register-yubikey-otp-device tool: registers a YubiKey OTP device for a
 * user, or deregisters one device or all of them, through a single extended
 * operation on one directory-server connection.
 *
 * What the tool cannot see is given to it as values or as scripted objects:
 * the connection attempt (an LDAPConnection that answers the one extended
 * operation with a fixed outcome, or the exception getConnection threw), the
 * password file (a reader whose first line is fixed, or the exception opening
 * it threw) and the terminal (which yields a fixed typed password or failure).
 */
module RegisterYubiKeyOTPDevice {
  import opened Wrappers
  import opened ArgumentParsing

  // ---------------------------------------------------------------------------
  // Result codes, exceptions and extended results
  // ---------------------------------------------------------------------------

  /** An LDAP result code, compared by its integer value. */
  datatype ResultCode = ResultCode(intValue: int)

  const SUCCESS: ResultCode := ResultCode(0)

  /** The client-side "local error" result code (0x52). */
  const LOCAL_ERROR: ResultCode := ResultCode(82)

  datatype LDAPException = LDAPException(resultCode: ResultCode, message: string)

  datatype ExtendedResult = ExtendedResult(resultCode: ResultCode, diagnosticMessage: string)

  /** What `processExtendedOperation` did: returned a result or threw. */
  datatype OperationOutcome = Returned(result: ExtendedResult) | Threw(exception: LDAPException)

  /** `new ExtendedResult(le)`: the result that stands for a thrown exception. */
  function ExtendedResultFor(le: LDAPException): (r: ExtendedResult)
    ensures r.resultCode == le.resultCode
  {
    ExtendedResult(le.resultCode, le.message)
  }

  /** The try/catch around `processExtendedOperation`: an exception becomes a result with its code. */
  function ResultOf(outcome: OperationOutcome): (r: ExtendedResult)
    ensures outcome.Returned? ==> r == outcome.result
    ensures outcome.Threw? ==> r.resultCode == outcome.exception.resultCode
  {
    match outcome
    case Returned(result) => result
    case Threw(le) => ExtendedResultFor(le)
  }

  // ---------------------------------------------------------------------------
  // Bytes
  // ---------------------------------------------------------------------------

  newtype byte = x: int | 0 <= x < 256

  /** The UTF-8 encoding of one character. */
  function Utf8(c: char): (r: seq<byte>)
    ensures 1 <= |r| <= 4
    ensures |r| == 1 <==> c as int < 0x80
    ensures c as int < 0x80 ==> r[0] as int == c as int
  {
    var n := c as int;
    if n < 0x80 then [n as byte]
    else if n < 0x800 then [(0xC0 + n / 0x40) as byte, (0x80 + n % 0x40) as byte]
    else if n < 0x10000 then
      [(0xE0 + n / 0x1000) as byte, (0x80 + (n / 0x40) % 0x40) as byte, (0x80 + n % 0x40) as byte]
    else
      [(0xF0 + n / 0x40000) as byte, (0x80 + (n / 0x1000) % 0x40) as byte,
       (0x80 + (n / 0x40) % 0x40) as byte, (0x80 + n % 0x40) as byte]
  }

  /** `StaticUtils.getBytes`: the UTF-8 encoding of a string. */
  function GetBytes(s: string): (r: seq<byte>)
    ensures |s| <= |r| <= 4 * |s|
  {
    if s == [] then [] else Utf8(s[0]) + GetBytes(s[1..])
  }

  /** An ASCII string encodes to one byte per character, its code. */
  lemma {:induction false} GetBytesAscii(s: string)
    requires forall i :: 0 <= i < |s| ==> s[i] as int < 0x80
    ensures |GetBytes(s)| == |s|
    ensures forall i :: 0 <= i < |s| ==> GetBytes(s)[i] as int == s[i] as int
  {
    if s != [] {
      GetBytesAscii(s[1..]);
      assert forall i :: 1 <= i < |s| ==> s[i] == s[1..][i - 1];
    }
  }

  // ---------------------------------------------------------------------------
  // The invocation: which arguments are present, with their values
  // ---------------------------------------------------------------------------

  datatype Invocation = Invocation(
    deregister: bool,
    otp: Option<string>,
    authID: Option<string>,
    userPassword: Option<string>,
    userPasswordFile: Option<string>,
    promptForUserPassword: bool)

  /** At most one of the three static-password sources is given. */
  predicate AtMostOneSource(inv: Invocation)
  {
    && !(inv.userPassword.Some? && inv.userPasswordFile.Some?)
    && !(inv.userPassword.Some? && inv.promptForUserPassword)
    && !(inv.userPasswordFile.Some? && inv.promptForUserPassword)
  }

  /** Each static-password source needs an authentication ID. */
  predicate SourcesHaveAuthID(inv: Invocation)
  {
    (inv.userPassword.Some? || inv.userPasswordFile.Some? || inv.promptForUserPassword) ==> inv.authID.Some?
  }

  /** The tool's own rule: there is an OTP to register, or the request is a deregistration. */
  predicate HasOtpOrDeregisters(inv: Invocation)
  {
    inv.deregister || inv.otp.Some?
  }

  // The long identifiers of the tool's own arguments.
  const DEREGISTER: string := "deregister"
  const OTP: string := "otp"
  const AUTH_ID: string := "authID"
  const USER_PASSWORD: string := "userPassword"
  const USER_PASSWORD_FILE: string := "userPasswordFile"
  const PROMPT_FOR_USER_PASSWORD: string := "promptForUserPassword"

  /** The four argument sets the tool declares. */
  function ToolArgumentSets(
    userPassword: Argument, userPasswordFile: Argument,
    promptForUserPassword: Argument, authenticationID: Argument): seq<ArgumentSet>
  {
    [Exclusive([userPassword, userPasswordFile, promptForUserPassword]),
     Dependent(userPassword, [authenticationID]),
     Dependent(userPasswordFile, [authenticationID]),
     Dependent(promptForUserPassword, [authenticationID])]
  }

  /** `doExtendedNonLDAPArgumentValidation`, over the presence of its two arguments. */
  function ExtendedValidation(deregisterPresent: bool, otpPresent: bool, otpIdentifier: string): (r: Outcome<ArgumentException>)
    ensures r.Fail? <==> !deregisterPresent && !otpPresent
    ensures r.Fail? ==> r.error == NoOtpToRegister(otpIdentifier)
  {
    if !deregisterPresent && !otpPresent then Fail(NoOtpToRegister(otpIdentifier)) else Pass
  }

  // ---------------------------------------------------------------------------
  // What one run of doToolProcessing decides
  // ---------------------------------------------------------------------------

  datatype Request =
    | RegisterRequest(authID: Option<string>, staticPassword: Option<seq<byte>>, otp: string)
    | DeregisterRequest(authID: Option<string>, staticPassword: Option<seq<byte>>, otpToDeregister: Option<string>)

  /** The message the tool writes, by kind, with the values it names. */
  datatype Message =
    | CannotConnect(cause: string)
    | CannotReadPassword(cause: string)
    | RegisterSucceeded(authID: Option<string>)
    | RegisterFailed(authID: Option<string>, result: ExtendedResult)
    | DeregisterOneSucceeded(authID: Option<string>)
    | DeregisterAllSucceeded(authID: Option<string>)
    | DeregisterFailed(authID: Option<string>, result: ExtendedResult)

  /** Opening the password file: the exception it threw, or the outcome of reading its first line. */
  datatype FileOutcome = CannotOpen(cause: string) | Opened(firstLine: Result<string, string>)

  /** The tool's result code, its message, and the request it sent, if any. */
  datatype Run = Run(code: ResultCode, message: Message, request: Option<Request>)

  /**
   * The static password: the first source present, in the order inline value,
   * first line of the file, interactive prompt; None when no source is given.
   * A file or terminal failure is an error carrying its cause.
   */
  function StaticPassword(inv: Invocation, passwordFile: FileOutcome, typed: Result<seq<byte>, string>): (r: Result<Option<seq<byte>>, string>)
    ensures inv.userPassword.Some? ==> r == Success(Some(GetBytes(inv.userPassword.value)))
    ensures r == Success(None) <==> inv.userPassword.None? && inv.userPasswordFile.None? && !inv.promptForUserPassword
    ensures r.Failure? ==> inv.userPassword.None? && (inv.userPasswordFile.Some? || inv.promptForUserPassword)
    ensures inv.userPassword.None? && inv.userPasswordFile.Some? ==>
      (r.Failure? <==> passwordFile.CannotOpen? || passwordFile.firstLine.Failure?)
    ensures inv.userPassword.None? && inv.userPasswordFile.Some? &&
            passwordFile.Opened? && passwordFile.firstLine.Success? ==>
      r == Success(Some(GetBytes(passwordFile.firstLine.value)))
    ensures inv.userPassword.None? && inv.userPasswordFile.None? && inv.promptForUserPassword ==>
      (r.Failure? <==> typed.Failure?) && (typed.Success? ==> r == Success(Some(typed.value)))
  {
    if inv.userPassword.Some? then Success(Some(GetBytes(inv.userPassword.value)))
    else if inv.userPasswordFile.Some? then
      match passwordFile
      case CannotOpen(cause) => Failure(cause)
      case Opened(Failure(cause)) => Failure(cause)
      case Opened(Success(line)) => Success(Some(GetBytes(line)))
    else if inv.promptForUserPassword then
      match typed
      case Failure(cause) => Failure(cause)
      case Success(password) => Success(Some(password))
    else Success(None)
  }

  /** The register or deregister request built from the arguments and the static password. */
  function BuildRequest(inv: Invocation, staticPassword: Option<seq<byte>>): (r: Request)
    requires HasOtpOrDeregisters(inv)
    ensures r.DeregisterRequest? <==> inv.deregister
    ensures r.authID == inv.authID && r.staticPassword == staticPassword
    ensures r.RegisterRequest? ==> Some(r.otp) == inv.otp
    ensures r.DeregisterRequest? ==> r.otpToDeregister == inv.otp
  {
    if inv.deregister then DeregisterRequest(inv.authID, staticPassword, inv.otp)
    else RegisterRequest(inv.authID, staticPassword, inv.otp.value)
  }

  /** The code and message for the result of the sent request. */
  function Report(inv: Invocation, result: ExtendedResult): (r: (ResultCode, Message))
    ensures r.0 == result.resultCode
    ensures result.resultCode == SUCCESS ==>
      r.1 == (if !inv.deregister then RegisterSucceeded(inv.authID)
              else if inv.otp.Some? then DeregisterOneSucceeded(inv.authID)
              else DeregisterAllSucceeded(inv.authID))
    ensures result.resultCode != SUCCESS ==>
      r.1 == (if inv.deregister then DeregisterFailed(inv.authID, result) else RegisterFailed(inv.authID, result))
  {
    if inv.deregister then
      if result.resultCode == SUCCESS then
        if inv.otp.Some? then (SUCCESS, DeregisterOneSucceeded(inv.authID))
        else (SUCCESS, DeregisterAllSucceeded(inv.authID))
      else (result.resultCode, DeregisterFailed(inv.authID, result))
    else
      if result.resultCode == SUCCESS then (SUCCESS, RegisterSucceeded(inv.authID))
      else (result.resultCode, RegisterFailed(inv.authID, result))
  }

  /**
   * What `doToolProcessing` decides, given the connection attempt (the
   * operation's outcome once connected, or the connect exception), the
   * password file and the terminal.
   */
  function Dispatch(inv: Invocation, connect: Result<OperationOutcome, LDAPException>,
                    passwordFile: FileOutcome, typed: Result<seq<byte>, string>): (run: Run)
    requires HasOtpOrDeregisters(inv)
    ensures connect.Failure? ==>
      run == Run(connect.error.resultCode, CannotConnect(connect.error.message), None)
    ensures connect.Success? && StaticPassword(inv, passwordFile, typed).Failure? ==>
      run == Run(LOCAL_ERROR, CannotReadPassword(StaticPassword(inv, passwordFile, typed).error), None)
    ensures run.request.Some? <==> connect.Success? && StaticPassword(inv, passwordFile, typed).Success?
    ensures run.request.Some? ==>
      && run.request.value == BuildRequest(inv, StaticPassword(inv, passwordFile, typed).value)
      && (run.code, run.message) == Report(inv, ResultOf(connect.value))
  {
    match connect
    case Failure(le) => Run(le.resultCode, CannotConnect(le.message), None)
    case Success(outcome) =>
      match StaticPassword(inv, passwordFile, typed)
      case Failure(cause) => Run(LOCAL_ERROR, CannotReadPassword(cause), None)
      case Success(staticPassword) =>
        var report := Report(inv, ResultOf(outcome));
        Run(report.0, report.1, Some(BuildRequest(inv, staticPassword)))
  }

  // ---------------------------------------------------------------------------
  // Properties of a run
  // ---------------------------------------------------------------------------

  /** A register request always carries the OTP given on the command line. */
  lemma RegisterCarriesOtp(inv: Invocation, connect: Result<OperationOutcome, LDAPException>,
                           passwordFile: FileOutcome, typed: Result<seq<byte>, string>)
    requires HasOtpOrDeregisters(inv)
    ensures var run := Dispatch(inv, connect, passwordFile, typed);
      run.request.Some? && run.request.value.RegisterRequest? ==>
        !inv.deregister && inv.otp == Some(run.request.value.otp)
  {
  }

  /**
   * A run that sent nothing either could not connect, or it chose the password
   * file or the prompt as the static-password source and reading from it failed.
   */
  lemma NothingSentMeansLocalFailure(inv: Invocation, connect: Result<OperationOutcome, LDAPException>,
                                     passwordFile: FileOutcome, typed: Result<seq<byte>, string>)
    requires HasOtpOrDeregisters(inv)
    ensures var run := Dispatch(inv, connect, passwordFile, typed);
      run.request.None? ==>
        || (connect.Failure? && run.code == connect.error.resultCode)
        || (&& connect.Success? && run.code == LOCAL_ERROR
            && StaticPassword(inv, passwordFile, typed).Failure?
            && inv.userPassword.None?
            && (if inv.userPasswordFile.Some?
                then passwordFile.CannotOpen? || passwordFile.firstLine.Failure?
                else inv.promptForUserPassword && typed.Failure?))
  {
  }

  /**
   * A thrown exception is reported exactly as a returned result with the same
   * code and message would be: it never escapes, and it changes nothing else.
   */
  lemma ThrownLikeReturned(inv: Invocation, le: LDAPException,
                           passwordFile: FileOutcome, typed: Result<seq<byte>, string>)
    requires HasOtpOrDeregisters(inv)
    ensures Dispatch(inv, Success(Threw(le)), passwordFile, typed)
         == Dispatch(inv, Success(Returned(ExtendedResult(le.resultCode, le.message))), passwordFile, typed)
  {
  }

  /**
   * The tool reports SUCCESS exactly for a request the server accepted, or
   * for a connection exception that itself carries SUCCESS, since a connect
   * failure's code is returned unchanged.
   */
  lemma SuccessMeansAccepted(inv: Invocation, connect: Result<OperationOutcome, LDAPException>,
                             passwordFile: FileOutcome, typed: Result<seq<byte>, string>)
    requires HasOtpOrDeregisters(inv)
    ensures var run := Dispatch(inv, connect, passwordFile, typed);
      run.code == SUCCESS <==>
        || (run.request.Some? && ResultOf(connect.value).resultCode == SUCCESS)
        || (connect.Failure? && connect.error.resultCode == SUCCESS)
  {
  }

  // ---------------------------------------------------------------------------
  // main
  // ---------------------------------------------------------------------------

  /** `main(String...)`: the value passed to System.exit, or None when main returns normally. */
  function ExitCall(resultCode: ResultCode): (r: Option<int>)
    ensures r.None? <==> resultCode == SUCCESS
    ensures r.Some? ==> r.value == resultCode.intValue
  {
    if resultCode != SUCCESS then Some(resultCode.intValue) else None
  }

  /** The status `main` ends with: 0 when it returns normally, the value passed to System.exit otherwise. */
  function ExitStatus(resultCode: ResultCode): int
  {
    match ExitCall(resultCode)
    case None => 0
    case Some(status) => status
  }

  /** That status always equals the result code's integer value. */
  lemma ExitStatusIsCode(resultCode: ResultCode)
    ensures ExitStatus(resultCode) == resultCode.intValue
  {
  }

  // ---------------------------------------------------------------------------
  // The scripted collaborators
  // ---------------------------------------------------------------------------

  /** An established connection that answers the one extended operation with `response`. */
  class LDAPConnection {
    const response: OperationOutcome
    var sent: seq<Request>
    var closed: bool

    constructor (response: OperationOutcome)
      ensures this.response == response && sent == [] && !closed
    {
      this.response := response;
      sent := [];
      closed := false;
    }

    method ProcessExtendedOperation(r: Request) returns (outcome: OperationOutcome)
      modifies this
      ensures sent == old(sent) + [r] && closed == old(closed)
      ensures outcome == response
    {
      sent := sent + [r];
      outcome := response;
    }

    method Close()
      modifies this
      ensures closed && sent == old(sent)
    {
      closed := true;
    }
  }

  /** A reader over the opened password file; only its first line is ever read. */
  class PasswordFileReader {
    const firstLine: Result<string, string>
    var linesRead: nat
    var closed: bool

    constructor (firstLine: Result<string, string>)
      ensures this.firstLine == firstLine && linesRead == 0 && !closed
    {
      this.firstLine := firstLine;
      linesRead := 0;
      closed := false;
    }

    method ReadLine() returns (line: Result<string, string>)
      modifies this
      ensures line == firstLine
      ensures linesRead == old(linesRead) + 1 && closed == old(closed)
    {
      line := firstLine;
      linesRead := linesRead + 1;
    }

    method Close()
      modifies this
      ensures closed && linesRead == old(linesRead)
    {
      closed := true;
    }
  }

  /** The terminal: the password prompts written to it and the password typed at it. */
  class Terminal {
    const typed: Result<seq<byte>, string>
    var prompts: seq<Option<string>>
    var passwordReads: nat

    constructor (typed: Result<seq<byte>, string>)
      ensures this.typed == typed && prompts == [] && passwordReads == 0
    {
      this.typed := typed;
      prompts := [];
      passwordReads := 0;
    }

    /** Writes the prompt asking for the password of `authID`. */
    method PrintPasswordPrompt(authID: Option<string>)
      modifies this
      ensures prompts == old(prompts) + [authID] && passwordReads == old(passwordReads)
    {
      prompts := prompts + [authID];
    }

    /** `PasswordReader.readPassword()`. */
    method ReadPassword() returns (password: Result<seq<byte>, string>)
      modifies this
      ensures password == typed
      ensures passwordReads == old(passwordReads) + 1 && prompts == old(prompts)
    {
      password := typed;
      passwordReads := passwordReads + 1;
    }
  }

  function ConnectOutcome(connection: Result<LDAPConnection, LDAPException>): Result<OperationOutcome, LDAPException>
  {
    match connection
    case Success(conn) => Success(conn.response)
    case Failure(le) => Failure(le)
  }

  function FileOutcomeOf(passwordFile: Result<PasswordFileReader, string>): FileOutcome
  {
    match passwordFile
    case Success(reader) => Opened(reader.firstLine)
    case Failure(cause) => CannotOpen(cause)
  }

  // ---------------------------------------------------------------------------
  // The tool
  // ---------------------------------------------------------------------------

  class RegisterYubiKeyOTPDevice {
    var deregister: Argument?
    var otp: Argument?
    var authenticationID: Argument?
    var userPassword: Argument?
    var userPasswordFile: Argument?
    var promptForUserPassword: Argument?

    constructor ()
      ensures deregister == null && otp == null && authenticationID == null
      ensures userPassword == null && userPasswordFile == null && promptForUserPassword == null
    {
      deregister := null;
      otp := null;
      authenticationID := null;
      userPassword := null;
      userPasswordFile := null;
      promptForUserPassword := null;
    }

    /** The six arguments have been declared: distinct objects, flags and value arguments as declared. */
    ghost predicate ArgumentsAdded()
      reads this
    {
      && deregister != null && otp != null && authenticationID != null
      && userPassword != null && userPasswordFile != null && promptForUserPassword != null
      && !deregister.takesValue && otp.takesValue && authenticationID.takesValue
      && userPassword.takesValue && userPasswordFile.takesValue && !promptForUserPassword.takesValue
      && userPassword != userPasswordFile && userPassword != promptForUserPassword
      && userPasswordFile != promptForUserPassword
      && authenticationID !in {userPassword, userPasswordFile, promptForUserPassword}
    }

    /** Declares the six arguments and the argument sets that constrain them. */
    method AddNonLDAPArguments(parser: ArgumentParser)
      modifies this, parser
      ensures ArgumentsAdded()
      ensures fresh(deregister) && fresh(otp) && fresh(authenticationID)
      ensures fresh(userPassword) && fresh(userPasswordFile) && fresh(promptForUserPassword)
      ensures deregister.longIdentifier == DEREGISTER && otp.longIdentifier == OTP
      ensures authenticationID.longIdentifier == AUTH_ID && userPassword.longIdentifier == USER_PASSWORD
      ensures userPasswordFile.longIdentifier == USER_PASSWORD_FILE
      ensures promptForUserPassword.longIdentifier == PROMPT_FOR_USER_PASSWORD
      ensures parser.arguments == old(parser.arguments) +
        [deregister, otp, authenticationID, userPassword, userPasswordFile, promptForUserPassword]
      ensures parser.argumentSets == old(parser.argumentSets) +
        ToolArgumentSets(userPassword, userPasswordFile, promptForUserPassword, authenticationID)
    {
      var d := new Argument(DEREGISTER, false);
      var o := new Argument(OTP, true);
      var a := new Argument(AUTH_ID, true);
      var up := new Argument(USER_PASSWORD, true);
      var upf := new Argument(USER_PASSWORD_FILE, true);
      var pr := new Argument(PROMPT_FOR_USER_PASSWORD, false);
      deregister, otp, authenticationID := d, o, a;
      userPassword, userPasswordFile, promptForUserPassword := up, upf, pr;
      Declare(parser, d, o, a, up, upf, pr);
    }

    /** Hands the six arguments and the four argument sets to the parser, in declaration order. */
    static method Declare(parser: ArgumentParser, d: Argument, o: Argument, a: Argument,
                          up: Argument, upf: Argument, pr: Argument)
      modifies parser
      ensures parser.arguments == old(parser.arguments) + [d, o, a, up, upf, pr]
      ensures parser.argumentSets == old(parser.argumentSets) + ToolArgumentSets(up, upf, pr, a)
    {
      parser.AddArgument(d);
      parser.AddArgument(o);
      parser.AddArgument(a);
      parser.AddArgument(up);
      parser.AddArgument(upf);
      parser.AddArgument(pr);
      assert [up, upf] + [pr] == [up, upf, pr] && [a] + [] == [a];
      parser.AddExclusiveArgumentSet(up, upf, [pr]);
      parser.AddDependentArgumentSet(up, a, []);
      parser.AddDependentArgumentSet(upf, a, []);
      parser.AddDependentArgumentSet(pr, a, []);
    }

    /** The presence and values of the six arguments in a parse result. */
    function Snapshot(parsed: Parsed): (inv: Invocation)
      reads this
      requires ArgumentsAdded() && WellParsed(parsed)
      ensures inv.deregister <==> deregister in parsed
      ensures inv.otp.Some? <==> otp in parsed
      ensures inv.authID.Some? <==> authenticationID in parsed
      ensures inv.userPassword.Some? <==> userPassword in parsed
      ensures inv.userPasswordFile.Some? <==> userPasswordFile in parsed
      ensures inv.promptForUserPassword <==> promptForUserPassword in parsed
      ensures otp in parsed ==> inv.otp == parsed[otp]
      ensures authenticationID in parsed ==> inv.authID == parsed[authenticationID]
      ensures userPassword in parsed ==> inv.userPassword == parsed[userPassword]
      ensures userPasswordFile in parsed ==> inv.userPasswordFile == parsed[userPasswordFile]
    {
      Invocation(
        deregister in parsed,
        ValueOf(parsed, otp),
        ValueOf(parsed, authenticationID),
        ValueOf(parsed, userPassword),
        ValueOf(parsed, userPasswordFile),
        promptForUserPassword in parsed)
    }

    /**
     * A parse result passes the tool's argument sets and its extended
     * validation exactly when at most one static-password source is given,
     * any source comes with an authentication ID, and there is an OTP to
     * register or the request is a deregistration.
     */
    lemma AcceptedInvocations(parsed: Parsed)
      requires ArgumentsAdded() && WellParsed(parsed)
      ensures var sets := ToolArgumentSets(userPassword, userPasswordFile, promptForUserPassword, authenticationID);
        var inv := Snapshot(parsed);
        Violations(sets, parsed) == [] && DoExtendedNonLDAPArgumentValidation(parsed).Pass? <==>
          AtMostOneSource(inv) && SourcesHaveAuthID(inv) && HasOtpOrDeregisters(inv)
    {
      ToolArgumentSetsMeaning(userPassword, userPasswordFile, promptForUserPassword, authenticationID, parsed);
    }

    /** `doExtendedNonLDAPArgumentValidation`: fails exactly when neither --deregister nor --otp is present. */
    function DoExtendedNonLDAPArgumentValidation(parsed: Parsed): (r: Outcome<ArgumentException>)
      reads this
      requires ArgumentsAdded()
      ensures r.Fail? <==> deregister !in parsed && otp !in parsed
    {
      ExtendedValidation(deregister in parsed, otp in parsed, "--" + otp.longIdentifier)
    }

    /**
     * `doToolProcessing`: connect, obtain the static password, send the one
     * request and report its result; the connection, once open, is closed on
     * every path, and the password file, once opened, is closed too.
     */
    method DoToolProcessing(parsed: Parsed, connection: Result<LDAPConnection, LDAPException>,
                            passwordFile: Result<PasswordFileReader, string>, terminal: Terminal)
      returns (code: ResultCode, message: Message)
      requires ArgumentsAdded() && WellParsed(parsed)
      requires DoExtendedNonLDAPArgumentValidation(parsed).Pass?
      modifies (if connection.Success? then {connection.value} else {}),
               (if passwordFile.Success? then {passwordFile.value} else {}), terminal
      ensures HasOtpOrDeregisters(Snapshot(parsed))
      ensures var run := Dispatch(Snapshot(parsed), ConnectOutcome(connection), FileOutcomeOf(passwordFile), terminal.typed);
        && code == run.code && message == run.message
        && (connection.Success? ==>
              && connection.value.closed
              && connection.value.sent == old(connection.value.sent) + (if run.request.Some? then [run.request.value] else []))
      ensures var inv := Snapshot(parsed);
        var readsFile := connection.Success? && inv.userPassword.None? && inv.userPasswordFile.Some?;
        passwordFile.Success? ==>
          && passwordFile.value.closed == (old(passwordFile.value.closed) || readsFile)
          && passwordFile.value.linesRead == old(passwordFile.value.linesRead) + (if readsFile then 1 else 0)
      ensures var inv := Snapshot(parsed);
        var prompts := connection.Success? && inv.userPassword.None? && inv.userPasswordFile.None? && inv.promptForUserPassword;
        && terminal.prompts == old(terminal.prompts) + (if prompts then [inv.authID] else [])
        && terminal.passwordReads == old(terminal.passwordReads) + (if prompts then 1 else 0)
    {
      if connection.Failure? {
        var le := connection.error;
        return le.resultCode, CannotConnect(le.message);
      }
      var conn := connection.value;
      code, message := ProcessOnConnection(parsed, conn, passwordFile, terminal);
      conn.Close();
    }

    /** The body of the try block whose finally clause closes the connection. */
    method ProcessOnConnection(parsed: Parsed, conn: LDAPConnection,
                               passwordFile: Result<PasswordFileReader, string>, terminal: Terminal)
      returns (code: ResultCode, message: Message)
      requires ArgumentsAdded() && WellParsed(parsed)
      requires DoExtendedNonLDAPArgumentValidation(parsed).Pass?
      modifies conn, (if passwordFile.Success? then {passwordFile.value} else {}), terminal
      ensures var run := Dispatch(Snapshot(parsed), Success(conn.response), FileOutcomeOf(passwordFile), terminal.typed);
        && code == run.code && message == run.message
        && conn.sent == old(conn.sent) + (if run.request.Some? then [run.request.value] else [])
        && conn.closed == old(conn.closed)
      ensures var inv := Snapshot(parsed);
        var readsFile := inv.userPassword.None? && inv.userPasswordFile.Some?;
        passwordFile.Success? ==>
          && passwordFile.value.closed == (old(passwordFile.value.closed) || readsFile)
          && passwordFile.value.linesRead == old(passwordFile.value.linesRead) + (if readsFile then 1 else 0)
      ensures var inv := Snapshot(parsed);
        var prompts := inv.userPassword.None? && inv.userPasswordFile.None? && inv.promptForUserPassword;
        && terminal.prompts == old(terminal.prompts) + (if prompts then [inv.authID] else [])
        && terminal.passwordReads == old(terminal.passwordReads) + (if prompts then 1 else 0)
    {
      var staticPassword := ReadStaticPassword(parsed, passwordFile, terminal);
      if staticPassword.Failure? {
        return LOCAL_ERROR, CannotReadPassword(staticPassword.error);
      }
      code, message := SendRequest(parsed, conn, staticPassword.value);
    }

    /** Obtains the static password from the first source given: inline value, file, prompt. */
    method ReadStaticPassword(parsed: Parsed, passwordFile: Result<PasswordFileReader, string>, terminal: Terminal)
      returns (staticPassword: Result<Option<seq<byte>>, string>)
      requires ArgumentsAdded() && WellParsed(parsed)
      modifies (if passwordFile.Success? then {passwordFile.value} else {}), terminal
      ensures staticPassword == StaticPassword(Snapshot(parsed), FileOutcomeOf(passwordFile), terminal.typed)
      ensures var readsFile := userPassword !in parsed && userPasswordFile in parsed;
        passwordFile.Success? ==>
          && passwordFile.value.closed == (old(passwordFile.value.closed) || readsFile)
          && passwordFile.value.linesRead == old(passwordFile.value.linesRead) + (if readsFile then 1 else 0)
      ensures var prompts := userPassword !in parsed && userPasswordFile !in parsed && promptForUserPassword in parsed;
        && terminal.prompts == old(terminal.prompts) + (if prompts then [ValueOf(parsed, authenticationID)] else [])
        && terminal.passwordReads == old(terminal.passwordReads) + (if prompts then 1 else 0)
    {
      if userPassword in parsed {
        staticPassword := Success(Some(GetBytes(parsed[userPassword].value)));
      } else if userPasswordFile in parsed {
        if passwordFile.Failure? {
          return Failure(passwordFile.error);
        }
        var reader := passwordFile.value;
        var line := reader.ReadLine();
        reader.Close();
        if line.Failure? {
          return Failure(line.error);
        }
        staticPassword := Success(Some(GetBytes(line.value)));
      } else if promptForUserPassword in parsed {
        terminal.PrintPasswordPrompt(ValueOf(parsed, authenticationID));
        var typed := terminal.ReadPassword();
        if typed.Failure? {
          return Failure(typed.error);
        }
        staticPassword := Success(Some(typed.value));
      } else {
        staticPassword := Success(None);
      }
    }

    /** Builds the register or deregister request, sends it and reports its result. */
    method SendRequest(parsed: Parsed, conn: LDAPConnection, staticPassword: Option<seq<byte>>)
      returns (code: ResultCode, message: Message)
      requires ArgumentsAdded() && WellParsed(parsed)
      requires DoExtendedNonLDAPArgumentValidation(parsed).Pass?
      modifies conn
      ensures HasOtpOrDeregisters(Snapshot(parsed))
      ensures (code, message) == Report(Snapshot(parsed), ResultOf(conn.response))
      ensures conn.sent == old(conn.sent) + [BuildRequest(Snapshot(parsed), staticPassword)]
      ensures conn.closed == old(conn.closed)
    {
      var authID := ValueOf(parsed, authenticationID);
      if deregister in parsed {
        var r := DeregisterRequest(authID, staticPassword, ValueOf(parsed, otp));
        var outcome := conn.ProcessExtendedOperation(r);
        var deregisterResult: ExtendedResult;
        match outcome {
          case Returned(result) => deregisterResult := result;
          case Threw(le) => deregisterResult := ExtendedResultFor(le);
        }
        if deregisterResult.resultCode == SUCCESS {
          if otp in parsed {
            message := DeregisterOneSucceeded(authID);
          } else {
            message := DeregisterAllSucceeded(authID);
          }
          return SUCCESS, message;
        } else {
          return deregisterResult.resultCode, DeregisterFailed(authID, deregisterResult);
        }
      } else {
        var r := RegisterRequest(authID, staticPassword, parsed[otp].value);
        var outcome := conn.ProcessExtendedOperation(r);
        var registerResult: ExtendedResult;
        match outcome {
          case Returned(result) => registerResult := result;
          case Threw(le) => registerResult := ExtendedResultFor(le);
        }
        if registerResult.resultCode == SUCCESS {
          return SUCCESS, RegisterSucceeded(authID);
        } else {
          return registerResult.resultCode, RegisterFailed(authID, registerResult);
        }
      }
    }
  }

  /**
   * The argument sets the tool declares hold exactly when at most one
   * static-password source is present and any source present comes with an
   * authentication ID.
   */
  lemma {:induction false} ToolArgumentSetsMeaning(
    userPassword: Argument, userPasswordFile: Argument,
    promptForUserPassword: Argument, authenticationID: Argument, parsed: Parsed)
    ensures var sets := ToolArgumentSets(userPassword, userPasswordFile, promptForUserPassword, authenticationID);
      Violations(sets, parsed) == [] <==>
        && !(userPassword in parsed && userPasswordFile in parsed)
        && !(userPassword in parsed && promptForUserPassword in parsed)
        && !(userPasswordFile in parsed && promptForUserPassword in parsed)
        && ((userPassword in parsed || userPasswordFile in parsed || promptForUserPassword in parsed)
              ==> authenticationID in parsed)
  {
    var sets := ToolArgumentSets(userPassword, userPasswordFile, promptForUserPassword, authenticationID);
    ExclusiveOfThree(userPassword, userPasswordFile, promptForUserPassword, parsed);
    DependentOnOne(userPassword, authenticationID, parsed);
    DependentOnOne(userPasswordFile, authenticationID, parsed);
    DependentOnOne(promptForUserPassword, authenticationID, parsed);
    assert (forall i :: 0 <= i < |sets| ==> Satisfied(sets[i], parsed)) <==>
      Satisfied(sets[0], parsed) && Satisfied(sets[1], parsed) && Satisfied(sets[2], parsed) && Satisfied(sets[3], parsed);
  }
}
