/**
  `PDFSigner`: checks the input PDF and the PKCS#12 certificate, builds the
  `pyhanko` argument vector and maps the subprocess outcome to a result. The
  subprocess itself is not modelled: its outcome is an input.
 */
module Signer {
  import opened Wrappers
  import opened Paths
  import opened Documents

  /** `PDFSignerError`, carrying its message. */
  datatype SignerError = SignerError(message: string)

  /**
    How `subprocess.run(..., check=True)` ends: the executable is missing
    (`FileNotFoundError`), it exits non-zero (`CalledProcessError`, with its
    captured stderr and its own `str()` text), or it exits 0 with its stdout.
   */
  datatype ProcessOutcome =
    | ToolMissing
    | NonZeroExit(stderr: string, description: string)
    | Exited(stdout: string)

  /** The arguments of `sign_pdf`. */
  datatype SignRequest = SignRequest(
    input: Path, cert: Path, password: string, output: Path,
    reason: Option<string>, location: Option<string>, contact: Option<string>)

  /** The command launched, if any, and what the call returns or raises. */
  datatype Invocation<T> = Invocation(command: Option<seq<string>>, result: Result<T, SignerError>)

  const ToolMissingMessage := "pyhanko command not found. Please ensure pyHanko is installed."
  const SignFailedPrefix := "Failed to sign PDF: "
  const ValidateFailedPrefix := "Signature validation failed: "

  /** Python truthiness of an optional string: present and non-empty. */
  predicate Provided(o: Option<string>)
  {
    o.Some? && o.value != ""
  }

  /** An optional field with a falsy value dropped. */
  function Kept(o: Option<string>): (k: Option<string>)
    ensures Provided(o) ==> k == o
    ensures !Provided(o) ==> k == None
  {
    if Provided(o) then o else None
  }

  /** The request as the command sees it: empty optional values count as absent. */
  function Normalize(r: SignRequest): SignRequest
  {
    r.(reason := Kept(r.reason), location := Kept(r.location), contact := Kept(r.contact))
  }

  function ProvidedCount(r: SignRequest): nat
  {
    (if Provided(r.reason) then 1 else 0)
    + (if Provided(r.location) then 1 else 0)
    + (if Provided(r.contact) then 1 else 0)
  }

  /** `[flag, value]` when the value is provided, nothing otherwise. */
  function FlagPair(flag: string, o: Option<string>): (pair: seq<string>)
    ensures |pair| == if Provided(o) then 2 else 0
    ensures Provided(o) ==> pair[0] == flag
  {
    if Provided(o) then [flag, o.value] else []
  }

  function SignPrefix(cert: Path, password: string): seq<string>
  {
    ["pyhanko", "sign", "addsig", "--p12-file", cert, "--p12-password", password]
  }

  /** The `cmd` list `sign_pdf` hands to the subprocess. */
  function SignCommand(r: SignRequest): (argv: seq<string>)
    ensures |argv| == 10 + 2 * ProvidedCount(r)
    ensures argv[..7] == SignPrefix(r.cert, r.password)
    ensures argv[|argv| - 3..] == [r.input, "-o", r.output]
  {
    SignPrefix(r.cert, r.password)
    + FlagPair("--reason", r.reason)
    + FlagPair("--location", r.location)
    + FlagPair("--contact-info", r.contact)
    + [r.input, "-o", r.output]
  }

  /** Takes a leading `[flag, value]` pair off an argument list, if there is one. */
  function TakeFlag(args: seq<string>, flag: string): (Option<string>, seq<string>)
  {
    if |args| >= 2 && args[0] == flag then (Some(args[1]), args[2..]) else (None, args)
  }

  /**
    Reads a signing command back into its request: the fixed prefix, the
    optional pairs in their fixed order, and `<input> -o <output>`.
   */
  function ParseSignCommand(argv: seq<string>): Option<SignRequest>
  {
    if |argv| < 10 || argv[..4] != ["pyhanko", "sign", "addsig", "--p12-file"]
       || argv[5] != "--p12-password" || argv[|argv| - 2] != "-o"
    then None
    else
      var middle := argv[7..|argv| - 3];
      var (reason, m1) := TakeFlag(middle, "--reason");
      var (location, m2) := TakeFlag(m1, "--location");
      var (contact, m3) := TakeFlag(m2, "--contact-info");
      if m3 != [] then None
      else Some(SignRequest(argv[|argv| - 3], argv[4], argv[6], argv[|argv| - 1], reason, location, contact))
  }

  lemma TakeFlagPair(flag: string, o: Option<string>, rest: seq<string>)
    requires Provided(o) || |rest| < 2 || rest[0] != flag
    ensures TakeFlag(FlagPair(flag, o) + rest, flag) == (Kept(o), rest)
  {
    var args := FlagPair(flag, o) + rest;
    if Provided(o) {
      assert args[0] == flag && args[1] == o.value;
      assert args[2..] == rest;
    } else {
      assert args == rest;
    }
  }

  /**
    The command determines the request: parsing it gives back every field,
    with empty optional values read as absent.
   */
  lemma SignCommandRoundTrip(r: SignRequest)
    ensures ParseSignCommand(SignCommand(r)) == Some(Normalize(r))
  {
    var argv := SignCommand(r);
    var p3 := FlagPair("--contact-info", r.contact);
    var p2 := FlagPair("--location", r.location);
    var p1 := FlagPair("--reason", r.reason);
    assert argv == SignPrefix(r.cert, r.password) + (p1 + p2 + p3) + [r.input, "-o", r.output];
    var middle := argv[7..|argv| - 3];
    assert middle == p1 + (p2 + (p3 + []));
    assert p2 + (p3 + []) == [] || (p2 + (p3 + []))[0] in {"--location", "--contact-info"};
    TakeFlagPair("--reason", r.reason, p2 + (p3 + []));
    TakeFlagPair("--location", r.location, p3 + []);
    TakeFlagPair("--contact-info", r.contact, []);
  }

  /** Two requests give the same command exactly when they agree once normalised. */
  lemma SignCommandInjective(r: SignRequest, s: SignRequest)
    ensures SignCommand(r) == SignCommand(s) <==> Normalize(r) == Normalize(s)
  {
    SignCommandRoundTrip(r);
    SignCommandRoundTrip(s);
    if Normalize(r) == Normalize(s) {
      assert FlagPair("--reason", r.reason) == FlagPair("--reason", s.reason);
      assert FlagPair("--location", r.location) == FlagPair("--location", s.location);
      assert FlagPair("--contact-info", r.contact) == FlagPair("--contact-info", s.contact);
    }
  }

  /** An optional pair is in the command exactly when its value is provided. */
  lemma OptionalFlagsPresence(r: SignRequest)
    ensures ParseSignCommand(SignCommand(r)).Some?
    ensures Provided(r.reason) <==> ParseSignCommand(SignCommand(r)).value.reason.Some?
    ensures Provided(r.location) <==> ParseSignCommand(SignCommand(r)).value.location.Some?
    ensures Provided(r.contact) <==> ParseSignCommand(SignCommand(r)).value.contact.Some?
  {
    SignCommandRoundTrip(r);
  }

  /** The three checks, in order, that run before any command is built. */
  function CheckSignInputs(fs: FileSystem, r: SignRequest): (o: Outcome<SignerError>)
    ensures o.Pass? <==> r.input in fs && r.cert in fs && HasExtension(r.cert, ".p12")
    ensures r.input !in fs ==> o == Fail(SignerError("Input PDF not found: " + r.input))
    ensures r.input in fs && r.cert !in fs ==>
              o == Fail(SignerError("Certificate file not found: " + r.cert))
    ensures r.input in fs && r.cert in fs && !HasExtension(r.cert, ".p12") ==>
              o == Fail(SignerError("Certificate must be a .p12 file: " + r.cert))
  {
    if r.input !in fs then Fail(SignerError("Input PDF not found: " + r.input))
    else if r.cert !in fs then Fail(SignerError("Certificate file not found: " + r.cert))
    else if !HasExtension(r.cert, ".p12") then Fail(SignerError("Certificate must be a .p12 file: " + r.cert))
    else Pass
  }

  /** The text after the prefix of a non-zero-exit error: stderr if any, else the exception text. */
  function FailureDetail(stderr: string, description: string): string
  {
    if stderr != "" then stderr else description
  }

  /** `PDFSigner.sign_pdf`. */
  function SignPdf(fs: FileSystem, r: SignRequest, run: ProcessOutcome): (v: Invocation<()>)
    ensures v.command.Some? <==> CheckSignInputs(fs, r).Pass?
    ensures v.command.None? ==> v.result == Failure(CheckSignInputs(fs, r).error)
    ensures v.command.Some? ==> v.command.value == SignCommand(r)
    ensures v.result.Success? <==> CheckSignInputs(fs, r).Pass? && run.Exited?
    ensures v.command.Some? && run.ToolMissing? ==> v.result == Failure(SignerError(ToolMissingMessage))
    ensures v.command.Some? && run.NonZeroExit? && run.stderr != "" ==>
              v.result == Failure(SignerError(SignFailedPrefix + run.stderr))
    ensures v.command.Some? && run.NonZeroExit? && run.stderr == "" ==>
              v.result == Failure(SignerError(SignFailedPrefix + run.description))
  {
    match CheckSignInputs(fs, r)
    case Fail(e) => Invocation(None, Failure(e))
    case Pass =>
      var result := match run
        case ToolMissing => Failure(SignerError(ToolMissingMessage))
        case NonZeroExit(stderr, description) =>
          Failure(SignerError(SignFailedPrefix + FailureDetail(stderr, description)))
        case Exited(_) => Success(());
      Invocation(Some(SignCommand(r)), result)
  }

  /** A failed check launches nothing, whatever the tool would have done. */
  lemma ChecksPrecedeLaunch(fs: FileSystem, r: SignRequest, run1: ProcessOutcome, run2: ProcessOutcome)
    requires CheckSignInputs(fs, r).Fail?
    ensures SignPdf(fs, r, run1) == SignPdf(fs, r, run2)
    ensures SignPdf(fs, r, run1).command == None
  {
  }

  function ValidateCommand(p: Path): seq<string>
  {
    ["pyhanko", "sign", "validate", p]
  }

  /** `PDFSigner.validate_signature`: returns the tool's stdout unparsed. */
  function ValidateSignature(fs: FileSystem, p: Path, run: ProcessOutcome): (v: Invocation<string>)
    ensures v.command.Some? <==> p in fs
    ensures p !in fs ==> v.result == Failure(SignerError("PDF file not found: " + p))
    ensures v.command.Some? ==> v.command.value == ValidateCommand(p) && |v.command.value| == 4
    ensures v.result.Success? <==> p in fs && run.Exited?
    ensures v.result.Success? ==> run == Exited(v.result.value)
    ensures p in fs && run.ToolMissing? ==> v.result == Failure(SignerError(ToolMissingMessage))
    ensures p in fs && run.NonZeroExit? && run.stderr != "" ==>
              v.result == Failure(SignerError(ValidateFailedPrefix + run.stderr))
    ensures p in fs && run.NonZeroExit? && run.stderr == "" ==>
              v.result == Failure(SignerError(ValidateFailedPrefix + run.description))
  {
    if p !in fs then Invocation(None, Failure(SignerError("PDF file not found: " + p)))
    else
      var result := match run
        case ToolMissing => Failure(SignerError(ToolMissingMessage))
        case NonZeroExit(stderr, description) =>
          Failure(SignerError(ValidateFailedPrefix + FailureDetail(stderr, description)))
        case Exited(stdout) => Success(stdout);
      Invocation(Some(ValidateCommand(p)), result)
  }

  /**
    The module-level `sign_pdf`: no reason, location or contact, so the
    command is the ten-element minimum.
   */
  function SignPdfConvenience(fs: FileSystem, input: Path, cert: Path, password: string, output: Path,
                              run: ProcessOutcome): (v: Invocation<()>)
    ensures v == SignPdf(fs, SignRequest(input, cert, password, output, None, None, None), run)
    ensures v.command.Some? ==>
              v.command.value == SignPrefix(cert, password) + [input, "-o", output]
  {
    SignPdf(fs, SignRequest(input, cert, password, output, None, None, None), run)
  }
}
