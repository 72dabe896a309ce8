/** `RnsSettings::from_args`: the command-line switch scanner that picks the
    topology (`-n FILE`) and instruction (`-s FILE`) files, or asks for help
    (`-h`). */
module Settings {
  import opened Wrappers

  datatype ErrCode =
    | Okay
    | ShowHelpSign
    | NoSwitchSpecified
    | UnknownSwitch
    | SwitchHasNoArg
    | NtwkFileParseFailed
    | SimFileParseFailed

  datatype RnsSettings = RnsSettings(ntwkFilename: string, simFilename: string)

  const DefaultNtwkFile: string := "config/basic.ntwk"
  const DefaultSimFile: string := "config/basic.sim"
  const Defaults: RnsSettings := RnsSettings(DefaultNtwkFile, DefaultSimFile)

  /** Number of bytes of the UTF-8 encoding of `s`: Rust's `String::len`. */
  function Utf8Len(s: string): nat {
    if s == [] then 0
    else
      var c := s[0] as int;
      (if c < 0x80 then 1 else if c < 0x800 then 2 else if c < 0x1_0000 then 3 else 4)
      + Utf8Len(s[1..])
  }

  /** The three switches are themselves short dash arguments. */
  lemma SwitchesAreShortDash()
    ensures IsShortDash("-h") && IsShortDash("-n") && IsShortDash("-s")
  {
    assert Utf8Len("-h") == 1 + Utf8Len("h") == 2;
    assert Utf8Len("-n") == 1 + Utf8Len("n") == 2;
    assert Utf8Len("-s") == 1 + Utf8Len("s") == 2;
  }

  /** An argument of at most two bytes that starts with `-`: the three known
      switches, or an unknown one. Anything else is a value. */
  predicate IsShortDash(arg: string) {
    |arg| > 0 && arg[0] == '-' && Utf8Len(arg) <= 2
  }

  /** The scanner's variables between two arguments: the settings built so
      far, `cmd_parse_status`, `ntwk_flag` and `sim_flag`. */
  datatype Scan = Scan(s: RnsSettings, status: ErrCode, ntwkFlag: bool, simFlag: bool) {
    predicate Pending() {
      ntwkFlag || simFlag
    }
  }

  const Start: Scan := Scan(Defaults, Okay, false, false)

  /** What one argument does: either scanning goes on, or it stops here. */
  datatype Step = Continue(next: Scan) | Break(last: Scan)

  function StepArg(sc: Scan, arg: string): Step {
    if arg == "-h" then
      Break(sc.(status := if sc.Pending() then SwitchHasNoArg else ShowHelpSign))
    else if arg == "-n" then
      if sc.Pending() then Break(sc.(status := SwitchHasNoArg)) else Continue(sc.(ntwkFlag := true))
    else if arg == "-s" then
      if sc.Pending() then Break(sc.(status := SwitchHasNoArg)) else Continue(sc.(simFlag := true))
    else if IsShortDash(arg) then
      Break(sc.(status := UnknownSwitch))
    else if sc.simFlag && !sc.ntwkFlag then
      Continue(sc.(s := sc.s.(simFilename := arg), simFlag := false))
    else if sc.ntwkFlag && !sc.simFlag then
      Continue(sc.(s := sc.s.(ntwkFilename := arg), ntwkFlag := false))
    else
      Break(sc.(status := NoSwitchSpecified))
  }

  /** The scanner's variables once `args` are consumed or a `break` happened. */
  function Run(sc: Scan, args: seq<string>): Scan
    decreases |args|
  {
    if args == [] then sc
    else
      match StepArg(sc, args[0])
      case Break(last) => last
      case Continue(next) => Run(next, args[1..])
  }

  /** The check after the loop: a pending switch overrides the status, and any
      status other than Okay is an error. */
  function Finish(sc: Scan): (r: Result<RnsSettings, ErrCode>)
    ensures r.Ok? <==> sc.status == Okay && !sc.Pending()
    ensures r.Ok? ==> r.value == sc.s
    ensures sc.Pending() ==> r == Err(SwitchHasNoArg)
    ensures !sc.Pending() && sc.status != Okay ==> r == Err(sc.status)
  {
    var status := if sc.simFlag || sc.ntwkFlag then SwitchHasNoArg else sc.status;
    match status
    case Okay => Ok(sc.s)
    case _ => Err(status)
  }

  /** `args.skip(1)`: the program name is not scanned. */
  function Switches(args: seq<string>): seq<string> {
    if |args| == 0 then [] else args[1..]
  }

  function FromArgsSpec(args: seq<string>): Result<RnsSettings, ErrCode> {
    Finish(Run(Start, Switches(args)))
  }

  method FromArgs(args: seq<string>) returns (r: Result<RnsSettings, ErrCode>)
    ensures r == FromArgsSpec(args)
  {
    var s := Defaults;
    var cmdParseStatus := Okay;
    var ntwkFlag := false;
    var simFlag := false;
    var rest := Switches(args);
    var i := 0;
    while i < |rest|
      invariant 0 <= i <= |rest|
      invariant Run(Scan(s, cmdParseStatus, ntwkFlag, simFlag), rest[i..]) == Run(Start, rest)
    {
      var arg := rest[i];
      ghost var before := Scan(s, cmdParseStatus, ntwkFlag, simFlag);
      assert rest[i..][1..] == rest[i + 1..];
      if arg == "-h" {
        if ntwkFlag || simFlag {
          cmdParseStatus := SwitchHasNoArg;
        } else {
          cmdParseStatus := ShowHelpSign;
        }
        break;
      } else if arg == "-n" {
        if ntwkFlag || simFlag {
          cmdParseStatus := SwitchHasNoArg;
          break;
        }
        ntwkFlag := true;
      } else if arg == "-s" {
        if simFlag || ntwkFlag {
          cmdParseStatus := SwitchHasNoArg;
          break;
        }
        simFlag := true;
      } else {
        if |arg| > 0 && arg[0] == '-' && Utf8Len(arg) <= 2 {
          cmdParseStatus := UnknownSwitch;
          break;
        }
        if simFlag && !ntwkFlag {
          s := s.(simFilename := arg);
          simFlag := false;
        } else if ntwkFlag && !simFlag {
          s := s.(ntwkFilename := arg);
          ntwkFlag := false;
        } else {
          cmdParseStatus := NoSwitchSpecified;
          break;
        }
      }
      i := i + 1;
    }
    assert Scan(s, cmdParseStatus, ntwkFlag, simFlag) == Run(Start, rest);

    if simFlag || ntwkFlag {
      cmdParseStatus := SwitchHasNoArg;
    }
    match cmdParseStatus {
      case Okay => r := Ok(s);
      case _ => r := Err(cmdParseStatus);
    }
  }

  // ---------------------------------------------------------------------
  // Properties of the scanner

  /** With nothing after the program name the default files are used. */
  lemma NoArguments(program: string)
    ensures FromArgsSpec([]) == Ok(RnsSettings("config/basic.ntwk", "config/basic.sim"))
    ensures FromArgsSpec([program]) == Ok(RnsSettings("config/basic.ntwk", "config/basic.sim"))
  {
  }

  /** The argument lists the scanner accepts: switch/value pairs. */
  predicate WellPaired(args: seq<string>)
    decreases |args|
  {
    if args == [] then true
    else
      |args| >= 2 && (args[0] == "-n" || args[0] == "-s") && !IsShortDash(args[1])
      && WellPaired(args[2..])
  }

  /** The settings a well-paired argument list selects, later pairs winning. */
  function ApplyPairs(s: RnsSettings, args: seq<string>): RnsSettings
    requires WellPaired(args)
    decreases |args|
  {
    if args == [] then s
    else if args[0] == "-n" then ApplyPairs(s.(ntwkFilename := args[1]), args[2..])
    else ApplyPairs(s.(simFilename := args[1]), args[2..])
  }

  /** Scanning from a state with nothing pending succeeds exactly on the
      well-paired argument lists, and then yields the files they name. */
  lemma {:induction false} ScanAcceptsExactlyPairs(s: RnsSettings, args: seq<string>)
    ensures Finish(Run(Scan(s, Okay, false, false), args)).Ok? <==> WellPaired(args)
    ensures WellPaired(args) ==> Finish(Run(Scan(s, Okay, false, false), args)) == Ok(ApplyPairs(s, args))
    decreases |args|
  {
    SwitchesAreShortDash();
    var sc := Scan(s, Okay, false, false);
    if args != [] {
      var a := args[0];
      if a == "-n" || a == "-s" {
        var pending := if a == "-n" then sc.(ntwkFlag := true) else sc.(simFlag := true);
        assert StepArg(sc, a) == Continue(pending);
        assert Run(sc, args) == Run(pending, args[1..]);
        if |args| >= 2 {
          var v := args[1];
          assert args[1..][1..] == args[2..];
          if !IsShortDash(v) {
            var s' := if a == "-n" then s.(ntwkFilename := v) else s.(simFilename := v);
            assert StepArg(pending, v) == Continue(Scan(s', Okay, false, false));
            ScanAcceptsExactlyPairs(s', args[2..]);
          } else {
            assert v == "-h" || v == "-n" || v == "-s" || IsShortDash(v);
            assert StepArg(pending, v).Break? && StepArg(pending, v).last.Pending();
          }
        }
      }
    }
  }

  /** Corollary for the whole command line: it is accepted exactly when the
      arguments after the program name are switch/value pairs. */
  lemma FromArgsAcceptsExactlyPairs(args: seq<string>)
    ensures FromArgsSpec(args).Ok? <==> WellPaired(Switches(args))
    ensures WellPaired(Switches(args)) ==> FromArgsSpec(args) == Ok(ApplyPairs(Defaults, Switches(args)))
  {
    ScanAcceptsExactlyPairs(Defaults, Switches(args));
  }

  /** `-n X` sets only the topology file, `-s X` only the instruction file. */
  lemma FilePair(sc: Scan, sw: string, v: string, rest: seq<string>)
    requires !sc.Pending() && (sw == "-n" || sw == "-s") && !IsShortDash(v)
    ensures Run(sc, [sw, v] + rest) ==
      Run(if sw == "-n" then sc.(s := sc.s.(ntwkFilename := v)) else sc.(s := sc.s.(simFilename := v)), rest)
  {
    SwitchesAreShortDash();
    assert ([sw, v] + rest)[1..] == [v] + rest;
    assert ([v] + rest)[1..] == rest;
  }

  /** A later `-n` pair overwrites an earlier one. */
  lemma LaterPairWins(program: string, a: string, b: string)
    requires !IsShortDash(a) && !IsShortDash(b)
    ensures FromArgsSpec([program, "-n", a, "-n", b]) == Ok(RnsSettings(b, DefaultSimFile))
  {
    SwitchesAreShortDash();
    FromArgsAcceptsExactlyPairs([program, "-n", a, "-n", b]);
    var sw := ["-n", a, "-n", b];
    assert Switches([program, "-n", a, "-n", b]) == sw;
    assert sw[2..] == ["-n", b] && sw[2..][2..] == [];
    assert WellPaired(sw);
    assert ApplyPairs(Defaults, sw) == ApplyPairs(Defaults.(ntwkFilename := a), ["-n", b]);
  }

  /** The two flags are never both raised: each switch is refused while
      either flag is pending. */
  ghost predicate FlagsExclusive(sc: Scan) {
    !(sc.ntwkFlag && sc.simFlag)
  }

  lemma {:induction false} RunKeepsFlagsExclusive(sc: Scan, args: seq<string>)
    requires FlagsExclusive(sc)
    ensures FlagsExclusive(Run(sc, args))
    decreases |args|
  {
    if args != [] {
      match StepArg(sc, args[0])
      case Break(last) =>
      case Continue(next) => RunKeepsFlagsExclusive(next, args[1..]);
    }
  }

  lemma NeverBothFlags(args: seq<string>)
    ensures !(Run(Start, Switches(args)).ntwkFlag && Run(Start, Switches(args)).simFlag)
  {
    RunKeepsFlagsExclusive(Start, Switches(args));
  }

  /** A switch that arrives while another awaits its value stops scanning
      with SwitchHasNoArg, whatever follows. */
  lemma SwitchWhilePending(sc: Scan, sw: string, rest: seq<string>)
    requires sc.Pending() && (sw == "-h" || sw == "-n" || sw == "-s")
    ensures Run(sc, [sw] + rest).status == SwitchHasNoArg
    ensures Finish(Run(sc, [sw] + rest)) == Err(SwitchHasNoArg)
  {
  }

  /** `-h` with nothing pending asks for help and ignores the rest. */
  lemma HelpStops(sc: Scan, rest: seq<string>)
    requires !sc.Pending()
    ensures Finish(Run(sc, ["-h"] + rest)) == Err(ShowHelpSign)
  {
  }

  /** Any other argument of at most two bytes starting with `-` is an unknown
      switch; a pending switch then overrides it with SwitchHasNoArg. */
  lemma ShortDashIsUnknownSwitch(sc: Scan, arg: string, rest: seq<string>)
    requires IsShortDash(arg) && arg != "-h" && arg != "-n" && arg != "-s"
    ensures Run(sc, [arg] + rest).status == UnknownSwitch
    ensures Finish(Run(sc, [arg] + rest)) == if sc.Pending() then Err(SwitchHasNoArg) else Err(UnknownSwitch)
  {
  }

  /** A longer argument starting with `-`, such as `--x`, is a value. */
  lemma LongDashIsValue(program: string)
    ensures FromArgsSpec([program, "-n", "--x"]) == Ok(RnsSettings("--x", DefaultSimFile))
  {
    assert !IsShortDash("--x");
    FilePair(Start, "-n", "--x", []);
    assert Switches([program, "-n", "--x"]) == ["-n", "--x"] + [];
  }

  /** A value with no pending switch gives NoSwitchSpecified. */
  lemma ValueWithoutSwitch(sc: Scan, v: string, rest: seq<string>)
    requires !sc.Pending() && !IsShortDash(v)
    ensures Finish(Run(sc, [v] + rest)) == Err(NoSwitchSpecified)
  {
    SwitchesAreShortDash();
  }

  /** A switch still pending at the end of the arguments gives SwitchHasNoArg. */
  lemma PendingAtEnd(program: string, sw: string)
    requires sw == "-n" || sw == "-s"
    ensures FromArgsSpec([program, sw]) == Err(SwitchHasNoArg)
  {
    SwitchesAreShortDash();
    assert Switches([program, sw]) == [sw] && [sw][1..] == [];
    var next := if sw == "-n" then Start.(ntwkFlag := true) else Start.(simFlag := true);
    assert StepArg(Start, sw) == Continue(next);
    assert Run(Start, [sw]) == Run(next, []) == next;
  }
}
