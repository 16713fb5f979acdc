/**
 The command-line scan at the top of `main`: options are read left to right
 until the first argument that does not start with `--`; that argument and
 everything after it are query names.
 */
module Args {
  import opened Optional

  /** How query names are looked up. */
  datatype Mode = ByElement | ByPlugin

  /** The variables the scan sets. `startWith` indexes `argv` (which still
      holds the program name at 0); `comparePluginNames` is written but
      never read by the rest of the tool. */
  datatype Flags = Flags(
    compareElementNames: bool,
    comparePluginNames: bool,
    verbose: bool,
    startWith: nat)
  {
    /** The lookup that `compareElementNames` alone selects. */
    function LookupMode(): Mode
    {
      if compareElementNames then ByElement else ByPlugin
    }
  }

  /** `strncmp(arg, "--", 2) == 0`, compared character by character: the
      comparison stops at the end of a shorter argument, so the argument
      begins with two dashes. */
  predicate IsOption(arg: string)
    ensures IsOption(arg) <==> |arg| >= 2 && arg[..2] == "--"
  {
    |arg| >= 2 && arg[0] == '-' && arg[1] == '-'
  }

  /** The index of the first argument at or after `i` that is not an option
      (or `|argv|` when there is none). */
  function OptionsEnd(argv: seq<string>, i: nat): (k: nat)
    decreases |argv| - i
  {
    if i < |argv| && IsOption(argv[i]) then OptionsEnd(argv, i + 1) else i
  }

  /** The arguments `argv[1..k]`, empty when `argv` is too short for them. */
  function Scanned(argv: seq<string>, k: nat): seq<string>
  {
    if 1 <= k <= |argv| then argv[1..k] else []
  }

  /** The mode flag that appears last in `opts`, if any. */
  function LastMode(opts: seq<string>): Option<Mode>
  {
    if |opts| == 0 then None
    else if opts[|opts| - 1] == "--elements" then Some(ByElement)
    else if opts[|opts| - 1] == "--plugins" then Some(ByPlugin)
    else LastMode(opts[..|opts| - 1])
  }

  /** What the scan computes, stated directly: the options are the maximal
      run of `--` arguments after the program name; the last mode flag among
      them decides the mode (element lookup when there is none); any mode
      flag sets `comparePluginNames`; `--verbose` anywhere in the run turns
      on diagnostics. */
  function Parse(argv: seq<string>): Flags
  {
    var stop := OptionsEnd(argv, 1);
    var opts := Scanned(argv, stop);
    var last := LastMode(opts);
    Flags(last != Some(ByPlugin), last.Some?, "--verbose" in opts, stop)
  }

  /** The query names: everything from `startWith` on. */
  function Names(argv: seq<string>, startWith: nat): (names: seq<string>)
    ensures |names| == if startWith < |argv| then |argv| - startWith else 0
    ensures forall i :: 0 <= i < |names| ==> names[i] == argv[startWith + i]
  {
    if startWith < |argv| then argv[startWith..] else []
  }

  /** `OptionsEnd` lands on the first argument that ends the option run. */
  lemma {:induction false} OptionsEndAt(argv: seq<string>, i: nat, k: nat)
    requires 1 <= i <= k
    requires i == k || k <= |argv|
    requires forall j :: i <= j < k ==> IsOption(argv[j])
    requires k >= |argv| || !IsOption(argv[k])
    ensures OptionsEnd(argv, i) == k
    decreases k - i
  {
    if i < k {
      OptionsEndAt(argv, i + 1, k);
    }
  }

  /** Scanning one more option extends the scanned run by it. */
  lemma ScanOne(argv: seq<string>, idx: nat)
    requires 1 <= idx < |argv|
    ensures Scanned(argv, idx + 1) == Scanned(argv, idx) + [argv[idx]]
    ensures LastMode(Scanned(argv, idx + 1))
         == if argv[idx] == "--elements" then Some(ByElement)
            else if argv[idx] == "--plugins" then Some(ByPlugin)
            else LastMode(Scanned(argv, idx))
    ensures "--verbose" in Scanned(argv, idx + 1) <==> "--verbose" in Scanned(argv, idx) || argv[idx] == "--verbose"
  {
    var next := Scanned(argv, idx + 1);
    assert next[..|next| - 1] == Scanned(argv, idx);
  }

  /** The loop of `main`, lines 94 to 122. */
  method ParseFlags(argv: seq<string>) returns (f: Flags)
    ensures f == Parse(argv)
  {
    var compareElementNames, comparePluginNames, verbose := true, false, false;
    var startWith := 1;
    var idx := 1;
    while idx < |argv|
      invariant 1 <= idx && (idx <= |argv| || idx == 1)
      invariant forall j :: 1 <= j < idx ==> IsOption(argv[j])
      invariant startWith == idx
      invariant compareElementNames == (LastMode(Scanned(argv, idx)) != Some(ByPlugin))
      invariant comparePluginNames == LastMode(Scanned(argv, idx)).Some?
      invariant verbose == ("--verbose" in Scanned(argv, idx))
      decreases |argv| - idx
    {
      if !IsOption(argv[idx]) {
        break;
      }
      ScanOne(argv, idx);
      if argv[idx] == "--elements" {
        compareElementNames, comparePluginNames := true, true;
      } else if argv[idx] == "--plugins" {
        compareElementNames, comparePluginNames := false, true;
      } else if argv[idx] == "--verbose" {
        verbose := true;
      }
      startWith := idx + 1;
      idx := idx + 1;
    }
    OptionsEndAt(argv, 1, idx);
    f := Flags(compareElementNames, comparePluginNames, verbose, startWith);
  }

  /** Every leading `--` argument, recognised or not, is consumed as an
      option, and names start at the first argument without the prefix;
      any `--` argument after it is a name. */
  lemma OptionsThenNames(argv: seq<string>, opts: seq<string>, first: string, rest: seq<string>)
    requires |argv| > 0 && argv[1..] == opts + [first] + rest
    requires forall i :: 0 <= i < |opts| ==> IsOption(opts[i])
    requires !IsOption(first)
    ensures Parse(argv).startWith == 1 + |opts|
    ensures Scanned(argv, Parse(argv).startWith) == opts
    ensures Names(argv, Parse(argv).startWith) == [first] + rest
  {
    var k := 1 + |opts|;
    forall j | 1 <= j < k
      ensures IsOption(argv[j])
    {
      assert argv[j] == argv[1..][j - 1] == opts[j - 1];
    }
    assert argv[k] == argv[1..][k - 1] == first;
    OptionsEndAt(argv, 1, k);
    assert argv[1..k] == argv[1..][..|opts|] == opts;
    assert argv[k..] == argv[1..][|opts|..] == [first] + rest;
  }

  /** Among the options, the last mode flag decides the mode, element
      lookup being the default; `--verbose` anywhere among them turns on
      diagnostics. */
  lemma ModeOfOptions(argv: seq<string>, opts: seq<string>, first: string, rest: seq<string>)
    requires |argv| > 0 && argv[1..] == opts + [first] + rest
    requires forall i :: 0 <= i < |opts| ==> IsOption(opts[i])
    requires !IsOption(first)
    ensures Parse(argv).LookupMode() == ByPlugin <==> LastMode(opts) == Some(ByPlugin)
    ensures Parse(argv).verbose <==> "--verbose" in opts
  {
    OptionsThenNames(argv, opts, first, rest);
  }

  /** With no query names, the whole argument list is options. */
  lemma AllOptions(prog: string, opts: seq<string>)
    requires forall i :: 0 <= i < |opts| ==> IsOption(opts[i])
    ensures Parse([prog] + opts).startWith == 1 + |opts|
    ensures Names([prog] + opts, Parse([prog] + opts).startWith) == []
  {
    OptionsEndAt([prog] + opts, 1, 1 + |opts|);
  }
}
