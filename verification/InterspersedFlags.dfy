/** Options before or after positionals: a rewrite in front of a parser that stops at the first positional. */
module InterspersedFlags {
  import opened Wrappers

  /** The defined options with whether each is boolean, and which values their setters take. */
  datatype FlagSet = FlagSet(boolean: map<string, bool>, takes: (string, string) -> bool)

  datatype Error = BadSyntax(argument: string) | Undefined(name: string) | Help
                 | InvalidValue(name: string, value: string) | MissingValue(name: string)

  /** Assignments in order, then the positionals, or the error that stopped the parser. */
  datatype Outcome = Parsed(settings: seq<(string, string)>, positionals: seq<string>)
                   | Failed(settings: seq<(string, string)>, error: Error)

  // ----- The standard flag parser -----

  predicate HasDash(argument: string) {
    |argument| >= 1 && argument[0] == '-'
  }

  /** An argument the parser treats as an option or as the end marker. */
  predicate LooksLikeOption(argument: string) {
    |argument| >= 2 && argument[0] == '-'
  }

  function IndexOf(s: string, c: char): (i: nat)
    ensures i <= |s| && (i < |s| ==> s[i] == c) && forall j :: 0 <= j < i ==> s[j] != c
  {
    if s == [] || s[0] == c then 0 else 1 + IndexOf(s[1..], c)
  }

  /** What follows one or two leading dashes. */
  function OptionName(argument: string): (name: string)
    requires LooksLikeOption(argument)
  {
    if argument[1] == '-' then argument[2..] else argument[1..]
  }

  datatype Option1 = Assign(name: string, value: string, rest: seq<string>) | Wrong(error: Error)

  function SetValue(fs: FlagSet, name: string, value: string, rest: seq<string>): (r: Option1) {
    if fs.takes(name, value) then Assign(name, value, rest) else Wrong(InvalidValue(name, value))
  }

  /** One option at the front: its value is after `=`, or is the next argument whatever that is, or is `true`. */
  function ParseOption(fs: FlagSet, args: seq<string>): (r: Option1)
    requires args != [] && LooksLikeOption(args[0]) && args[0] != "--"
    ensures r.Assign? ==> |r.rest| < |args|
  {
    var text := OptionName(args[0]);
    if text == "" || text[0] == '-' || text[0] == '=' then Wrong(BadSyntax(args[0]))
    else
      var eq := IndexOf(text, '=');
      var name := text[..eq];
      if name !in fs.boolean then Wrong(if name == "help" || name == "h" then Help else Undefined(name))
      else if eq < |text| then SetValue(fs, name, text[eq + 1..], args[1..])
      else if fs.boolean[name] then SetValue(fs, name, "true", args[1..])
      else if |args| > 1 then SetValue(fs, name, args[1], args[2..])
      else Wrong(MissingValue(name))
  }

  function StdParse(fs: FlagSet, args: seq<string>, settings: seq<(string, string)>): (o: Outcome)
    decreases |args|
  {
    if args == [] || !LooksLikeOption(args[0]) then Parsed(settings, args)
    else if args[0] == "--" then Parsed(settings, args[1..])
    else match ParseOption(fs, args)
      case Wrong(error) => Failed(settings, error)
      case Assign(name, value, rest) => StdParse(fs, rest, settings + [(name, value)])
  }

  // ----- The rewrite -----

  function TrimDashes(s: string): (t: string) {
    if s != [] && s[0] == '-' then TrimDashes(s[1..]) else s
  }

  /** How many arguments an option takes with it: itself, and the next one if it needs a separate value. */
  function Width(fs: FlagSet, args: seq<string>): (n: nat)
    requires args != []
    ensures 1 <= n <= |args|
  {
    var name := TrimDashes(args[0]);
    if IndexOf(name, '=') < |name| then 1
    else if name !in fs.boolean || fs.boolean[name] then 1
    else if |args| > 1 then 2
    else 1
  }

  predicate IsPositional(argument: string) {
    argument == "-" || !HasDash(argument)
  }

  datatype Sorted = Sorted(options: seq<string>, positionals: seq<string>)

  function Sort(fs: FlagSet, args: seq<string>): (s: Sorted)
    decreases |args|
  {
    if args == [] then Sorted([], [])
    else if args[0] == "--" then Sorted([], args[1..])
    else if IsPositional(args[0]) then
      var s := Sort(fs, args[1..]);
      Sorted(s.options, [args[0]] + s.positionals)
    else
      var n := Width(fs, args);
      var s := Sort(fs, args[n..]);
      Sorted(args[..n] + s.options, s.positionals)
  }

  function Boundary(positionals: seq<string>): seq<string> {
    if positionals == [] then [] else ["--"] + positionals
  }

  lemma SortStep(fs: FlagSet, args: seq<string>, i: nat)
    requires i < |args|
    ensures args[i] == "--" ==> Sort(fs, args[i..]) == Sorted([], args[i + 1..])
    ensures args[i] != "--" && IsPositional(args[i]) ==>
      Sort(fs, args[i..]) == Sorted(Sort(fs, args[i + 1..]).options, [args[i]] + Sort(fs, args[i + 1..]).positionals)
    ensures !IsPositional(args[i]) && args[i] != "--" ==> var n := Width(fs, args[i..]);
      Sort(fs, args[i..]) == Sorted(args[i..i + n] + Sort(fs, args[i + n..]).options, Sort(fs, args[i + n..]).positionals)
  {
    var rest, n := args[i..], Width(fs, args[i..]);
    assert rest[0] == args[i] && rest[1..] == args[i + 1..];
    assert rest[..n] == args[i..i + n] && rest[n..] == args[i + n..];
  }

  method ParseInterspersed(fs: FlagSet, args: seq<string>) returns (o: Outcome)
    ensures var s := Sort(fs, args); o == StdParse(fs, s.options + Boundary(s.positionals), [])
  {
    hide StdParse, Sort, IndexOf, TrimDashes;
    var options: seq<string>, positionals: seq<string> := [], [];
    var optionsEnabled := true;
    var index := 0;
    ghost var s := Sort(fs, args);
    assert args[0..] == args;
    while index < |args|
      invariant 0 <= index <= |args|
      invariant optionsEnabled ==> Sorting(fs, args, index, options, positionals, s)
      invariant !optionsEnabled ==> s.options == options && s.positionals == positionals + args[index..]
      decreases |args| - index
    {
      var argument := args[index];
      SortStep(fs, args, index);
      if optionsEnabled && argument == "--" {
        optionsEnabled := false;
        index := index + 1;
      } else if !optionsEnabled || argument == "-" || !HasDash(argument) {
        assert args[index..] == [argument] + args[index + 1..];
        positionals := positionals + [argument];
        index := index + 1;
      } else {
        options, index := TakeOption(fs, args, index, options);
      }
    }
    SortEnd(fs, args);
    assert s.options == options && s.positionals == positionals;
    if |positionals| > 0 {
      options := options + ["--"];
      options := options + positionals;
    }
    assert options == s.options + Boundary(positionals);
    o := StdParse(fs, options, []);
  }

  ghost predicate Sorting(fs: FlagSet, args: seq<string>, i: nat, options: seq<string>, positionals: seq<string>, s: Sorted)
    requires i <= |args|
  {
    s.options == options + Sort(fs, args[i..]).options && s.positionals == positionals + Sort(fs, args[i..]).positionals
  }

  lemma SortEnd(fs: FlagSet, args: seq<string>)
    ensures args[|args|..] == [] && Sort(fs, args[|args|..]) == Sorted([], [])
  {
  }

  /** Moves one option, with its separate value if it needs one. */
  method TakeOption(fs: FlagSet, args: seq<string>, start: nat, before: seq<string>) returns (options: seq<string>, index: nat)
    requires start < |args|
    ensures index == start + Width(fs, args[start..])
    ensures index <= |args| && options == before + args[start..index]
  {
    hide IndexOf, TrimDashes;
    index := start;
    var name := TrimDashes(args[index]);
    options := before + [args[index]];
    assert args[start..start + 1] == [args[start]];
    if IndexOf(name, '=') == |name| && name in fs.boolean && !fs.boolean[name] && index + 1 < |args| {
      index := index + 1;
      options := options + [args[index]];
      assert args[start..start + 2] == [args[start]] + [args[start + 1]];
    }
    index := index + 1;
  }

  // ----- Reference: a parser that takes options anywhere -----

  function Direct(fs: FlagSet, args: seq<string>, settings: seq<(string, string)>, positionals: seq<string>): (o: Outcome)
    decreases |args|
  {
    if args == [] then Parsed(settings, positionals)
    else if args[0] == "--" then Parsed(settings, positionals + args[1..])
    else if IsPositional(args[0]) then Direct(fs, args[1..], settings, positionals + [args[0]])
    else match ParseOption(fs, args)
      case Wrong(error) => Failed(settings, error)
      case Assign(name, value, rest) => Direct(fs, rest, settings + [(name, value)], positionals)
  }

  /** Whether the end marker is reached. */
  predicate Marked(fs: FlagSet, args: seq<string>)
    decreases |args|
  {
    args != [] &&
    (args[0] == "--" ||
     (if IsPositional(args[0]) then Marked(fs, args[1..])
      else var r := ParseOption(fs, args); r.Assign? && Marked(fs, r.rest)))
  }

  /** A defined option of the right shape that needs a value and does not carry one. */
  predicate NeedsValue(fs: FlagSet, argument: string) {
    && LooksLikeOption(argument) && argument != "--"
    && var text := OptionName(argument);
       text != "" && text[0] != '-' && text[0] != '=' && text in fs.boolean && !fs.boolean[text] && IndexOf(text, '=') == |text|
  }

  /**
   * The rewrite goes wrong: the list ends in an option that still needs its value, everything before it parses, is not
   * closed by `--`, and leaves a positional.
   */
  predicate Swallows(fs: FlagSet, args: seq<string>, settings: seq<(string, string)>, positionals: seq<string>) {
    args != [] &&
    var front, last := args[..|args| - 1], args[|args| - 1];
    && NeedsValue(fs, last) && !Marked(fs, front)
    && Direct(fs, front, settings, positionals).Parsed? && Direct(fs, front, settings, positionals).positionals != []
  }

  lemma OptionShape(argument: string)
    requires HasDash(argument) && argument != "-"
    ensures LooksLikeOption(argument)
    ensures OptionName(argument) != "" && OptionName(argument)[0] != '-' ==> OptionName(argument) == TrimDashes(argument)
    ensures argument != "--" ==> OptionName(argument) != ""
  {
    assert argument == "-" + argument[1..];
    assert TrimDashes(argument) == TrimDashes(argument[1..]);
    if argument[1] == '-' {
      assert argument[1..] == "-" + argument[2..];
      assert argument[1..][1..] == argument[2..];
      assert argument == "--" + argument[2..];
    }
  }

  // ----- The rewrite keeps the meaning, except when it swallows the marker -----

  /** An option is parsed from the arguments it takes with it, whatever follows them. */
  lemma OptionIgnoresRest(fs: FlagSet, args: seq<string>, tail: seq<string>)
    requires args != [] && HasDash(args[0]) && args[0] != "-" && args[0] != "--"
    requires |args| > 1 || !NeedsValue(fs, args[0])
    ensures LooksLikeOption(args[0])
    ensures var n := Width(fs, args); var r := ParseOption(fs, args); var q := ParseOption(fs, args[..n] + tail);
      if r.Wrong? then q == r else q == Assign(r.name, r.value, tail) && r.rest == args[n..]
  {
    hide IndexOf, TrimDashes;
    OptionShape(args[0]);
    var n := Width(fs, args);
    var cut := args[..n] + tail;
    assert cut[0] == args[0] && cut[n..] == tail && args[1..][0..] == args[1..];
    if n == 2 {
      assert cut[1] == args[1];
    }
    NameIsWhole(OptionName(args[0]));
  }

  lemma NameIsWhole(text: string)
    ensures IndexOf(text, '=') == |text| ==> text[..IndexOf(text, '=')] == text
  {
  }

  lemma BoundaryParses(fs: FlagSet, settings: seq<(string, string)>, positionals: seq<string>)
    ensures StdParse(fs, Boundary(positionals), settings) == Parsed(settings, positionals)
  {
    if positionals != [] {
      assert (["--"] + positionals)[1..] == positionals;
    }
  }

  lemma {:induction false} SettingsGrow(fs: FlagSet, args: seq<string>, settings: seq<(string, string)>)
    ensures |StdParse(fs, args, settings).settings| >= |settings|
    decreases |args|
  {
    hide ParseOption;
    if args != [] && LooksLikeOption(args[0]) && args[0] != "--" {
      var r := ParseOption(fs, args);
      if r.Assign? {
        SettingsGrow(fs, r.rest, settings + [(r.name, r.value)]);
      }
    }
  }

  /** The last option still needs its value: the inserted marker becomes that value. */
  lemma MarkerSwallowed(fs: FlagSet, argument: string, settings: seq<(string, string)>, positionals: seq<string>)
    requires NeedsValue(fs, argument)
    ensures var name := OptionName(argument);
      && Direct(fs, [argument], settings, positionals) == Failed(settings, MissingValue(name))
      && (StdParse(fs, [argument] + Boundary(positionals), settings) == Failed(settings, MissingValue(name)) <==> positionals == [])
  {
    hide IndexOf;
    var name := OptionName(argument);
    NameIsWhole(name);
    var args := [argument] + Boundary(positionals);
    if positionals != [] {
      assert args[1] == "--" && args[2..] == positionals;
      if fs.takes(name, "--") {
        SettingsGrow(fs, positionals, settings + [(name, "--")]);
      }
    } else {
      assert args == [argument];
    }
  }

  lemma SwallowsPositional(fs: FlagSet, args: seq<string>, settings: seq<(string, string)>, positionals: seq<string>)
    requires args != [] && IsPositional(args[0])
    ensures Swallows(fs, args, settings, positionals) <==> Swallows(fs, args[1..], settings, positionals + [args[0]])
  {
    hide ParseOption, IndexOf;
    if |args| > 1 {
      var front := args[..|args| - 1];
      assert front[0] == args[0] && front[1..] == args[1..][..|args| - 2];
      assert args[1..][|args| - 2] == args[|args| - 1];
    }
  }

  /** Cutting the last argument off leaves an earlier option as it was, or without the value it had. */
  lemma FrontOption(fs: FlagSet, args: seq<string>)
    requires |args| > 1 && HasDash(args[0]) && args[0] != "-" && args[0] != "--"
    ensures var n := Width(fs, args); var r := ParseOption(fs, args); var q := ParseOption(fs, args[..|args| - 1]);
      if r.Wrong? || n == |args| then q.Wrong?
      else q == Assign(r.name, r.value, args[n..|args| - 1]) && r.rest == args[n..]
  {
    hide IndexOf, TrimDashes;
    OptionShape(args[0]);
    var n := Width(fs, args);
    var front := args[..|args| - 1];
    assert front[0] == args[0];
    NameIsWhole(OptionName(args[0]));
    if n < |args| {
      assert front[n..] == args[n..|args| - 1];
    }
  }

  lemma SwallowsOption(fs: FlagSet, args: seq<string>, settings: seq<(string, string)>, positionals: seq<string>)
    requires args != [] && HasDash(args[0]) && args[0] != "-" && args[0] != "--"
    requires |args| > 1 || !NeedsValue(fs, args[0])
    ensures LooksLikeOption(args[0])
    ensures var r := ParseOption(fs, args);
      Swallows(fs, args, settings, positionals)
      <==> r.Assign? && Swallows(fs, r.rest, settings + [(r.name, r.value)], positionals)
  {
    hide ParseOption, NeedsValue, Width;
    OptionShape(args[0]);
    OptionIgnoresRest(fs, args, []);
    var n, m := Width(fs, args), |args| - 1;
    if m > 0 {
      FrontOption(fs, args);
      var front, rest := args[..m], args[n..];
      assert front[0] == args[0];
      if n < |args| {
        assert rest[|rest| - 1] == args[m] && rest[..|rest| - 1] == args[n..m];
      }
    }
  }

  /**
   * From any point of the walk: the rewritten list parses to what the direct parser gives, settings and positionals in
   * order and failures alike, exactly when the marker is not swallowed.
   */
  lemma {:induction false} ParseAgrees(fs: FlagSet, args: seq<string>, settings: seq<(string, string)>, positionals: seq<string>)
    ensures var s := Sort(fs, args);
      StdParse(fs, s.options + Boundary(positionals + s.positionals), settings) == Direct(fs, args, settings, positionals)
      <==> !Swallows(fs, args, settings, positionals)
    decreases |args|
  {
    hide NeedsValue, Swallows, ParseOption, Width, StdParse;
    var s := Sort(fs, args);
    if args == [] || args[0] == "--" {
      BoundaryParses(fs, settings, positionals + s.positionals);
      assert s.options + Boundary(positionals + s.positionals) == Boundary(positionals + s.positionals);
      NotSwallowed(fs, args, settings, positionals);
      assert positionals + [] == positionals;
    } else if IsPositional(args[0]) {
      ParseAgrees(fs, args[1..], settings, positionals + [args[0]]);
      SwallowsPositional(fs, args, settings, positionals);
      var t := Sort(fs, args[1..]);
      assert positionals + ([args[0]] + t.positionals) == positionals + [args[0]] + t.positionals;
    } else if |args| == 1 && NeedsValue(fs, args[0]) {
      AgreesAtLast(fs, args, settings, positionals);
    } else {
      AgreesAtOption(fs, args, settings, positionals);
    }
  }

  lemma NotSwallowed(fs: FlagSet, args: seq<string>, settings: seq<(string, string)>, positionals: seq<string>)
    requires args == [] || args[0] == "--"
    ensures !Swallows(fs, args, settings, positionals)
  {
  }

  lemma AgreesAtLast(fs: FlagSet, args: seq<string>, settings: seq<(string, string)>, positionals: seq<string>)
    requires |args| == 1 && NeedsValue(fs, args[0])
    ensures var s := Sort(fs, args);
      StdParse(fs, s.options + Boundary(positionals + s.positionals), settings) == Direct(fs, args, settings, positionals)
      <==> !Swallows(fs, args, settings, positionals)
  {
    MarkerSwallowed(fs, args[0], settings, positionals);
    assert args == [args[0]];
    hide NeedsValue, StdParse, ParseOption;
    SortOfOne(fs, args);
    assert [args[0]] + [] == [args[0]] && positionals + [] == positionals;
    assert args[..0] == [];
  }

  lemma SortOfOne(fs: FlagSet, args: seq<string>)
    requires |args| == 1 && NeedsValue(fs, args[0])
    ensures Sort(fs, args) == Sorted([args[0]], [])
  {
    assert args[..1] == [args[0]] && args[1..] == [];
  }

  lemma AgreesAtOption(fs: FlagSet, args: seq<string>, settings: seq<(string, string)>, positionals: seq<string>)
    requires args != [] && args[0] != "--" && !IsPositional(args[0]) && !(|args| == 1 && NeedsValue(fs, args[0]))
    ensures var s := Sort(fs, args);
      StdParse(fs, s.options + Boundary(positionals + s.positionals), settings) == Direct(fs, args, settings, positionals)
      <==> !Swallows(fs, args, settings, positionals)
    decreases |args|, 0
  {
    hide NeedsValue, Swallows, Width, ParseOption, Sort, Boundary;
    var n := Width(fs, args);
    var t := Sort(fs, args[n..]);
    var tail := t.options + Boundary(positionals + t.positionals);
    SortAtOption(fs, args, positionals);
    OptionIgnoresRest(fs, args, tail);
    SwallowsOption(fs, args, settings, positionals);
    assert (args[..n] + tail)[0] == args[0];
    var r := ParseOption(fs, args);
    if r.Assign? {
      ParseAgrees(fs, args[n..], settings + [(r.name, r.value)], positionals);
    }
  }

  lemma SortAtOption(fs: FlagSet, args: seq<string>, positionals: seq<string>)
    requires args != [] && args[0] != "--" && !IsPositional(args[0])
    ensures var s, t, n := Sort(fs, args), Sort(fs, args[Width(fs, args)..]), Width(fs, args);
      && s.positionals == t.positionals
      && s.options + Boundary(positionals + s.positionals) == args[..n] + (t.options + Boundary(positionals + t.positionals))
  {
    hide Width, Boundary;
  }

  /** A command line parses as written unless it ends in an option still waiting for its value after some positional. */
  lemma RewriteKeepsMeaning(fs: FlagSet, args: seq<string>)
    ensures var s := Sort(fs, args);
      StdParse(fs, s.options + Boundary(s.positionals), []) == Direct(fs, args, [], []) <==> !Swallows(fs, args, [], [])
  {
    hide StdParse, Direct, Swallows, Sort;
    ParseAgrees(fs, args, [], []);
    assert [] + Sort(fs, args).positionals == Sort(fs, args).positionals;
  }

  /** The failure is real: with a value option `c`, the list `x -c` assigns the marker to `c`. */
  lemma SwallowExample()
    ensures var fs := FlagSet(map["c" := false], (_, _) => true);
      && Swallows(fs, ["x", "-c"], [], []) && Sort(fs, ["x", "-c"]) == Sorted(["-c"], ["x"])
      && Sort(fs, ["x", "-c"]).options + Boundary(Sort(fs, ["x", "-c"]).positionals) == ["-c", "--", "x"]
      && StdParse(fs, ["-c", "--", "x"], []) == Parsed([("c", "--")], ["x"])
      && Direct(fs, ["x", "-c"], [], []) == Failed([], MissingValue("c"))
  {
    var fs := FlagSet(map["c" := false], (_, _) => true);
    assert OptionName("-c") == "c" && IndexOf("c", '=') == 1 && "c"[..1] == "c";
    SortOfOne(fs, ["-c"]);
    assert ["x", "-c"][..1] == ["x"] && ["x", "-c"][1..] == ["-c"];
    assert ["-c", "--", "x"][2..] == ["x"] && [] + [("c", "--")] == [("c", "--")];
    assert ["x"][1..] == [] && [] + ["x"] == ["x"];
  }
}
