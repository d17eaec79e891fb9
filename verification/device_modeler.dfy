/** The device modeller's command layer: the argument scanners shared by its
    Tcl commands, the `{name,value}` parser, the registry of devices with its
    current device, and the block, port and constraint definitions. */
module DeviceModeling {
  import opened Wrappers
  import opened Strings

  /** A port of a block: its name and whether it is an input. */
  datatype Port = Port(name: string, isInput: bool)

  /** A block: its ports in definition order and its constraints by name. */
  datatype Block = Block(name: string, ports: seq<Port>, constraints: map<string, string>)

  /** A device is a block of its own (its scope holds the device-level
      constraints) together with the blocks defined in it. */
  datatype Device = Device(top: Block, blocks: map<string, Block>)

  function NewDevice(name: string): (d: Device)
    ensures d.top.name == name && d.top.ports == [] && d.top.constraints == map[] && d.blocks == map[]
  {
    Device(Block(name, [], map[]), map[])
  }

  const AUTO_DEVICE: string := "__auto_generated_device__"

  // ---------------------------------------------------------------------
  // Characters and tokens (C locale classification)
  // ---------------------------------------------------------------------

  predicate IsAlpha(ch: char)
  {
    ('a' <= ch <= 'z') || ('A' <= ch <= 'Z')
  }

  predicate IsAlnum(ch: char)
  {
    IsAlpha(ch) || ('0' <= ch <= '9')
  }

  /** The token starts with '-'; an empty token starts with the terminating
      NUL, which is not '-'. */
  predicate DashLed(token: string)
  {
    token != [] && token[0] == '-'
  }

  /** The token starts with a letter or '_'. */
  predicate AlphaLed(token: string)
  {
    token != [] && (IsAlpha(token[0]) || token[0] == '_')
  }

  // ---------------------------------------------------------------------
  // Argument scanners
  // ---------------------------------------------------------------------

  /** The position of the first occurrence of `name` that has a successor,
      or -1. */
  function FirstValueIndex(name: string, argv: seq<string>, from: nat): (k: int)
    ensures k == -1 || (from <= k && k + 1 < |argv| && argv[k] == name)
    ensures k == -1 ==> forall i :: from <= i && i + 1 < |argv| ==> argv[i] != name
    ensures k != -1 ==> forall i :: from <= i < k ==> argv[i] != name
    decreases |argv| - from
  {
    if from + 1 >= |argv| then -1
    else if argv[from] == name then from
    else FirstValueIndex(name, argv, from + 1)
  }

  function Missing(name: string): string
  {
    "Missing necessary argument: " + name
  }

  /** get_argument_value: the token after the flag. */
  function GetArgumentValue(name: string, argv: seq<string>, required: bool): Result<string>
  {
    var k := FirstValueIndex(name, argv, 0);
    if k != -1 then Ok(argv[k + 1])
    else if required then Err(Missing(name))
    else Ok("")
  }

  /** The value is the token after the first occurrence of the flag that is
      not the last token; an absent flag gives "" or, when required, an error. */
  lemma GetArgumentValueMeaning(name: string, argv: seq<string>, required: bool, k: nat)
    requires k + 1 < |argv| && argv[k] == name
    requires forall i :: 0 <= i < k ==> argv[i] != name
    ensures GetArgumentValue(name, argv, required) == Ok(argv[k + 1])
  {
  }

  lemma GetArgumentValueAbsent(name: string, argv: seq<string>, required: bool)
    requires forall i :: 0 <= i && i + 1 < |argv| ==> argv[i] != name
    ensures GetArgumentValue(name, argv, required) == if required then Err(Missing(name)) else Ok("")
  {
  }

  /** argument_exists: some token equals the name. */
  function ArgumentExists(name: string, argv: seq<string>): (r: bool)
    ensures r <==> name in argv
  {
    if argv == [] then false
    else if argv[0] == name then true
    else ArgumentExists(name, argv[1..])
  }

  /** The tokens following a flag up to the next '-' token, each token that
      starts with a letter or '_' followed by a comma. */
  function ValuesText(args: seq<string>): string
  {
    if args == [] || DashLed(args[0]) then ""
    else args[0] + (if AlphaLed(args[0]) then "," else "") + ValuesText(args[1..])
  }

  /** get_argument_values: the values text of the tokens after the first
      occurrence of the flag that is not the last token; an absent flag
      gives "" or, when required, an error. */
  function ArgumentValues(name: string, argv: seq<string>, required: bool): (r: Result<string>)
    ensures (forall i :: 0 <= i && i + 1 < |argv| ==> argv[i] != name) ==>
              r == if required then Err(Missing(name)) else Ok("")
    ensures forall k :: 0 <= k && k + 1 < |argv| && argv[k] == name && (forall i :: 0 <= i < k ==> argv[i] != name) ==>
              r == Ok(ValuesText(argv[k + 1..]))
  {
    var k := FirstValueIndex(name, argv, 0);
    if k != -1 then Ok(ValuesText(argv[k + 1..]))
    else if required then Err(Missing(name))
    else Ok("")
  }

  /** A list of identifiers comes out comma-terminated, so splitting at the
      commas gives the identifiers back, followed by one empty part. */
  lemma {:induction false} ValuesTextOfIdentifiers(names: seq<string>, rest: seq<string>)
    requires forall n :: n in names ==> AlphaLed(n) && ',' !in n
    requires rest == [] || DashLed(rest[0])
    ensures ValuesText(names + rest) == Join(names + [""], ',')
    ensures Split(ValuesText(names + rest), ',') == names + [""]
  {
    ValuesTextIsJoin(names, rest);
    forall p | p in names + [""] ensures ',' !in p {
      if p != "" {
        assert p in names;
      }
    }
    SplitJoin(names + [""], ',');
  }

  lemma {:induction false} ValuesTextIsJoin(names: seq<string>, rest: seq<string>)
    requires forall n :: n in names ==> AlphaLed(n)
    requires rest == [] || DashLed(rest[0])
    ensures ValuesText(names + rest) == Join(names + [""], ',')
  {
    if names == [] {
      assert names + rest == rest;
    } else {
      assert names[0] in names;
      assert (names + rest)[1..] == names[1..] + rest;
      assert forall n :: n in names[1..] ==> n in names;
      ValuesTextIsJoin(names[1..], rest);
      assert (names + [""])[1..] == names[1..] + [""];
    }
  }

  /** `{name,value}` tokens, one per group. */
  function BracedTokens(groups: seq<string>): seq<string>
  {
    if groups == [] then [] else ["{" + groups[0] + "}"] + BracedTokens(groups[1..])
  }

  /** A brace-led token is copied with no comma after it. */
  lemma ValuesTextGlued(t: string, tail: seq<string>)
    requires t != [] && t[0] == '{'
    ensures ValuesText([t] + tail) == t + ValuesText(tail)
  {
    assert ([t] + tail)[1..] == tail;
  }

  /** Tokens led by a brace get no comma: a run of them is glued together
      as written. */
  lemma {:induction false} ValuesTextOfBraced(groups: seq<string>, rest: seq<string>)
    requires rest == [] || DashLed(rest[0])
    ensures ValuesText(BracedTokens(groups) + rest) == Braced(groups)
  {
    if groups == [] {
      assert BracedTokens(groups) + rest == rest;
    } else {
      var t := "{" + groups[0] + "}";
      var tail := BracedTokens(groups[1..]) + rest;
      assert BracedTokens(groups) + rest == [t] + tail;
      ValuesTextGlued(t, tail);
      ValuesTextOfBraced(groups[1..], rest);
    }
  }

  // ---------------------------------------------------------------------
  // The {name,value} parser
  // ---------------------------------------------------------------------

  /** The texts between a '{' and the next '}', in order, as successive
      searches for `\{([^}]+)\}` find them: an empty "{}" is no match, and a
      '{' inside a group is part of it. */
  function Groups(s: string): (r: seq<string>)
    ensures forall g :: g in r ==> g != [] && '}' !in g
    decreases |s|
  {
    var p := IndexOf(s, "{", 0);
    if p == -1 then []
    else
      var q := IndexOf(s, "}", p + 1);
      if q == -1 then []
      else if q == p + 1 then Groups(s[p + 1..])
      else
        var g := s[p + 1..q];
        assert '}' !in g by {
          forall i | 0 <= i < |g| ensures g[i] != '}' {
            assert !OccursAt(s, "}", p + 1 + i);
          }
        }
        [g] + Groups(s[q + 1..])
  }

  function Braced(groups: seq<string>): string
  {
    if groups == [] then "" else "{" + groups[0] + "}" + Braced(groups[1..])
  }

  /** A one-character pattern occurs where that character is. */
  lemma OccursSingle(s: string, c: char, k: int)
    ensures OccursAt(s, [c], k) <==> 0 <= k < |s| && s[k] == c
  {
    if 0 <= k < |s| {
      assert s[k..k + 1] == [s[k]];
    }
  }

  /** The first group of a braced text is found first. */
  lemma GroupsOfBracedHead(g: string, tail: string)
    requires g != [] && '{' !in g && '}' !in g
    ensures Groups("{" + g + "}" + tail) == [g] + Groups(tail)
  {
    var s := "{" + g + "}" + tail;
    OpenAtStart(g, tail);
    CloseAfterGroup(g, tail);
    assert s[1..1 + |g|] == g;
    assert s[2 + |g|..] == tail;
  }

  lemma OpenAtStart(g: string, tail: string)
    ensures IndexOf("{" + g + "}" + tail, "{", 0) == 0
  {
    OccursSingle("{" + g + "}" + tail, '{', 0);
  }

  /** The first '}' after the opening brace is the one closing the group. */
  lemma CloseAfterGroup(g: string, tail: string)
    requires '}' !in g
    ensures IndexOf("{" + g + "}" + tail, "}", 1) == 1 + |g|
  {
    var s := "{" + g + "}" + tail;
    forall k | 1 <= k < 1 + |g| ensures !OccursAt(s, "}", k) {
      OccursSingle(s, '}', k);
      assert s[k] == g[k - 1];
    }
    OccursSingle(s, '}', 1 + |g|);
  }

  /** Groups written between braces are found again, in order. */
  lemma {:induction false} GroupsOfBraced(groups: seq<string>)
    requires forall g :: g in groups ==> g != [] && '{' !in g && '}' !in g
    ensures Groups(Braced(groups)) == groups
  {
    if groups != [] {
      assert groups[0] in groups;
      assert forall h :: h in groups[1..] ==> h in groups;
      GroupsOfBracedHead(groups[0], Braced(groups[1..]));
      GroupsOfBraced(groups[1..]);
    }
  }

  /** The enumeration values of a parameter type given as `{name,value}`
      tokens after the flag, up to the next dash-led token, are found
      again: get_argument_values glues the tokens and parse_values reads
      each group back, so the names defined are exactly the groups' names. */
  lemma BracedValuesParse(name: string, before: seq<string>, groups: seq<string>, rest: seq<string>,
                          required: bool, toInt: string -> Result<int>)
    requires name !in before && groups != []
    requires forall g :: g in groups ==> g != [] && '{' !in g && '}' !in g
    requires rest == [] || DashLed(rest[0])
    requires Convertible(groups, toInt)
    ensures var text := ArgumentValues(name, before + [name] + BracedTokens(groups) + rest, required);
            && text == Ok(Braced(groups))
            && ParseValues(text.value, toInt).Ok?
            && ParseValues(text.value, toInt).value.Keys == PairNames(groups)
  {
    var vals := BracedTokens(groups) + rest;
    assert before + [name] + BracedTokens(groups) + rest == before + [name] + vals;
    assert BracedTokens(groups) != [];
    ArgumentValuesAfter(name, before, vals, required);
    ValuesTextOfBraced(groups, rest);
    GroupsOfBraced(groups);
  }

  /** The values text is read from the tokens after the first occurrence of
      the flag. */
  lemma ArgumentValuesAfter(name: string, before: seq<string>, vals: seq<string>, required: bool)
    requires name !in before && vals != []
    ensures ArgumentValues(name, before + [name] + vals, required) == Ok(ValuesText(vals))
  {
    var argv := before + [name] + vals;
    var k := |before|;
    assert argv[k] == name;
    assert forall i :: 0 <= i < k ==> argv[i] == before[i];
    assert argv[k + 1..] == vals;
  }

  /** Records each group that holds a comma: the text before the first comma
      is the name, the converted text after it the value. Later groups
      overwrite earlier ones; a failed conversion aborts with its message. */
  function ParsePairs(groups: seq<string>, toInt: string -> Result<int>, acc: map<string, int>): Result<map<string, int>>
    decreases |groups|
  {
    if groups == [] then Ok(acc)
    else
      var g := groups[0];
      var d := IndexOf(g, ",", 0);
      if d == -1 then ParsePairs(groups[1..], toInt, acc)
      else
        var v := toInt(g[d + 1..]);
        if v.Err? then Err(v.message)
        else ParsePairs(groups[1..], toInt, acc[g[..d] := v.value])
  }

  /** parse_values; `toInt` is the string-to-integer conversion with its
      error message. When every value converts, the names defined are
      exactly those of the groups holding a comma. */
  function ParseValues(s: string, toInt: string -> Result<int>): (r: Result<map<string, int>>)
    ensures Convertible(Groups(s), toInt) ==> r.Ok? && r.value.Keys == PairNames(Groups(s))
  {
    var groups := Groups(s);
    var r := ParsePairs(groups, toInt, map[]);
    assert Convertible(groups, toInt) ==> r.Ok? && r.value.Keys == PairNames(groups) by {
      if Convertible(groups, toInt) {
        ParsePairsKeys(groups, toInt, map[]);
      }
    }
    r
  }

  /** The name a group defines, if it holds a comma. */
  function PairName(g: string): Option<string>
  {
    var d := IndexOf(g, ",", 0);
    if d == -1 then None else Some(g[..d])
  }

  /** The text a group gives as value, after its first comma. */
  function PairValue(g: string): string
    requires PairName(g).Some?
  {
    g[IndexOf(g, ",", 0) + 1..]
  }

  /** Every value text of the groups converts. */
  predicate Convertible(groups: seq<string>, toInt: string -> Result<int>)
  {
    forall i :: 0 <= i < |groups| && PairName(groups[i]).Some? ==> toInt(PairValue(groups[i])).Ok?
  }

  /** The names the groups define. */
  function PairNames(groups: seq<string>): (r: set<string>)
    ensures forall i :: 0 <= i < |groups| && PairName(groups[i]).Some? ==> PairName(groups[i]).value in r
    ensures forall x :: x in r ==> exists i :: 0 <= i < |groups| && PairName(groups[i]) == Some(x)
  {
    if groups == [] then {}
    else
      var rest := PairNames(groups[1..]);
      assert forall x :: x in rest ==> exists i :: 0 <= i < |groups| && PairName(groups[i]) == Some(x) by {
        forall x | x in rest ensures exists i :: 0 <= i < |groups| && PairName(groups[i]) == Some(x) {
          var i :| 0 <= i < |groups[1..]| && PairName(groups[1..][i]) == Some(x);
          assert PairName(groups[i + 1]) == Some(x);
        }
      }
      assert forall i :: 1 <= i < |groups| ==> groups[i] == groups[1..][i - 1];
      (if PairName(groups[0]).Some? then {PairName(groups[0]).value} else {}) + rest
  }

  /** When every value converts, parsing succeeds and defines exactly the
      names of the groups that hold a comma, besides those it started with. */
  lemma {:induction false} ParsePairsKeys(groups: seq<string>, toInt: string -> Result<int>, acc: map<string, int>)
    requires Convertible(groups, toInt)
    ensures ParsePairs(groups, toInt, acc).Ok?
    ensures ParsePairs(groups, toInt, acc).value.Keys == acc.Keys + PairNames(groups)
    decreases |groups|
  {
    if groups != [] {
      var g := groups[0];
      assert forall i :: 0 <= i < |groups[1..]| ==> groups[1..][i] == groups[i + 1];
      var acc' := if PairName(g).None? then acc else acc[PairName(g).value := toInt(PairValue(g)).value];
      ParsePairsKeys(groups[1..], toInt, acc');
    }
  }

  /** Each name keeps the value of the last group that defines it. */
  lemma {:induction false} ParsePairsLastWins(groups: seq<string>, toInt: string -> Result<int>, acc: map<string, int>, k: nat)
    requires Convertible(groups, toInt)
    requires k < |groups| && PairName(groups[k]).Some?
    requires forall j :: k < j < |groups| ==> PairName(groups[j]) != PairName(groups[k])
    ensures ParsePairs(groups, toInt, acc).Ok?
    ensures PairName(groups[k]).value in ParsePairs(groups, toInt, acc).value
    ensures ParsePairs(groups, toInt, acc).value[PairName(groups[k]).value] == toInt(PairValue(groups[k])).value
    decreases k
  {
    var g := groups[0];
    assert forall i :: 0 <= i < |groups[1..]| ==> groups[1..][i] == groups[i + 1];
    var acc' := if PairName(g).None? then acc else acc[PairName(g).value := toInt(PairValue(g)).value];
    if k == 0 {
      ParsePairsKeep(groups[1..], toInt, acc', PairName(g).value);
    } else {
      ParsePairsLastWins(groups[1..], toInt, acc', k - 1);
    }
  }

  /** A name that no later group defines keeps the value it has. */
  lemma {:induction false} ParsePairsKeep(groups: seq<string>, toInt: string -> Result<int>, acc: map<string, int>, x: string)
    requires Convertible(groups, toInt)
    requires forall i :: 0 <= i < |groups| ==> PairName(groups[i]) != Some(x)
    requires x in acc
    ensures ParsePairs(groups, toInt, acc).Ok?
    ensures x in ParsePairs(groups, toInt, acc).value
    ensures ParsePairs(groups, toInt, acc).value[x] == acc[x]
    decreases |groups|
  {
    if groups != [] {
      var g := groups[0];
      assert forall i :: 0 <= i < |groups[1..]| ==> groups[1..][i] == groups[i + 1];
      var acc' := if PairName(g).None? then acc else acc[PairName(g).value := toInt(PairValue(g)).value];
      ParsePairsKeep(groups[1..], toInt, acc', x);
    }
  }

  // ---------------------------------------------------------------------
  // Port lists of define_block and define_ports
  // ---------------------------------------------------------------------

  /** The ports a direction flag introduces: the tokens after it up to the
      next '-' token. */
  function PortRun(args: seq<string>, isInput: bool): (r: seq<Port>)
    ensures |r| <= |args|
    ensures forall i :: 0 <= i < |r| ==> r[i] == Port(args[i], isInput) && !DashLed(args[i])
    ensures |r| < |args| ==> DashLed(args[|r|])
  {
    if args == [] || DashLed(args[0]) then [] else [Port(args[0], isInput)] + PortRun(args[1..], isInput)
  }

  datatype PortArgs = PortArgs(name: string, ports: seq<Port>)

  /** The block name given with `flag` (the last one wins) and the ports
      listed after each `-in` and `-out`, in order. */
  function ScanPorts(args: seq<string>, flag: string, acc: PortArgs): (r: PortArgs)
    ensures |r.ports| >= |acc.ports| && r.ports[..|acc.ports|] == acc.ports
    ensures forall i :: |acc.ports| <= i < |r.ports| ==> !DashLed(r.ports[i].name)
    decreases |args|
  {
    if args == [] then acc
    else if args[0] == flag && |args| >= 2 then ScanPorts(args[2..], flag, acc.(name := args[1]))
    else if args[0] == "-in" || args[0] == "-out" then
      var run := PortRun(args[1..], args[0] == "-in");
      ScanPorts(args[1 + |run|..], flag, acc.(ports := acc.ports + run))
    else ScanPorts(args[1..], flag, acc)
  }

  /** A direction flag followed by names lists exactly those names. */
  lemma {:induction false} PortRunOfNames(names: seq<string>, rest: seq<string>, isInput: bool)
    requires forall n :: n in names ==> !DashLed(n)
    requires rest == [] || DashLed(rest[0])
    ensures PortRun(names + rest, isInput) == seq(|names|, i requires 0 <= i < |names| => Port(names[i], isInput))
  {
    if names == [] {
      assert names + rest == rest;
    } else {
      assert names[0] in names;
      assert (names + rest)[1..] == names[1..] + rest;
      assert forall n :: n in names[1..] ==> n in names;
      PortRunOfNames(names[1..], rest, isInput);
    }
  }

  /** Where the scan of a command line with index `i` resumes. */
  function Rest(argv: seq<string>, i: nat): seq<string>
  {
    if i <= |argv| then argv[i..] else []
  }

  /** One step of the scan at a `flag` token with a successor. */
  lemma ScanNameStep(argv: seq<string>, i: nat, flag: string, acc: PortArgs)
    requires i + 1 < |argv| && argv[i] == flag
    ensures ScanPorts(argv[i..], flag, acc) == ScanPorts(argv[i + 2..], flag, acc.(name := argv[i + 1]))
  {
    assert argv[i..][2..] == argv[i + 2..];
  }

  /** One step of the scan at a direction flag: the run of ports after it. */
  lemma ScanDirectionStep(argv: seq<string>, i: nat, flag: string, acc: PortArgs)
    requires i < |argv| && (argv[i] == "-in" || argv[i] == "-out")
    requires !(argv[i] == flag && i + 1 < |argv|)
    ensures var run := PortRun(argv[i + 1..], argv[i] == "-in");
      ScanPorts(argv[i..], flag, acc) == ScanPorts(Rest(argv, i + 1 + |run|), flag, acc.(ports := acc.ports + run))
  {
    var run := PortRun(argv[i + 1..], argv[i] == "-in");
    assert argv[i..][1..] == argv[i + 1..];
    assert argv[i..][1 + |run|..] == argv[i + 1 + |run|..];
  }

  /** One step of the scan at any other token. */
  lemma ScanOtherStep(argv: seq<string>, i: nat, flag: string, acc: PortArgs)
    requires i < |argv| && !(argv[i] == flag && i + 1 < |argv|) && argv[i] != "-in" && argv[i] != "-out"
    ensures ScanPorts(argv[i..], flag, acc) == ScanPorts(argv[i + 1..], flag, acc)
  {
    assert argv[i..][1..] == argv[i + 1..];
  }

  /** The inner loop over the port names after a direction flag. */
  method ReadPorts(argv: seq<string>, i: nat, isInput: bool, ports: seq<Port>) returns (j: nat, ports': seq<Port>)
    requires i <= |argv|
    ensures j == i + |PortRun(argv[i..], isInput)| <= |argv|
    ensures ports' == ports + PortRun(argv[i..], isInput)
  {
    j, ports' := i, ports;
    while j < |argv| && !DashLed(argv[j])
      invariant i <= j <= |argv|
      invariant ports + PortRun(argv[i..], isInput) == ports' + PortRun(argv[j..], isInput)
      invariant |PortRun(argv[i..], isInput)| == (j - i) + |PortRun(argv[j..], isInput)|
    {
      assert argv[j..][1..] == argv[j + 1..];
      AppendAssoc(ports', [Port(argv[j], isInput)], PortRun(argv[j + 1..], isInput));
      ports' := ports' + [Port(argv[j], isInput)];
      j := j + 1;
    }
  }

  /** One turn of the argument loop of define_block and define_ports: a
      name after `flag`, a run of ports after a direction flag, or a token
      that is skipped. Where the scan resumes may be one past the end. */
  method ScanStep(argv: seq<string>, flag: string, i: nat, name: string, ports: seq<Port>)
    returns (i': nat, name': string, ports': seq<Port>)
    requires i < |argv|
    ensures i < i' <= |argv| + 1
    ensures ScanPorts(argv[i..], flag, PortArgs(name, ports)) == ScanPorts(Rest(argv, i'), flag, PortArgs(name', ports'))
  {
    name', ports' := name, ports;
    if argv[i] == flag && i + 1 < |argv| {
      ScanNameStep(argv, i, flag, PortArgs(name, ports));
      name' := argv[i + 1];
      i' := i + 2;
    } else if argv[i] == "-in" || argv[i] == "-out" {
      ScanDirectionStep(argv, i, flag, PortArgs(name, ports));
      var j;
      j, ports' := ReadPorts(argv, i + 1, argv[i] == "-in", ports);
      i' := if j < |argv| then j else j + 1;
    } else {
      ScanOtherStep(argv, i, flag, PortArgs(name, ports));
      i' := i + 1;
    }
  }

  /** The port-list scan of define_block (flag `-name`) and define_ports
      (flag `-block`). */
  method ScanPortArgs(argv: seq<string>, flag: string) returns (name: string, ports: seq<Port>)
    ensures PortArgs(name, ports) == ScanPorts(argv, flag, PortArgs("", []))
  {
    name, ports := "", [];
    var i := 0;
    while i < |argv|
      invariant 0 <= i <= |argv| + 1
      invariant ScanPorts(Rest(argv, i), flag, PortArgs(name, ports)) == ScanPorts(argv, flag, PortArgs("", []))
      decreases |argv| + 1 - i
    {
      assert Rest(argv, i) == argv[i..];
      i, name, ports := ScanStep(argv, flag, i, name, ports);
    }
    assert Rest(argv, i) == [];
  }

  // ---------------------------------------------------------------------
  // Constraint names
  // ---------------------------------------------------------------------

  function GeneratedName(block: string, idx: nat): string
  {
    block + "_constraint_" + NatToString(idx)
  }

  lemma GeneratedNameInjective(block: string, a: nat, b: nat)
    requires GeneratedName(block, a) == GeneratedName(block, b)
    ensures a == b
  {
    var prefix := block + "_constraint_";
    assert GeneratedName(block, a)[|prefix|..] == NatToString(a);
    assert GeneratedName(block, b)[|prefix|..] == NatToString(b);
    NatToStringInjective(a, b);
  }

  /** Distinct indices give distinct names, so `n` consecutive indices name
      `n` different constraints. */
  lemma {:induction false} GeneratedNamesCount(block: string, lo: nat, hi: nat)
    requires lo <= hi
    ensures |set j | lo <= j < hi :: GeneratedName(block, j)| == hi - lo
    decreases hi - lo
  {
    if lo < hi {
      GeneratedNamesCount(block, lo, hi - 1);
      var s := set j | lo <= j < hi - 1 :: GeneratedName(block, j);
      assert (set j | lo <= j < hi :: GeneratedName(block, j)) == s + {GeneratedName(block, hi - 1)};
      if GeneratedName(block, hi - 1) in s {
        var j :| lo <= j < hi - 1 && GeneratedName(block, j) == GeneratedName(block, hi - 1);
        GeneratedNameInjective(block, j, hi - 1);
      }
    }
  }

  /** The key define_constraint stores a constraint under, as the source
      computes it: a given name is dropped and the key stays empty. */
  function ConstraintKeyAsWritten(given: string, generated: string): (key: string)
    ensures given == "" ==> key == generated
  {
    if given == "" then generated else ""
  }

  /** Two constraints defined with different explicit names land on the
      same key, the empty one, so the second replaces the first. */
  lemma NamedConstraintsCollide()
    ensures ConstraintKeyAsWritten("c1", "b_constraint_0") == ConstraintKeyAsWritten("c2", "b_constraint_0") == ""
    ensures ConstraintKeyAsWritten("c1", "b_constraint_0") != "c1"
  {
  }

  /** The key define_constraint evidently means to use: the given name, or
      the generated one when no name is given. */
  function ConstraintKey(given: string, generated: string): (key: string)
    ensures given != "" ==> key == given
    ensures given == "" ==> key == generated
  {
    if given == "" then generated else given
  }

  /** With the intended key, differently named constraints never collide. */
  lemma ConstraintKeysDistinct(a: string, b: string, generated: string)
    requires a != "" && b != "" && a != b
    ensures ConstraintKey(a, generated) != ConstraintKey(b, generated)
  {
  }

  /** The first free name `<block>_constraint_<idx>`, counting up from the
      number of constraints the block already has. */
  method FreshConstraintName(block: string, constraints: map<string, string>) returns (name: string, idx: nat)
    ensures name == GeneratedName(block, idx) && name !in constraints
    ensures idx >= |constraints|
    ensures forall j :: |constraints| <= j < idx ==> GeneratedName(block, j) in constraints
  {
    idx := |constraints|;
    name := GeneratedName(block, idx);
    GeneratedNamesCount(block, |constraints|, idx);
    while name in constraints
      invariant idx >= |constraints|
      invariant name == GeneratedName(block, idx)
      invariant forall j :: |constraints| <= j < idx ==> GeneratedName(block, j) in constraints
      invariant idx - |constraints| <= |constraints.Keys|
      decreases |constraints.Keys| - (idx - |constraints|)
    {
      GeneratedNamesCount(block, |constraints|, idx + 1);
      var taken := set j | |constraints| <= j < idx + 1 :: GeneratedName(block, j);
      assert taken <= constraints.Keys;
      assert |taken| <= |constraints.Keys| by {
        SubsetCard(taken, constraints.Keys);
      }
      idx := idx + 1;
      name := GeneratedName(block, idx);
    }
  }

  lemma SubsetCard<T>(a: set<T>, b: set<T>)
    requires a <= b
    ensures |a| <= |b|
  {
    assert b == a + (b - a);
  }

  // ---------------------------------------------------------------------
  // The registry
  // ---------------------------------------------------------------------

  /** The device registry. The current device is named by its key. */
  class DeviceModeler {
    var devices: map<string, Device>
    var current: Option<string>

    ghost predicate Valid()
      reads this
    {
      current.Some? ==> current.value in devices
    }

    constructor()
      ensures Valid() && devices == map[] && current == None
    {
      devices := map[];
      current := None;
    }

    /** add_device: registers the device when the name is free. */
    method AddDevice(name: string, device: Device) returns (ok: bool)
      requires Valid()
      modifies this`devices
      ensures Valid()
      ensures ok <==> name !in old(devices)
      ensures ok ==> devices == old(devices)[name := device] && GetDevice(name) == Some(device)
      ensures !ok ==> devices == old(devices)
    {
      ok := name !in devices;
      if ok {
        devices := devices[name := device];
      }
    }

    /** get_device: the stored device, or None. */
    function GetDevice(name: string): (r: Option<Device>)
      reads this
      ensures r.Some? <==> name in devices
      ensures r.Some? ==> r.value == devices[name]
    {
      if name in devices then Some(devices[name]) else None
    }

    /** device_name: makes the named device current, registering a new empty
        one when the name is unknown. */
    method DeviceName(argv: seq<string>) returns (r: Result<bool>)
      requires Valid()
      modifies this
      ensures Valid()
      ensures (|argv| < 2 || argv[1] == [] || !(IsAlnum(argv[1][0]) || argv[1][0] == '_')) ==>
                r == Err("Invalid device name") && devices == old(devices) && current == old(current)
      ensures !(|argv| < 2 || argv[1] == [] || !(IsAlnum(argv[1][0]) || argv[1][0] == '_')) ==>
                r == Ok(true) && current == Some(argv[1])
                && devices == (if argv[1] in old(devices) then old(devices) else old(devices)[argv[1] := NewDevice(argv[1])])
    {
      if |argv| < 2 || argv[1] == [] || !(IsAlnum(argv[1][0]) || argv[1][0] == '_') {
        return Err("Invalid device name");
      }
      var name := argv[1];
      if GetDevice(name).None? {
        devices := devices[name := NewDevice(name)];
      }
      current := Some(name);
      return Ok(true);
    }

    /** define_block: defines a block with the ports listed after `-in` and
        `-out`, first creating and registering an automatic device when none
        is current (which stays registered even when the command fails). */
    method DefineBlock(argv: seq<string>) returns (r: Result<bool>)
      requires Valid()
      modifies this
      ensures Valid()
      ensures old(current).Some? ==> current == old(current)
      ensures old(current).None? ==> current == Some(AUTO_DEVICE)
      ensures var d0 := if old(current).Some? then old(devices) else old(devices)[AUTO_DEVICE := NewDevice(AUTO_DEVICE)];
              var scan := ScanPorts(argv, "-name", PortArgs("", []));
              if scan.name == "" then r == Err("Block name is not provided or invalid") && devices == d0
              else (r == Ok(true) && current.value in d0 &&
                devices == d0[current.value := d0[current.value].(blocks := d0[current.value].blocks[scan.name := Block(scan.name, scan.ports, map[])])])
    {
      if current.None? {
        devices := devices[AUTO_DEVICE := NewDevice(AUTO_DEVICE)];
        current := Some(AUTO_DEVICE);
      }
      var blockName, ports := ScanPortArgs(argv, "-name");
      if blockName == "" {
        return Err("Block name is not provided or invalid");
      }
      var key := current.value;
      var device := devices[key];
      devices := devices[key := device.(blocks := device.blocks[blockName := Block(blockName, ports, map[])])];
      return Ok(true);
    }

    /** define_ports: appends the ports listed after `-in` and `-out` to a
        block of the current device. */
    method DefinePorts(argv: seq<string>) returns (r: Result<bool>)
      requires Valid()
      modifies this`devices
      ensures Valid()
      ensures var scan := ScanPorts(argv, "-block", PortArgs("", []));
              if old(current).None? then r == Err("No current device") && devices == old(devices)
              else if scan.name == "" then r == Err("Block name is not provided or invalid") && devices == old(devices)
              else if scan.name !in old(devices)[current.value].blocks then
                r == Err("Block with name " + scan.name + " does not exist in current device") && devices == old(devices)
              else if scan.ports == [] then r == Err("No ports specified in add_ports") && devices == old(devices)
              else
                var d := old(devices)[current.value];
                var b := d.blocks[scan.name];
                r == Ok(true) && devices == old(devices)[current.value := d.(blocks := d.blocks[scan.name := b.(ports := b.ports + scan.ports)])]
    {
      if current.None? {
        return Err("No current device");
      }
      var blockName, ports := ScanPortArgs(argv, "-block");
      if blockName == "" {
        return Err("Block name is not provided or invalid");
      }
      var key := current.value;
      var device := devices[key];
      if blockName !in device.blocks {
        return Err("Block with name " + blockName + " does not exist in current device");
      }
      if ports == [] {
        return Err("No ports specified in add_ports");
      }
      var block := device.blocks[blockName];
      devices := devices[key := device.(blocks := device.blocks[blockName := block.(ports := block.ports + ports)])];
      return Ok(true);
    }

    /** define_constraint with the intended key: the constraint is stored in
        the named block of the current device, or in the device itself, under
        its given name or the first free generated one. */
    method DefineConstraint(argv: seq<string>) returns (r: Result<bool>)
      requires Valid()
      modifies this`devices
      ensures Valid()
      ensures |argv| < 3 ==> r == Err("Insufficient arguments passed to define_constraint.") && devices == old(devices)
      ensures |argv| >= 3 && GetArgumentValue("-constraint", argv, true).Err? ==>
                r == Err(Missing("-constraint")) && devices == old(devices)
      ensures |argv| >= 3 && GetArgumentValue("-constraint", argv, true).Ok? && old(current).None? ==>
                r == Err("Need to define a device before calling \"define_constraint\"") && devices == old(devices)
      ensures |argv| >= 3 && GetArgumentValue("-constraint", argv, true).Ok? && old(current).Some? &&
              Scope(old(devices)[old(current).value], GetArgumentValue("-block", argv, false).value).None? ==>
                r == Err(NO_SUCH_BLOCK) && devices == old(devices)
      ensures r.Err? ==> devices == old(devices)
      ensures r.Ok? ==>
        old(current).Some? && |argv| >= 3 && GetArgumentValue("-constraint", argv, true).Ok? &&
        Scope(old(devices)[old(current).value], GetArgumentValue("-block", argv, false).value).Some?
      ensures r.Ok? ==>
        var given := GetArgumentValue("-name", argv, false).value;
        var blockName := GetArgumentValue("-block", argv, false).value;
        var d := old(devices)[current.value];
        var b := Scope(d, blockName).value;
        exists key ::
          && ConstraintKeyFor(given, b, key)
          && devices == old(devices)[current.value := WithScope(d, blockName,
               b.(constraints := b.constraints[key := GetArgumentValue("-constraint", argv, true).value]))]
    {
      if |argv| < 3 {
        return Err("Insufficient arguments passed to define_constraint.");
      }
      var blockName := GetArgumentValue("-block", argv, false).value;
      var given := GetArgumentValue("-name", argv, false).value;
      var expr := GetArgumentValue("-constraint", argv, true);
      if expr.Err? {
        return Err(expr.message);
      }
      if current.None? {
        return Err("Need to define a device before calling \"define_constraint\"");
      }
      var key := current.value;
      var device := devices[key];
      if Scope(device, blockName).None? {
        return Err(NO_SUCH_BLOCK);
      }
      var block := Scope(device, blockName).value;
      var generated := "";
      if given == "" {
        var idx;
        generated, idx := FreshConstraintName(block.name, block.constraints);
        assert FirstFreeName(block.name, block.constraints, generated);
      }
      var name := ConstraintKey(given, generated);
      devices := devices[key := WithScope(device, blockName, block.(constraints := block.constraints[name := expr.value]))];
      assert ConstraintKeyFor(given, block, name);
      assert device == old(devices)[current.value] && block == Scope(old(devices)[current.value], blockName).value;
      assert devices == old(devices)[current.value := WithScope(device, blockName,
               block.(constraints := block.constraints[name := GetArgumentValue("-constraint", argv, true).value]))];
      return Ok(true);
    }
  }

  /** The block a constraint is attached to: the device itself when no
      `-block` is given, otherwise the named block when it exists. */
  function Scope(d: Device, blockName: string): (b: Option<Block>)
    ensures b.Some? <==> blockName == "" || blockName in d.blocks
  {
    if blockName == "" then Some(d.top)
    else if blockName in d.blocks then Some(d.blocks[blockName])
    else None
  }

  /** The device with the block chosen by `Scope` replaced by `b`. */
  function WithScope(d: Device, blockName: string, b: Block): (d': Device)
    ensures Scope(d', blockName) == Some(b)
    ensures blockName == "" ==> d'.blocks == d.blocks
    ensures blockName != "" ==> d'.top == d.top && d'.blocks.Keys == d.blocks.Keys + {blockName}
  {
    if blockName == "" then d.(top := b) else d.(blocks := d.blocks[blockName := b])
  }

  /** `name` is the first generated name, counting from the number of
      constraints, that is not already a key. */
  ghost predicate FirstFreeName(block: string, constraints: map<string, string>, name: string)
  {
    exists idx: nat ::
      && idx >= |constraints|
      && name == GeneratedName(block, idx)
      && name !in constraints
      && (forall j :: |constraints| <= j < idx ==> GeneratedName(block, j) in constraints)
  }

  /** The key a constraint named `given` gets in block `b`: the given name,
      or else the first free generated one. */
  ghost predicate ConstraintKeyFor(given: string, b: Block, key: string)
  {
    && (given != "" ==> key == given)
    && (given == "" ==> FirstFreeName(b.name, b.constraints, key))
  }

  /** The outcome for a `-block` that names no block of the current device,
      where the source dereferences a null block. */
  const NO_SUCH_BLOCK: string := "no such block"

  lemma AppendAssoc<T>(a: seq<T>, b: seq<T>, c: seq<T>)
    ensures a + b + c == a + (b + c)
  {
  }
}
