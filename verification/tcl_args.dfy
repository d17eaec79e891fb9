/** The Tcl argument codecs behind the task settings dialogs: splitting one
    flag out of an argument string, the option-name tables, the
    get/set pairs that turn compiler options into argument strings and back,
    and the walk over the simulation arguments. */
module TclArgs {
  import Wrappers
  import opened Strings

  const SYNTH_ARG: string := "_SynthOpt_"
  const TIMING_ANALYSIS_ARG: string := "_StaOpt_"
  const PLACE_ARG: string := "pin_assign_method"
  const PACKING_ARG: string := "netlist_lang"

  // ---------------------------------------------------------------------
  // separateArg
  // ---------------------------------------------------------------------

  /** The flag that is searched for: the name, with a dash put in front when
      it does not start with one. */
  function Flag(name: string): (f: string)
    requires name != []
    ensures f != [] && f[0] == '-'
    ensures name[0] == '-' ==> f == name
    ensures name[0] != '-' ==> f == "-" + name
  {
    if name[0] != '-' then "-" + name else name
  }

  /** Where the flag occurs first in `s`, or -1 (also -1 for an empty name). */
  function FlagAt(name: string, s: string): int
  {
    if name == [] then -1 else IndexOf(s, Flag(name), 0)
  }

  /** separateArg as written: the length handed to `mid` is the absolute
      position of the next dash, not its distance from the flag. */
  function SeparateArgAsWritten(name: string, s: string): (r: (string, string))
    ensures FlagAt(name, s) == -1 ==> r == ("", s)
  {
    var at := FlagAt(name, s);
    if at == -1 then ("", s)
    else
      assert OccursAt(s, Flag(name), at);
      var target := Mid(s, at, IndexOf(s, "-", at + 1));
      (target, ReplaceAll(s, target, ""))
  }

  /** The end of the argument that starts at `at`: the next dash after it,
      or the end of the string. */
  function ArgEnd(s: string, at: nat): (e: nat)
    requires at < |s|
    ensures at < e <= |s|
    ensures '-' !in s[at + 1..e]
    ensures e == |s| || s[e] == '-'
  {
    var next := IndexOf(s, "-", at + 1);
    if next == -1 then
      assert forall k :: at + 1 <= k < |s| ==> !OccursAt(s, "-", k);
      assert forall k :: at + 1 <= k < |s| ==> s[k] != '-' by {
        forall k | at + 1 <= k < |s| ensures s[k] != '-' {
          OccursSingle(s, '-', k);
        }
      }
      |s|
    else
      assert forall k :: at + 1 <= k < next ==> s[k] != '-' by {
        forall k | at + 1 <= k < next ensures s[k] != '-' {
          OccursSingle(s, '-', k);
        }
      }
      OccursSingle(s, '-', next);
      next
  }

  lemma OccursSingle(s: string, c: char, k: nat)
    requires k < |s|
    ensures OccursAt(s, [c], k) <==> s[k] == c
  {
    assert s[k..k + 1] == [s[k]];
  }

  /** separateArg with the evidently intended length: the flag together with
      everything up to the next dash is taken out, and what is left keeps the
      other arguments. */
  function SeparateArg(name: string, s: string): (r: (string, string))
    ensures FlagAt(name, s) == -1 ==> r == ("", s)
    ensures FlagAt(name, s) != -1 ==>
              var at := FlagAt(name, s);
              && 0 <= at < |s|
              && r.0 == s[at..ArgEnd(s, at)]
              && r.1 == ReplaceAll(s, r.0, "")
  {
    var at := FlagAt(name, s);
    if at == -1 then ("", s)
    else
      assert OccursAt(s, Flag(name), at);
      var target := Mid(s, at, ArgEnd(s, at) - at);
      (target, ReplaceAll(s, target, ""))
  }

  /** What separateArg takes out is the first occurrence of the flag, its
      values, and nothing of the next argument. */
  lemma SeparatedArgShape(name: string, s: string)
    requires FlagAt(name, s) != -1
    ensures var t := SeparateArg(name, s).0;
            && StartsWith(t, "-")
            && '-' !in t[1..]
            && OccursAt(s, t, FlagAt(name, s))
            && forall k :: 0 <= k < FlagAt(name, s) ==> !OccursAt(s, Flag(name), k)
  {
    var at := FlagAt(name, s);
    var t := SeparateArg(name, s).0;
    assert OccursAt(s, Flag(name), at);
    assert s[at] == '-';
    assert t[1..] == s[at + 1..ArgEnd(s, at)];
  }

  /** When the flag opens the string, or no dash follows it, the code as
      written takes out what was meant. */
  lemma SeparateArgAgreement(name: string, s: string)
    requires FlagAt(name, s) == 0 || (FlagAt(name, s) > 0 && IndexOf(s, "-", FlagAt(name, s) + 1) == -1)
    ensures SeparateArgAsWritten(name, s) == SeparateArg(name, s)
  {
    var at := FlagAt(name, s);
    assert OccursAt(s, Flag(name), at);
    MidAgreement(s, at);
    var t := Mid(s, at, ArgEnd(s, at) - at);
    assert SeparateArgAsWritten(name, s) == (t, ReplaceAll(s, t, ""));
  }

  /** The two lengths cut out the same text when the argument starts the
      string or runs to its end. */
  lemma MidAgreement(s: string, at: nat)
    requires at < |s|
    requires at == 0 || IndexOf(s, "-", at + 1) == -1
    ensures Mid(s, at, IndexOf(s, "-", at + 1)) == Mid(s, at, ArgEnd(s, at) - at)
  {
    var next := IndexOf(s, "-", at + 1);
    if next == -1 {
      assert ArgEnd(s, at) == |s|;
    } else {
      assert ArgEnd(s, at) == next;
    }
  }

  /** The flag in the middle of the string: as written, the argument after
      it is taken out with it and lost from the remaining options. */
  lemma SeparateArgLosesFollowingArgs()
    ensures SeparateArgAsWritten("s", "-a -s -b") == ("-s -b", "-a ")
  {
    var s := "-a -s -b";
    SampleArgPositions();
    assert Mid(s, 3, 6) == "-s -b";
    SampleRemovalAsWritten();
  }

  /** With the intended length the following argument stays. */
  lemma SeparateArgKeepsFollowingArgs()
    ensures SeparateArg("s", "-a -s -b") == ("-s ", "-a -b")
  {
    var s := "-a -s -b";
    SampleArgPositions();
    assert ArgEnd(s, 3) == 6;
    assert Mid(s, 3, 3) == "-s ";
    SampleRemoval();
  }

  /** What is left of the sample string once the as-written target is removed. */
  lemma SampleRemovalAsWritten()
    ensures ReplaceAll("-a -s -b", "-s -b", "") == "-a "
  {
    var t := "-s -b";
    assert ReplaceAll(t, t, "") == "" by {
      assert t[..5] == t && t[5..] == [];
    }
    assert ReplaceAll(" " + t, t, "") == " " by {
      assert (" " + t)[..5][0] != t[0] && (" " + t)[1..] == t;
    }
    assert ReplaceAll("a " + t, t, "") == "a " by {
      assert ("a " + t)[..5][0] != t[0] && ("a " + t)[1..] == " " + t;
    }
    assert "-a -s -b" == "-a " + t;
    assert ("-a " + t)[..5][1] != t[1] && ("-a " + t)[1..] == "a " + t;
  }

  /** What is left of the sample string once the intended target is removed. */
  lemma SampleRemoval()
    ensures ReplaceAll("-a -s -b", "-s ", "") == "-a -b"
  {
    assert ReplaceAll("-b", "-s ", "") == "-b";
    assert ReplaceAll("-s -b", "-s ", "") == "-b";
    assert ReplaceAll(" -s -b", "-s ", "") == " -b";
    assert ReplaceAll("a -s -b", "-s ", "") == "a -b";
  }

  /** Where the flag and the next dash sit in the sample string. */
  lemma SampleArgPositions()
    ensures FlagAt("s", "-a -s -b") == 3
    ensures IndexOf("-a -s -b", "-", 4) == 6
  {
    var s := "-a -s -b";
    assert FlagAt("s", s) == 3 by {
      assert Flag("s") == "-s";
      assert s[0..2] == "-a" && s[1..3] == "a " && s[2..4] == " -" && s[3..5] == "-s";
    }
    assert IndexOf(s, "-", 4) == 6 by {
      OccursSingle(s, '-', 4);
      OccursSingle(s, '-', 5);
      OccursSingle(s, '-', 6);
    }
  }

  /** A string made of one flag and one value, as the getters produce it,
      is taken out whole by separateArg. */
  lemma SeparateArgOfOwnText(name: string, value: string)
    requires name != [] && '-' !in name && '-' !in value
    ensures SeparateArg(name, "-" + name + " " + value) == ("-" + name + " " + value, "")
  {
    var s := "-" + name + " " + value;
    assert Flag(name) == "-" + name;
    assert s[..|Flag(name)|] == Flag(name);
    assert FlagAt(name, s) == 0;
    assert '-' !in s[1..] by {
      assert s[1..] == name + " " + value;
    }
    assert ArgEnd(s, 0) == |s|;
    assert SeparateArg(name, s).0 == s;
    assert ReplaceAll(s, s, "") == "" by {
      assert s[..|s|] == s && s[|s|..] == [];
    }
  }

  /** On a getter's `-name value` the code as written takes out the same
      text as the intended code: the flag opens the string. */
  lemma OwnTextAgreement(name: string, value: string)
    requires name != [] && '-' !in name && '-' !in value
    ensures SeparateArgAsWritten(name, "-" + name + " " + value) == SeparateArg(name, "-" + name + " " + value)
  {
    var s := "-" + name + " " + value;
    assert Flag(name) == "-" + name;
    assert s[..|Flag(name)|] == Flag(name);
    assert FlagAt(name, s) == 0;
    SeparateArgAgreement(name, s);
  }

  /** Splitting `-name value` at spaces gives the flag and the value. */
  lemma TokensOfOwnText(name: string, value: string)
    requires ' ' !in name && ' ' !in value
    ensures Split("-" + name + " " + value, ' ') == ["-" + name, value]
  {
    assert Join(["-" + name, value], ' ') == "-" + name + " " + value;
    SplitJoin(["-" + name, value], ' ');
  }

  /** What the setters read back from a getter's `-name value`: the flag and
      the value. */
  lemma SetterTokensOfOwnText(name: string, value: string)
    requires name != [] && '-' !in name && '-' !in value
    requires ' ' !in name && ' ' !in value
    ensures Split(SeparateArg(name, "-" + name + " " + value).0, ' ') == ["-" + name, value]
  {
    SeparateArgOfOwnText(name, value);
    TokensOfOwnText(name, value);
  }

  /** separateArg on a flag and value that close the string, after text
      that does not hold the flag: the flag and value are taken out, and the
      text before them comes back with the space that stood before the flag. */
  lemma SeparateLastArg(name: string, more: string, value: string)
    requires name != [] && '-' !in name && ' ' !in name && '-' !in value
    requires !Contains(more, Flag(name))
    ensures SeparateArg(name, more + " " + ("-" + name + " " + value)) == ("-" + name + " " + value, more + " ")
  {
    var t := "-" + name + " " + value;
    var s := (more + " ") + t;
    LastArgFound(name, more, value);
    assert s[|more| + 2..] == name + " " + value;
    LastArgEnd(s, |more| + 1);
    assert s[|more| + 1..] == t;
    var r := SeparateArg(name, s);
    assert r.0 == t;
    forall k | 0 <= k < |more + " "| ensures !OccursAt(s, t, k) {
      OccursOfPrefix(s, Flag(name), t, k);
    }
    ReplaceAllAtEnd(more + " ", t, "");
    assert r.1 == more + " ";
  }

  /** On `more -name value` with the flag closing the string, the code as
      written takes out the same text as the intended code: no dash follows
      the flag. */
  lemma LastArgAgreement(name: string, more: string, value: string)
    requires name != [] && '-' !in name && ' ' !in name && '-' !in value
    requires !Contains(more, Flag(name))
    ensures var s := more + " " + ("-" + name + " " + value);
            SeparateArgAsWritten(name, s) == SeparateArg(name, s)
  {
    var s := more + " " + ("-" + name + " " + value);
    var at := |more| + 1;
    LastArgFound(name, more, value);
    assert s[at + 1..] == name + " " + value;
    NoDashAfter(s, at);
    SeparateArgAgreement(name, s);
  }

  /** IndexOf finds no dash after `at` when the rest of the string has none. */
  lemma NoDashAfter(s: string, at: nat)
    requires at < |s| && '-' !in s[at + 1..]
    ensures IndexOf(s, "-", at + 1) == -1
  {
    forall k | at + 1 <= k < |s| ensures !OccursAt(s, "-", k) {
      OccursSingle(s, '-', k);
      assert s[k] == s[at + 1..][k - at - 1];
    }
  }

  lemma LastArgFound(name: string, more: string, value: string)
    requires name != [] && '-' !in name && ' ' !in name
    requires !Contains(more, Flag(name))
    ensures FlagAt(name, more + " " + ("-" + name + " " + value)) == |more| + 1
    ensures forall k :: 0 <= k <= |more| ==> !OccursAt(more + " " + ("-" + name + " " + value), Flag(name), k)
  {
    var t := "-" + name + " " + value;
    assert Flag(name) == "-" + name;
    assert t[..|Flag(name)|] == Flag(name);
    IndexAfterSpace(more, Flag(name), t);
  }

  /** An argument with no dash after its own leading one runs to the end. */
  lemma LastArgEnd(s: string, at: nat)
    requires at < |s| && '-' !in s[at + 1..]
    ensures ArgEnd(s, at) == |s|
  {
    var e := ArgEnd(s, at);
    if e < |s| {
      assert s[e] == s[at + 1..][e - at - 1];
    }
  }

  /** Where a text occurs, so does each of its prefixes. */
  lemma OccursOfPrefix(s: string, f: string, t: string, k: int)
    requires StartsWith(t, f)
    requires !OccursAt(s, f, k)
    ensures !OccursAt(s, t, k)
  {
    if 0 <= k && k + |t| <= |s| {
      assert s[k..k + |f|] == s[k..k + |t|][..|f|];
    }
  }

  // ---------------------------------------------------------------------
  // Option-name tables
  // ---------------------------------------------------------------------

  /** std::find_if over a table: the key of the first entry carrying
      `name`, or `default` when none does. */
  function Lookup<K>(table: seq<(K, string)>, name: string, default: K): (k: K)
    ensures (forall i :: 0 <= i < |table| ==> table[i].1 != name) ==> k == default
    ensures k == default || exists i :: 0 <= i < |table| && table[i] == (k, name)
  {
    if table == [] then default
    else if table[0].1 == name then table[0].0
    else
      var k := Lookup(table[1..], name, default);
      assert k != default ==> exists i :: 0 <= i < |table[1..]| && table[1..][i] == (k, name);
      k
  }

  /** In a table whose names are distinct, looking an entry's name up gives
      that entry's key. */
  lemma {:induction false} LookupFinds<K>(table: seq<(K, string)>, i: nat, default: K)
    requires i < |table|
    requires forall a, b :: 0 <= a < b < |table| ==> table[a].1 != table[b].1
    ensures Lookup(table, table[i].1, default) == table[i].0
  {
    if i > 0 {
      assert table[0].1 != table[i].1;
      assert table[1..][i - 1] == table[i];
      LookupFinds(table[1..], i - 1, default);
    }
  }

  datatype SynthesisOpt = NoSynthOpt | Area | Delay | Mixed | Clean

  /** synthOptMap. */
  const SYNTH_OPT_TABLE: seq<(SynthesisOpt, string)> :=
    [(NoSynthOpt, "none"), (Area, "area"), (Delay, "delay"), (Mixed, "mixed"), (Clean, "clean")]

  function SynthOptIndex(o: SynthesisOpt): (i: nat)
    ensures i < |SYNTH_OPT_TABLE| && SYNTH_OPT_TABLE[i].0 == o
  {
    match o
    case NoSynthOpt => 0
    case Area => 1
    case Delay => 2
    case Mixed => 3
    case Clean => 4
  }

  /** synthOptToStr: the table's name for the option. */
  function SynthOptToStr(o: SynthesisOpt): (s: string)
    ensures (o, s) in SYNTH_OPT_TABLE
  {
    SYNTH_OPT_TABLE[SynthOptIndex(o)].1
  }

  /** synthStrToOpt: the option a name stands for; an unknown name gives
      the None option. */
  function SynthStrToOpt(s: string): (o: SynthesisOpt)
    ensures (forall i :: 0 <= i < |SYNTH_OPT_TABLE| ==> SYNTH_OPT_TABLE[i].1 != s) ==> o == NoSynthOpt
  {
    Lookup(SYNTH_OPT_TABLE, s, NoSynthOpt)
  }

  /** Every synthesis option survives conversion to its name and back. */
  lemma SynthOptRoundTrip(o: SynthesisOpt)
    ensures SynthStrToOpt(SynthOptToStr(o)) == o
  {
    LookupFinds(SYNTH_OPT_TABLE, SynthOptIndex(o), NoSynthOpt);
  }

  datatype PinAssignOpt = Random | InDefineOrder | Free

  /** pinOptMap. */
  const PIN_OPT_TABLE: seq<(PinAssignOpt, string)> :=
    [(Random, "random"), (InDefineOrder, "in_define_order"), (Free, "free")]

  function PinOptIndex(o: PinAssignOpt): (i: nat)
    ensures i < |PIN_OPT_TABLE| && PIN_OPT_TABLE[i].0 == o
  {
    match o
    case Random => 0
    case InDefineOrder => 1
    case Free => 2
  }

  /** pinOptToStr. */
  function PinOptToStr(o: PinAssignOpt): (s: string)
    ensures (o, s) in PIN_OPT_TABLE
  {
    PIN_OPT_TABLE[PinOptIndex(o)].1
  }

  /** pinStrToOpt: an unknown name gives In_Define_Order. */
  function PinStrToOpt(s: string): (o: PinAssignOpt)
    ensures (forall i :: 0 <= i < |PIN_OPT_TABLE| ==> PIN_OPT_TABLE[i].1 != s) ==> o == InDefineOrder
  {
    Lookup(PIN_OPT_TABLE, s, InDefineOrder)
  }

  lemma PinOptRoundTrip(o: PinAssignOpt)
    ensures PinStrToOpt(PinOptToStr(o)) == o
  {
    LookupFinds(PIN_OPT_TABLE, PinOptIndex(o), InDefineOrder);
  }

  datatype NetlistType = Blif | Edif | VHDL | Verilog

  /** netlistOptMap. */
  const NETLIST_TABLE: seq<(NetlistType, string)> :=
    [(Blif, "blif"), (Edif, "edif"), (VHDL, "vhdl"), (Verilog, "verilog")]

  function NetlistIndex(t: NetlistType): (i: nat)
    ensures i < |NETLIST_TABLE| && NETLIST_TABLE[i].0 == t
  {
    match t
    case Blif => 0
    case Edif => 1
    case VHDL => 2
    case Verilog => 3
  }

  function NetlistName(t: NetlistType): (s: string)
    ensures (t, s) in NETLIST_TABLE
  {
    NETLIST_TABLE[NetlistIndex(t)].1
  }

  datatype STAEngineOpt = Tatum | Opensta

  // ---------------------------------------------------------------------
  // Option strings of the compiler
  // ---------------------------------------------------------------------

  lemma SynthNamesPlain(o: SynthesisOpt)
    ensures var n := SynthOptToStr(o); n != [] && '-' !in n && ' ' !in n && !IsSpace(n[|n| - 1])
  {
  }

  lemma PinNamesPlain(o: PinAssignOpt)
    ensures '-' !in PinOptToStr(o) && ' ' !in PinOptToStr(o)
  {
  }

  /** Setting the synthesis options from what the getter produced keeps the
      synthesis option when the extra options neither start with blank
      space nor hold the flag. Non-empty extra options come back with one
      space more at their end: the space the getter put before the flag. */
  lemma SynthesisSetOfGet(c: CompilerOptions)
    requires c.synthMoreOpt == [] || !IsSpace(c.synthMoreOpt[0])
    requires !Contains(c.synthMoreOpt, Flag(SYNTH_ARG))
    ensures var sep := SeparateArg(SYNTH_ARG, Trim(c.SynthesisOptions()));
            var tokens := Split(sep.0, ' ');
            && |tokens| > 1 && SynthStrToOpt(tokens[1]) == c.synthOpt
            && sep.1 == (if c.synthMoreOpt == [] then "" else c.synthMoreOpt + " ")
            && SeparateArgAsWritten(SYNTH_ARG, Trim(c.SynthesisOptions())) == sep
  {
    var n := SynthOptToStr(c.synthOpt);
    SynthNamesPlain(c.synthOpt);
    SeparateOfTrimmed(SYNTH_ARG, c.synthMoreOpt, n);
    SynthOptRoundTrip(c.synthOpt);
  }

  /** What separateArg makes of the trimmed text `more -name value`. */
  lemma SeparateOfTrimmed(name: string, more: string, value: string)
    requires name != [] && '-' !in name && ' ' !in name
    requires value != [] && '-' !in value && ' ' !in value && !IsSpace(value[|value| - 1])
    requires more == [] || !IsSpace(more[0])
    requires !Contains(more, Flag(name))
    ensures var sep := SeparateArg(name, Trim(more + " " + ("-" + name + " " + value)));
            && Split(sep.0, ' ') == ["-" + name, value]
            && sep.1 == (if more == [] then "" else more + " ")
            && SeparateArgAsWritten(name, Trim(more + " " + ("-" + name + " " + value))) == sep
  {
    var own := "-" + name + " " + value;
    var sep := SeparateArg(name, Trim(more + " " + own));
    assert own[|own| - 1] == value[|value| - 1];
    TrimOfOptions(more, own);
    if more == [] {
      SeparateArgOfOwnText(name, value);
      OwnTextAgreement(name, value);
      assert sep == (own, "");
    } else {
      SeparateLastArg(name, more, value);
      LastArgAgreement(name, more, value);
      assert sep == (own, more + " ");
    }
    TokensOfOwnText(name, value);
  }

  /** Trimming the getter's text removes only the space before the flag,
      and only when there are no extra options before it. */
  lemma TrimOfOptions(m: string, own: string)
    requires own != [] && own[0] == '-' && !IsSpace(own[|own| - 1])
    requires m == [] || !IsSpace(m[0])
    ensures Trim(m + " " + own) == if m == [] then own else m + " " + own
  {
    var text := m + " " + own;
    if m == [] {
      assert text == " " + own;
      TrimLeading(own);
    } else {
      assert text[0] == m[0];
      assert text[|text| - 1] == own[|own| - 1];
      TrimUnchanged(text);
    }
  }

  lemma TrimUnchanged(text: string)
    requires text != [] && !IsSpace(text[0]) && !IsSpace(text[|text| - 1])
    ensures Trim(text) == text
  {
  }

  lemma TrimLeading(own: string)
    requires own != [] && !IsSpace(own[0]) && !IsSpace(own[|own| - 1])
    ensures Trim(" " + own) == own
  {
    assert (" " + own)[1..] == own;
    TrimUnchanged(own);
  }

  /** Setting the placement options from what the getter produced keeps the
      pin assignment option when the extra options do not hold the flag;
      the extra options come back with one space more at their end. */
  lemma PlacementSetOfGet(c: CompilerOptions)
    requires !Contains(c.placeMoreOpt, Flag(PLACE_ARG))
    ensures var sep := SeparateArg(PLACE_ARG, c.PlacementOptions());
            var tokens := Split(sep.0, ' ');
            && |tokens| > 1 && PinStrToOpt(tokens[1]) == c.pinAssignOpt
            && sep.1 == c.placeMoreOpt + " "
            && SeparateArgAsWritten(PLACE_ARG, c.PlacementOptions()) == sep
  {
    var n := PinOptToStr(c.pinAssignOpt);
    PinNamesPlain(c.pinAssignOpt);
    SeparateLastArg(PLACE_ARG, c.placeMoreOpt, n);
    LastArgAgreement(PLACE_ARG, c.placeMoreOpt, n);
    TokensOfOwnText(PLACE_ARG, n);
    PinOptRoundTrip(c.pinAssignOpt);
  }

  /** TclArgs_getTimingAnalysisOptions: `-_StaOpt_ opensta` or `-_StaOpt_ tatum`. */
  function TimingOptionsText(e: STAEngineOpt): (s: string)
    ensures StartsWith(s, "-" + TIMING_ANALYSIS_ARG + " ")
  {
    "-" + TIMING_ANALYSIS_ARG + " " + (if e == Opensta then "opensta" else "tatum")
  }

  /** The engine TclArgs_setTimingAnalysisOptions picks: OpenSTA exactly when
      the flag's value is `opensta`, tatum otherwise. */
  function TimingEngineOf(args: string): (e: STAEngineOpt)
    ensures e == Opensta <==>
              var tokens := Split(SeparateArg(TIMING_ANALYSIS_ARG, args).0, ' ');
              |tokens| > 1 && tokens[1] == "opensta"
  {
    var tokens := Split(SeparateArg(TIMING_ANALYSIS_ARG, args).0, ' ');
    if |tokens| > 1 && tokens[1] == "opensta" then Opensta else Tatum
  }

  /** Setting the timing options from what the getter produced keeps the engine. */
  lemma TimingRoundTrip(e: STAEngineOpt)
    ensures TimingEngineOf(TimingOptionsText(e)) == e
    ensures SeparateArgAsWritten(TIMING_ANALYSIS_ARG, TimingOptionsText(e)) ==
            SeparateArg(TIMING_ANALYSIS_ARG, TimingOptionsText(e))
  {
    var v := if e == Opensta then "opensta" else "tatum";
    assert '-' !in TIMING_ANALYSIS_ARG && ' ' !in TIMING_ANALYSIS_ARG;
    assert '-' !in v && ' ' !in v;
    SetterTokensOfOwnText(TIMING_ANALYSIS_ARG, v);
    OwnTextAgreement(TIMING_ANALYSIS_ARG, v);
  }

  /** TclArgs_getPackingOptions: `-netlist_lang <name>`. */
  function PackingOptionsText(t: NetlistType): (s: string)
    ensures StartsWith(s, "-" + PACKING_ARG + " ")
  {
    "-" + PACKING_ARG + " " + NetlistName(t)
  }

  /** The netlist type TclArgs_setPackingOptions picks: the type named by the
      flag's value, Verilog when there is none or it is unknown. */
  function NetlistTypeOf(args: string): (t: NetlistType)
    ensures var tokens := Split(SeparateArg(PACKING_ARG, args).0, ' ');
            (|tokens| <= 1 || forall i :: 0 <= i < |NETLIST_TABLE| ==> NETLIST_TABLE[i].1 != tokens[1]) ==>
              t == Verilog
  {
    var tokens := Split(SeparateArg(PACKING_ARG, args).0, ' ');
    if |tokens| > 1 then Lookup(NETLIST_TABLE, tokens[1], Verilog) else Verilog
  }

  /** Setting the packing options from what the getter produced keeps the type. */
  lemma PackingRoundTrip(t: NetlistType)
    ensures NetlistTypeOf(PackingOptionsText(t)) == t
    ensures SeparateArgAsWritten(PACKING_ARG, PackingOptionsText(t)) ==
            SeparateArg(PACKING_ARG, PackingOptionsText(t))
  {
    var v := NetlistName(t);
    assert '-' !in PACKING_ARG && ' ' !in PACKING_ARG;
    NetlistNamesPlain(t);
    SetterTokensOfOwnText(PACKING_ARG, v);
    OwnTextAgreement(PACKING_ARG, v);
    NetlistNamesDistinct();
    LookupFinds(NETLIST_TABLE, NetlistIndex(t), Verilog);
  }

  lemma NetlistNamesPlain(t: NetlistType)
    ensures '-' !in NetlistName(t) && ' ' !in NetlistName(t)
  {
  }

  lemma NetlistNamesDistinct()
    ensures forall a, b :: 0 <= a < b < |NETLIST_TABLE| ==> NETLIST_TABLE[a].1 != NETLIST_TABLE[b].1
  {
  }

  /** The compiler options the task settings read and write. The setters
      split their flag out with the intended `SeparateArg`; on the text the
      getters produce, the code as written takes out the same text (see the
      agreement clauses of the round-trip lemmas), and on other text it
      takes out everything up to the dash at the absolute position it passes
      to `mid` (`SeparateArgLosesFollowingArgs`). */
  class CompilerOptions {
    var synthOpt: SynthesisOpt
    var synthMoreOpt: string
    var pinAssignOpt: PinAssignOpt
    var placeMoreOpt: string
    var staEngine: STAEngineOpt
    var netlistType: NetlistType

    /** TclArgs_getSynthesisOptions: the extra options, then the synthesis
        option's name under its own flag, last. */
    function SynthesisOptions(): (s: string)
      reads this
      ensures StartsWith(s, synthMoreOpt)
      ensures var n := SynthOptToStr(synthOpt); |n| < |s| && SynthStrToOpt(s[|s| - |n|..]) == synthOpt
    {
      var n := SynthOptToStr(synthOpt);
      var s := synthMoreOpt + " " + ("-" + SYNTH_ARG + " " + n);
      assert s[|s| - |n|..] == n;
      SynthOptRoundTrip(synthOpt);
      s
    }

    /** TclArgs_setSynthesisOptions: the value after the synthesis flag sets
        the option when there is one, and the remaining text becomes the
        extra options. */
    method SetSynthesisOptions(args: string)
      modifies this`synthOpt, this`synthMoreOpt
      ensures var sep := SeparateArg(SYNTH_ARG, Trim(args));
              var tokens := Split(sep.0, ' ');
              && synthOpt == (if |tokens| > 1 then SynthStrToOpt(tokens[1]) else old(synthOpt))
              && synthMoreOpt == sep.1
    {
      var sep := SeparateArg(SYNTH_ARG, Trim(args));
      var tokens := Split(sep.0, ' ');
      if |tokens| > 1 {
        synthOpt := SynthStrToOpt(tokens[1]);
      }
      synthMoreOpt := sep.1;
    }

    /** TclArgs_getPlacementOptions: the extra options, then the pin
        assignment option's name under its own flag, last. */
    function PlacementOptions(): (s: string)
      reads this
      ensures StartsWith(s, placeMoreOpt)
      ensures var n := PinOptToStr(pinAssignOpt); |n| < |s| && PinStrToOpt(s[|s| - |n|..]) == pinAssignOpt
    {
      var n := PinOptToStr(pinAssignOpt);
      var s := placeMoreOpt + " " + ("-" + PLACE_ARG + " " + n);
      assert s[|s| - |n|..] == n;
      PinOptRoundTrip(pinAssignOpt);
      s
    }

    /** TclArgs_setPlacementOptions (the text is not trimmed here). */
    method SetPlacementOptions(args: string)
      modifies this`pinAssignOpt, this`placeMoreOpt
      ensures var sep := SeparateArg(PLACE_ARG, args);
              var tokens := Split(sep.0, ' ');
              && pinAssignOpt == (if |tokens| > 1 then PinStrToOpt(tokens[1]) else old(pinAssignOpt))
              && placeMoreOpt == sep.1
    {
      var sep := SeparateArg(PLACE_ARG, args);
      var tokens := Split(sep.0, ' ');
      if |tokens| > 1 {
        pinAssignOpt := PinStrToOpt(tokens[1]);
      }
      placeMoreOpt := sep.1;
    }

    /** TclArgs_getTimingAnalysisOptions. */
    function TimingAnalysisOptions(): (s: string)
      reads this
      ensures staEngine == Opensta <==> s == "-_StaOpt_ opensta"
      ensures staEngine == Tatum <==> s == "-_StaOpt_ tatum"
    {
      TimingOptionsText(staEngine)
    }

    /** TclArgs_setTimingAnalysisOptions: the engine is always written,
        tatum unless `opensta` is given. */
    method SetTimingAnalysisOptions(args: string)
      modifies this`staEngine
      ensures staEngine == TimingEngineOf(args)
    {
      var sep := SeparateArg(TIMING_ANALYSIS_ARG, args);
      var tokens := Split(sep.0, ' ');
      var engine := Tatum;
      if |tokens| > 1 {
        if tokens[1] == "opensta" {
          engine := Opensta;
        }
      }
      staEngine := engine;
    }

    /** TclArgs_getPackingOptions. */
    function PackingOptions(): (s: string)
      reads this
      ensures s == PackingOptionsText(netlistType)
      ensures NetlistTypeOf(s) == netlistType
    {
      PackingRoundTrip(netlistType);
      PackingOptionsText(netlistType)
    }

    /** TclArgs_setPackingOptions: the netlist type is always written,
        Verilog unless a known name is given. */
    method SetPackingOptions(args: string)
      modifies this`netlistType
      ensures netlistType == NetlistTypeOf(args)
    {
      var sep := SeparateArg(PACKING_ARG, args);
      var tokens := Split(sep.0, ' ');
      var t := Verilog;
      if |tokens| > 1 {
        t := Lookup(NETLIST_TABLE, tokens[1], Verilog);
      }
      netlistType := t;
    }
  }

  // ---------------------------------------------------------------------
  // Simulation options
  // ---------------------------------------------------------------------

  datatype SimulationType = RTL | Gate | PNR | BitstreamBackDoor
  datatype SimulatorType = Verilator | Icarus | GHDL | VCS | Questa | Xcelium

  /** The (argument, value) pairs of the walk in TclArgs_setSimulateOptions:
      a token takes the next one as its value unless that one starts with a
      dash, in which case its value is empty. */
  function ArgPairs(tokens: seq<string>): (r: seq<(string, string)>)
    ensures |r| <= |tokens|
    ensures forall p :: p in r ==> p.1 == [] || !StartsWith(p.1, "-")
    decreases |tokens|
  {
    if tokens == [] then []
    else if |tokens| > 1 && !StartsWith(tokens[1], "-") then [(tokens[0], tokens[1])] + ArgPairs(tokens[2..])
    else [(tokens[0], "")] + ArgPairs(tokens[1..])
  }

  /** The tokens the pairs came from. */
  function Flatten(pairs: seq<(string, string)>): seq<string>
  {
    if pairs == [] then []
    else [pairs[0].0] + (if pairs[0].1 == [] then [] else [pairs[0].1]) + Flatten(pairs[1..])
  }

  /** The walk loses no token and invents none. */
  lemma {:induction false} ArgPairsFlatten(tokens: seq<string>)
    requires forall t :: t in tokens ==> t != []
    ensures Flatten(ArgPairs(tokens)) == tokens
    decreases |tokens|
  {
    if tokens != [] {
      if |tokens| > 1 && !StartsWith(tokens[1], "-") {
        assert tokens[1] in tokens;
        assert forall t :: t in tokens[2..] ==> t in tokens;
        ArgPairsFlatten(tokens[2..]);
        assert tokens == [tokens[0]] + [tokens[1]] + tokens[2..];
      } else {
        assert forall t :: t in tokens[1..] ==> t in tokens;
        ArgPairsFlatten(tokens[1..]);
        assert tokens == [tokens[0]] + tokens[1..];
      }
    }
  }

  /** The value of the last pair whose argument is `arg`. */
  function LastValue(pairs: seq<(string, string)>, arg: string): (r: Wrappers.Option<string>)
    ensures r.Some? <==> exists i :: 0 <= i < |pairs| && pairs[i].0 == arg
    ensures r.Some? ==> exists i :: 0 <= i < |pairs| && pairs[i] == (arg, r.value)
  {
    if pairs == [] then Wrappers.None
    else if pairs[|pairs| - 1].0 == arg then Wrappers.Some(pairs[|pairs| - 1].1)
    else
      var r := LastValue(pairs[..|pairs| - 1], arg);
      assert forall i :: 0 <= i < |pairs| - 1 ==> pairs[..|pairs| - 1][i] == pairs[i];
      r
  }

  /** The simulator of the last pair whose argument is `arg` and whose value
      names a simulator. */
  function LastSimulator(pairs: seq<(string, string)>, arg: string, toSimulator: string -> Wrappers.Option<SimulatorType>): (r: Wrappers.Option<SimulatorType>)
    ensures r.Some? ==> exists i :: 0 <= i < |pairs| && pairs[i].0 == arg && toSimulator(pairs[i].1) == r
    ensures r.None? ==> forall i :: 0 <= i < |pairs| && pairs[i].0 == arg ==> toSimulator(pairs[i].1).None?
  {
    if pairs == [] then Wrappers.None
    else if pairs[|pairs| - 1].0 == arg && toSimulator(pairs[|pairs| - 1].1).Some? then toSimulator(pairs[|pairs| - 1].1)
    else
      var r := LastSimulator(pairs[..|pairs| - 1], arg, toSimulator);
      assert forall i :: 0 <= i < |pairs| - 1 ==> pairs[..|pairs| - 1][i] == pairs[i];
      r
  }

  function Override<K, V>(m: map<K, V>, k: K, v: Wrappers.Option<V>): (r: map<K, V>)
    ensures v.None? ==> r == m
    ensures v.Some? ==> r == m[k := v.value]
  {
    if v.Some? then m[k := v.value] else m
  }

  /** One step of the walk: the argument at `i`, its value, and where the
      next argument starts. */
  method NextArg(tokens: seq<string>, i: nat) returns (arg: string, value: string, j: nat)
    requires i < |tokens|
    ensures i < j <= |tokens|
    ensures ArgPairs(tokens[i..]) == [(arg, value)] + ArgPairs(tokens[j..])
  {
    arg := tokens[i];
    value := "";
    ghost var rest := tokens[i..];
    if i + 1 < |tokens| {
      var next := tokens[i + 1];
      if StartsWith(next, "-") {
        j := i + 1;
        assert rest[1..] == tokens[j..];
      } else {
        value := next;
        j := i + 2;
        assert rest[2..] == tokens[j..];
      }
    } else {
      j := i + 1;
      assert rest[1..] == tokens[j..];
    }
  }

  lemma LastValueStep(pairs: seq<(string, string)>, p: (string, string), arg: string)
    ensures LastValue(pairs + [p], arg) == if p.0 == arg then Wrappers.Some(p.1) else LastValue(pairs, arg)
  {
    assert (pairs + [p])[..|pairs|] == pairs;
  }

  lemma LastSimulatorStep(pairs: seq<(string, string)>, p: (string, string), arg: string,
                          toSimulator: string -> Wrappers.Option<SimulatorType>)
    ensures LastSimulator(pairs + [p], arg, toSimulator) ==
              if p.0 == arg && toSimulator(p.1).Some? then toSimulator(p.1) else LastSimulator(pairs, arg, toSimulator)
  {
    assert (pairs + [p])[..|pairs|] == pairs;
  }

  /** The per-simulation-type settings of the simulator that the option
      walk writes. */
  class SimulatorSettings {
    var waveFiles: map<SimulationType, string>
    var userSimulators: map<SimulationType, SimulatorType>

    /** TclArgs_setSimulateOptions: walks the tokens two at a time where a
        value follows, one at a time otherwise; `-<type>_filepath` sets the
        wave file and `-<type>_sim_type` the simulator when its value names
        one. */
    method SetSimulateOptions(simTypeStr: string, simType: SimulationType, args: string,
                              toSimulator: string -> Wrappers.Option<SimulatorType>)
      modifies this
      ensures var pairs := ArgPairs(SplitSkipEmpty(args, ' '));
              && waveFiles == Override(old(waveFiles), simType, LastValue(pairs, "-" + simTypeStr + "_filepath"))
              && userSimulators == Override(old(userSimulators), simType,
                                            LastSimulator(pairs, "-" + simTypeStr + "_sim_type", toSimulator))
    {
      var tokens := SplitSkipEmpty(args, ' ');
      var fileFlag := "-" + simTypeStr + "_filepath";
      var typeFlag := "-" + simTypeStr + "_sim_type";
      ghost var visited: seq<(string, string)> := [];
      var i := 0;
      while i < |tokens|
        invariant 0 <= i <= |tokens|
        invariant visited + ArgPairs(tokens[i..]) == ArgPairs(tokens)
        invariant waveFiles == Override(old(waveFiles), simType, LastValue(visited, fileFlag))
        invariant userSimulators == Override(old(userSimulators), simType, LastSimulator(visited, typeFlag, toSimulator))
      {
        var arg, value, j := NextArg(tokens, i);
        ghost var before := visited;
        visited := before + [(arg, value)];
        AppendAssoc(before, [(arg, value)], ArgPairs(tokens[j..]));
        LastValueStep(before, (arg, value), fileFlag);
        LastSimulatorStep(before, (arg, value), typeFlag, toSimulator);
        ApplyArg(simType, fileFlag, typeFlag, arg, value, toSimulator);
        OverrideTwice(old(waveFiles), simType, LastValue(before, fileFlag),
                      if arg == fileFlag then Wrappers.Some(value) else Wrappers.None);
        OverrideTwice(old(userSimulators), simType, LastSimulator(before, typeFlag, toSimulator),
                      if arg == typeFlag then toSimulator(value) else Wrappers.None);
        i := j;
      }
      assert tokens[i..] == [];
      assert visited == ArgPairs(tokens) by {
        assert visited + [] == visited;
      }
    }

    /** The effect of one argument on the settings of `simType`. */
    method ApplyArg(simType: SimulationType, fileFlag: string, typeFlag: string, arg: string, value: string,
                    toSimulator: string -> Wrappers.Option<SimulatorType>)
      modifies this
      ensures waveFiles == Override(old(waveFiles), simType, if arg == fileFlag then Wrappers.Some(value) else Wrappers.None)
      ensures userSimulators == Override(old(userSimulators), simType, if arg == typeFlag then toSimulator(value) else Wrappers.None)
    {
      if arg == fileFlag {
        waveFiles := waveFiles[simType := value];
      }
      if arg == typeFlag {
        var tool := toSimulator(value);
        if tool.Some? {
          userSimulators := userSimulators[simType := tool.value];
        }
      }
    }
  }

  /** A later override wins over an earlier one. */
  lemma OverrideTwice<K, V>(m: map<K, V>, k: K, a: Wrappers.Option<V>, b: Wrappers.Option<V>)
    ensures Override(Override(m, k, a), k, b) == Override(m, k, if b.Some? then b else a)
  {
    if a.Some? && b.Some? {
      assert m[k := a.value][k := b.value] == m[k := b.value];
    }
  }

  lemma AppendAssoc<T>(a: seq<T>, b: seq<T>, c: seq<T>)
    ensures a + b + c == a + (b + c)
  {
  }
}
