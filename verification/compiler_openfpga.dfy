/** The OpenFPGA back end of the compiler: the incremental-rebuild detector
    used by synthesis, the stage state machine kept in `m_state`, and the
    Yosys script and VPR command builders. File times, file contents and the
    exit status of external tools are inputs. */
module OpenFPGA {
  import opened Wrappers
  import opened Strings

  /** Compiler::State, as far as the OpenFPGA stages set it. */
  datatype State =
    | None | IPGenerated | Synthesized | Packed | GloballyPlaced | Placed | Routed
    | BistreamGenerated

  /** Design::Language: the gate-level netlist formats are named; `Hdl` stands
      for the VHDL, Verilog and SystemVerilog dialects. */
  datatype Language = VerilogNetlist | Blif | Eblif | Hdl

  predicate IsNetlist(lang: Language)
  {
    lang == VerilogNetlist || lang == Blif || lang == Eblif
  }

  /** One entry of the design file list: one or more space-separated paths
      and the language they are compiled as. */
  datatype DesignFile = DesignFile(paths: string, lang: Language)

  /** What the compiler reads from the project manager. */
  datatype Project = Project(
    name: string,
    hasDesign: bool,
    designFiles: seq<DesignFile>,
    includePaths: seq<string>,
    libraryPaths: seq<string>)

  /** BitstreamOpt: `NoBitsOpt` and every other value, `WithBitstream`. */
  datatype BitstreamOpt = NoBitsOpt | WithBitstream

  /** How an external tool behaved: whether its executable was found and the
      exit status it returned (non-zero is a failure). */
  datatype ToolRun = ToolRun(found: bool, status: int)
  {
    predicate Succeeded()
    {
      found && status == 0
    }
  }

  // ---------------------------------------------------------------------
  // Incremental-rebuild detection (DesignChanged)
  // ---------------------------------------------------------------------

  /** The modification time of a file, -1 when it does not exist. */
  function MtimeOf(mtimes: map<string, int>, file: string): (t: int)
    ensures file !in mtimes ==> t == -1
  {
    if file in mtimes then mtimes[file] else -1
  }

  /** The synthesized netlist that decides whether synthesis is up to date. */
  function PostSynthNetlist(name: string): string
  {
    name + "_post_synth.blif"
  }

  /** A token names an input that is newer than the netlist or missing;
      a token that trims to nothing names no file. */
  predicate Outdated(mtimes: map<string, int>, netlistTime: int, token: string)
  {
    var file := Trim(token);
    file != [] && (MtimeOf(mtimes, file) > netlistTime || MtimeOf(mtimes, file) == -1)
  }

  /** Some space-separated token of `entry` is outdated. */
  predicate EntryOutdated(mtimes: map<string, int>, netlistTime: int, entry: string)
  {
    exists j :: 0 <= j < |Split(entry, ' ')| && Outdated(mtimes, netlistTime, Split(entry, ' ')[j])
  }

  predicate AnyOutdated(mtimes: map<string, int>, netlistTime: int, entries: seq<string>)
  {
    exists i :: 0 <= i < |entries| && EntryOutdated(mtimes, netlistTime, entries[i])
  }

  function DesignPaths(files: seq<DesignFile>): (r: seq<string>)
    ensures |r| == |files|
    ensures forall i :: 0 <= i < |files| ==> r[i] == files[i].paths
  {
    seq(|files|, i requires 0 <= i < |files| => files[i].paths)
  }

  /** Synthesis has to run again: the netlist is missing, an input is newer
      or missing, or the saved script is unreadable (`saved` is None) or
      differs from the new one. */
  predicate NeedsResynthesis(p: Project, mtimes: map<string, int>, script: string, saved: Option<string>)
  {
    var t := MtimeOf(mtimes, PostSynthNetlist(p.name));
    t == -1
    || AnyOutdated(mtimes, t, DesignPaths(p.designFiles))
    || AnyOutdated(mtimes, t, p.includePaths)
    || AnyOutdated(mtimes, t, p.libraryPaths)
    || saved.None?
    || saved.value != script
  }

  /** Every file named by the entries exists and is no newer than the netlist. */
  predicate InputsFresh(mtimes: map<string, int>, netlistTime: int, entries: seq<string>)
  {
    forall entry, token :: entry in entries && token in Split(entry, ' ') && Trim(token) != [] ==>
      MtimeOf(mtimes, Trim(token)) != -1 && MtimeOf(mtimes, Trim(token)) <= netlistTime
  }

  /** The token scan finds nothing exactly when every named input is fresh. */
  lemma NotOutdatedIffFresh(mtimes: map<string, int>, netlistTime: int, entries: seq<string>)
    ensures !AnyOutdated(mtimes, netlistTime, entries) <==> InputsFresh(mtimes, netlistTime, entries)
  {
    if AnyOutdated(mtimes, netlistTime, entries) {
      var i :| 0 <= i < |entries| && EntryOutdated(mtimes, netlistTime, entries[i]);
      var j :| 0 <= j < |Split(entries[i], ' ')| && Outdated(mtimes, netlistTime, Split(entries[i], ' ')[j]);
      assert entries[i] in entries;
      assert Split(entries[i], ' ')[j] in Split(entries[i], ' ');
    } else {
      forall entry, token | entry in entries && token in Split(entry, ' ') && Trim(token) != []
        ensures MtimeOf(mtimes, Trim(token)) != -1 && MtimeOf(mtimes, Trim(token)) <= netlistTime
      {
        var i :| 0 <= i < |entries| && entries[i] == entry;
        var j :| 0 <= j < |Split(entry, ' ')| && Split(entry, ' ')[j] == token;
        assert !EntryOutdated(mtimes, netlistTime, entries[i]);
      }
    }
  }

  /** Synthesis may be skipped exactly when the netlist exists, every named
      input exists and is no newer than it, and the saved script is the new one. */
  lemma UpToDateIff(p: Project, mtimes: map<string, int>, script: string, saved: Option<string>)
    ensures !NeedsResynthesis(p, mtimes, script, saved) <==>
      var t := MtimeOf(mtimes, PostSynthNetlist(p.name));
      && t != -1
      && InputsFresh(mtimes, t, DesignPaths(p.designFiles))
      && InputsFresh(mtimes, t, p.includePaths)
      && InputsFresh(mtimes, t, p.libraryPaths)
      && saved == Some(script)
  {
    var t := MtimeOf(mtimes, PostSynthNetlist(p.name));
    NotOutdatedIffFresh(mtimes, t, DesignPaths(p.designFiles));
    NotOutdatedIffFresh(mtimes, t, p.includePaths);
    NotOutdatedIffFresh(mtimes, t, p.libraryPaths);
  }

  /** A missing netlist always forces synthesis. */
  lemma MissingNetlistForcesSynthesis(p: Project, mtimes: map<string, int>, script: string, saved: Option<string>)
    requires PostSynthNetlist(p.name) !in mtimes
    ensures NeedsResynthesis(p, mtimes, script, saved)
  {
  }

  // ---------------------------------------------------------------------
  // The stage state machine
  // ---------------------------------------------------------------------

  /** The stages whose entry checks read `m_state`. */
  datatype Stage = PackStage | GlobalPlaceStage | PlaceStage | RouteStage | BitstreamStage(opt: BitstreamOpt)

  /** The states a stage accepts. */
  predicate Admits(stage: Stage, s: State)
  {
    match stage
    case PackStage => true
    case GlobalPlaceStage => s == Packed || s == GloballyPlaced || s == Placed
    case PlaceStage => s == Packed || s == GloballyPlaced || s == Placed
    case RouteStage => s == Placed
    case BitstreamStage(opt) => opt == WithBitstream || s == Routed
  }

  /** Whether the stage runs an external tool. */
  predicate NeedsTool(stage: Stage)
  {
    !(stage == GlobalPlaceStage || stage == BitstreamStage(NoBitsOpt))
  }

  /** The state a successful stage leaves. */
  function Reached(stage: Stage, s: State): State
  {
    match stage
    case PackStage => Packed
    case GlobalPlaceStage => GloballyPlaced
    case PlaceStage => Placed
    case RouteStage => Routed
    case BitstreamStage(opt) => if opt == NoBitsOpt then s else BistreamGenerated
  }

  datatype Outcome = Outcome(ok: bool, state: State)

  /** The transition table of the back-end stages: a stage succeeds when
      there is a design, the state admits it and its tool, if any, succeeds;
      a failing stage leaves the state alone. */
  function Step(stage: Stage, s: State, hasDesign: bool, tool: ToolRun): (o: Outcome)
    ensures !o.ok ==> o.state == s
    ensures o.ok ==> hasDesign && Admits(stage, s)
    ensures o.ok && NeedsTool(stage) ==> tool.Succeeded()
  {
    if hasDesign && Admits(stage, s) && (!NeedsTool(stage) || tool.Succeeded())
    then Outcome(true, Reached(stage, s))
    else Outcome(false, s)
  }

  /** With working tools, a packed design goes through global placement,
      placement and routing, after which a run without bitstream generation
      succeeds and keeps the routed state. */
  lemma BackEndFromPacked(tool: ToolRun)
    requires tool.Succeeded()
    ensures Step(GlobalPlaceStage, Packed, true, tool) == Outcome(true, GloballyPlaced)
    ensures Step(PlaceStage, GloballyPlaced, true, tool) == Outcome(true, Placed)
    ensures Step(RouteStage, Placed, true, tool) == Outcome(true, Routed)
    ensures Step(BitstreamStage(NoBitsOpt), Routed, true, tool) == Outcome(true, Routed)
  {
  }

  /** Routing starts only from a placed design. */
  lemma RouteNeedsPlacement(s: State, hasDesign: bool, tool: ToolRun)
    ensures Step(RouteStage, s, hasDesign, tool).ok <==> hasDesign && s == Placed && tool.Succeeded()
  {
  }

  /** Without bitstream generation the stage only checks for a routed design. */
  lemma NoBitsOptNeedsRoute(s: State, hasDesign: bool, tool: ToolRun)
    ensures Step(BitstreamStage(NoBitsOpt), s, hasDesign, tool) == Outcome(hasDesign && s == Routed, s)
  {
  }

  /** The placement stages are refused, whatever the tools do, before packing. */
  lemma PlacementNeedsPacking(s: State, hasDesign: bool, tool: ToolRun)
    requires s == State.None || s == IPGenerated || s == Synthesized || s == Routed || s == BistreamGenerated
    ensures Step(GlobalPlaceStage, s, hasDesign, tool) == Outcome(false, s)
    ensures Step(PlaceStage, s, hasDesign, tool) == Outcome(false, s)
  {
  }

  // ---------------------------------------------------------------------
  // Script and command builders
  // ---------------------------------------------------------------------

  const KEEP_ALL: string := "setattr -set keep 1 w:\\*\n"

  function KeepLine(name: string): string
  {
    "setattr -set keep 1 " + name + "\n"
  }

  /** The keep directives: one for all signals when asked, then one line per
      constraint keep name, in order. */
  function KeepLines(keepAll: bool, names: seq<string>): string
  {
    if names == [] then (if keepAll then KEEP_ALL else "")
    else KeepLines(keepAll, names[..|names| - 1]) + KeepLine(names[|names| - 1])
  }

  /** Every keep name has its own directive line in the keep block. */
  lemma {:induction false} KeepLinesHasEveryName(keepAll: bool, names: seq<string>, k: nat)
    requires k < |names|
    ensures exists p :: OccursAt(KeepLines(keepAll, names), KeepLine(names[k]), p)
    decreases |names|
  {
    var init := names[..|names| - 1];
    var prefix := KeepLines(keepAll, init);
    var line := KeepLine(names[|names| - 1]);
    if k == |names| - 1 {
      assert (prefix + line)[|prefix|..|prefix| + |line|] == line;
      assert OccursAt(KeepLines(keepAll, names), KeepLine(names[k]), |prefix|);
    } else {
      assert init[k] == names[k];
      KeepLinesHasEveryName(keepAll, init, k);
      var p :| OccursAt(prefix, KeepLine(names[k]), p);
      assert (prefix + line)[p..p + |KeepLine(names[k])|] == prefix[p..p + |KeepLine(names[k])|];
      assert OccursAt(KeepLines(keepAll, names), KeepLine(names[k]), p);
    }
  }

  /** The synthesis script with its three remaining placeholders filled in. */
  function FinishedScript(script: string, keepAll: bool, names: seq<string>, lutSize: int): string
  {
    var s1 := ReplaceAll(script, "${KEEP_NAMES}", KeepLines(keepAll, names));
    var s2 := ReplaceAll(s1, "${OPTIMIZATION}", "");
    ReplaceAll(s2, "${LUT_SIZE}", IntToString(lutSize))
  }

  /** A script that holds none of the placeholders is left as it is. */
  lemma FinishedScriptWithoutPlaceholders(script: string, keepAll: bool, names: seq<string>, lutSize: int)
    requires forall k :: !OccursAt(script, "${KEEP_NAMES}", k)
    requires forall k :: !OccursAt(script, "${OPTIMIZATION}", k)
    requires forall k :: !OccursAt(script, "${LUT_SIZE}", k)
    ensures FinishedScript(script, keepAll, names, lutSize) == script
  {
    ReplaceAllAbsent(script, "${KEEP_NAMES}", KeepLines(keepAll, names));
    ReplaceAllAbsent(script, "${OPTIMIZATION}", "");
    ReplaceAllAbsent(script, "${LUT_SIZE}", IntToString(lutSize));
  }

  /** `..`-relative form of a path that is not absolute: VPR runs inside the
      project directory. */
  function FromProjectDir(path: string): string
  {
    if |path| > 0 && path[0] == '/' then path else "../" + path
  }

  /** The netlist handed to VPR: the last gate-level design file, or else the
      synthesized netlist. */
  function NetlistFile(name: string, files: seq<DesignFile>): (r: string)
  {
    if files == [] then PostSynthNetlist(name)
    else if IsNetlist(files[|files| - 1].lang) then FromProjectDir(files[|files| - 1].paths)
    else NetlistFile(name, files[..|files| - 1])
  }

  /** NetlistFile picks the last netlist entry, or the synthesized netlist when
      the design has none. */
  lemma {:induction false} NetlistFileIsLastNetlist(name: string, files: seq<DesignFile>)
    ensures (forall i :: 0 <= i < |files| ==> !IsNetlist(files[i].lang)) ==>
              NetlistFile(name, files) == PostSynthNetlist(name)
    ensures forall k :: (0 <= k < |files| && IsNetlist(files[k].lang)
                         && (forall i :: k < i < |files| ==> !IsNetlist(files[i].lang))) ==>
              NetlistFile(name, files) == FromProjectDir(files[k].paths)
    decreases |files|
  {
    if files != [] {
      var init := files[..|files| - 1];
      NetlistFileIsLastNetlist(name, init);
      assert forall i :: 0 <= i < |init| ==> init[i] == files[i];
    }
  }

  /** The VPR command all back-end stages extend: the tool, the
      architecture, the netlist, the SDC file and the channel width, then
      ` --device <size>` when a device size is set, then the extra P&R
      options after a space when there are any. */
  function VprCommand(vpr: string, arch: string, netlist: string, name: string, channelWidth: int,
                      deviceSize: string, pnrOpt: string): string
  {
    vpr + " " + arch + " " + netlist + " --sdc_file " + name + "_openfpga.sdc"
    + " --route_chan_width " + IntToString(channelWidth)
    + (if deviceSize == [] then "" else " --device " + deviceSize)
    + (if pnrOpt == [] then "" else " " + pnrOpt)
  }

  /** Where the options land: the command without them ends with the
      channel width; a device size adds ` --device <size>` right after it,
      and extra P&R options follow last, after one space. An empty size or
      empty options add nothing. */
  lemma VprCommandOptions(vpr: string, arch: string, netlist: string, name: string, channelWidth: int,
                          deviceSize: string, pnrOpt: string)
    ensures var bare := VprCommand(vpr, arch, netlist, name, channelWidth, "", "");
            var width := " --route_chan_width " + IntToString(channelWidth);
            var cmd := VprCommand(vpr, arch, netlist, name, channelWidth, deviceSize, pnrOpt);
            && |width| <= |bare| && bare[|bare| - |width|..] == width
            && (deviceSize == [] && pnrOpt == [] ==> cmd == bare)
            && (deviceSize != [] && pnrOpt == [] ==> cmd == bare + " --device " + deviceSize)
            && (deviceSize == [] && pnrOpt != [] ==> cmd == bare + " " + pnrOpt)
            && (deviceSize != [] && pnrOpt != [] ==> cmd == bare + " --device " + deviceSize + " " + pnrOpt)
  {
    var hw := vpr + " " + arch + " " + netlist + " --sdc_file " + name + "_openfpga.sdc"
              + " --route_chan_width " + IntToString(channelWidth);
    var width := " --route_chan_width " + IntToString(channelWidth);
    assert VprCommand(vpr, arch, netlist, name, channelWidth, "", "") == hw + "" + "" == hw;
    var dev := if deviceSize == [] then "" else " --device " + deviceSize;
    var opt := if pnrOpt == [] then "" else " " + pnrOpt;
    assert VprCommand(vpr, arch, netlist, name, channelWidth, deviceSize, pnrOpt) == hw + dev + opt;
    assert hw[|hw| - |width|..] == width;
    assert hw + dev + "" == hw + dev;
    assert hw + "" + opt == hw + opt;
    if deviceSize != [] && pnrOpt != [] {
      assert hw + dev + opt == hw + " --device " + deviceSize + " " + pnrOpt;
    }
  }

  /** The compiler state the OpenFPGA stages read and write. */
  class CompilerOpenFPGA {
    var state: State
    var project: Project
    var yosysPath: string
    var openFpgaPath: string
    var vprPath: string
    var architectureFile: string
    var deviceSize: string
    var keepAllSignals: bool
    /** The keep names of the constraint set. */
    var keepNames: seq<string>
    var lutSize: int
    var channelWidth: int
    var pnrOpt: string
    var bitsOpt: BitstreamOpt

    constructor(project: Project, lutSize: int, channelWidth: int)
      ensures this.project == project && this.lutSize == lutSize && this.channelWidth == channelWidth
      ensures state == State.None && bitsOpt == NoBitsOpt
      ensures yosysPath == "yosys" && openFpgaPath == "openfpga.sh" && vprPath == "vpr"
      ensures architectureFile == "tests/Arch/k6_frac_N10_tileable_40nm.xml"
      ensures deviceSize == "" && !keepAllSignals && keepNames == [] && pnrOpt == ""
    {
      this.project := project;
      this.lutSize := lutSize;
      this.channelWidth := channelWidth;
      state := State.None;
      bitsOpt := NoBitsOpt;
      yosysPath := "yosys";
      openFpgaPath := "openfpga.sh";
      vprPath := "vpr";
      architectureFile := "tests/Arch/k6_frac_N10_tileable_40nm.xml";
      deviceSize := "";
      keepAllSignals := false;
      keepNames := [];
      pnrOpt := "";
    }

    /** Scans the space-separated tokens of one entry for an input that is
        newer than the netlist or missing, stopping at the first one. */
    method ScanEntry(entry: string, mtimes: map<string, int>, netlistTime: int) returns (hit: bool)
      ensures hit == EntryOutdated(mtimes, netlistTime, entry)
    {
      var tokens := Split(entry, ' ');
      var j := 0;
      while j < |tokens|
        invariant 0 <= j <= |tokens|
        invariant forall k :: 0 <= k < j ==> !Outdated(mtimes, netlistTime, tokens[k])
      {
        var file := Trim(tokens[j]);
        if |file| > 0 {
          var tf := MtimeOf(mtimes, file);
          if tf > netlistTime || tf == -1 {
            assert Outdated(mtimes, netlistTime, tokens[j]);
            return true;
          }
        }
        j := j + 1;
      }
      return false;
    }

    /** Scans every entry; the outcome is whether any of them names an
        input that is newer than the netlist or missing. */
    method ScanInputs(entries: seq<string>, mtimes: map<string, int>, netlistTime: int) returns (found: bool)
      ensures found == AnyOutdated(mtimes, netlistTime, entries)
    {
      found := false;
      for i := 0 to |entries|
        invariant found == exists k :: 0 <= k < i && EntryOutdated(mtimes, netlistTime, entries[k])
      {
        var hit := ScanEntry(entries[i], mtimes, netlistTime);
        if hit {
          found := true;
        }
      }
    }

    /** DesignChanged: whether synthesis has to run again for `script`, given
        the file times and the script saved by the previous run. */
    method DesignChanged(script: string, saved: Option<string>, mtimes: map<string, int>) returns (changed: bool)
      ensures changed == NeedsResynthesis(project, mtimes, script, saved)
    {
      changed := false;
      var netlistTime := MtimeOf(mtimes, PostSynthNetlist(project.name));
      if netlistTime == -1 {
        changed := true;
      }
      var designOld := ScanInputs(DesignPaths(project.designFiles), mtimes, netlistTime);
      var includeOld := ScanInputs(project.includePaths, mtimes, netlistTime);
      var libraryOld := ScanInputs(project.libraryPaths, mtimes, netlistTime);
      if designOld || includeOld || libraryOld {
        changed := true;
      }
      if saved.None? || saved.value != script {
        changed := true;
      }
    }

    /** FinishSynthesisScript: collects the keep directives and fills in the
        keep, optimization and LUT size placeholders. */
    method FinishSynthesisScript(script: string) returns (result: string)
      ensures result == FinishedScript(script, keepAllSignals, keepNames, lutSize)
    {
      var keeps := "";
      if keepAllSignals {
        keeps := keeps + KEEP_ALL;
      }
      for i := 0 to |keepNames|
        invariant keeps == KeepLines(keepAllSignals, keepNames[..i])
      {
        assert keepNames[..i + 1][..i] == keepNames[..i];
        keeps := keeps + KeepLine(keepNames[i]);
      }
      assert keepNames[..|keepNames|] == keepNames;
      result := ReplaceAll(script, "${KEEP_NAMES}", keeps);
      result := ReplaceAll(result, "${OPTIMIZATION}", "");
      result := ReplaceAll(result, "${LUT_SIZE}", IntToString(lutSize));
    }

    /** BaseVprCommand: the VPR invocation on the netlist chosen from the
        design files. */
    method BaseVprCommand() returns (command: string)
      ensures command == VprCommand(vprPath, architectureFile, NetlistFile(project.name, project.designFiles),
                                    project.name, channelWidth, deviceSize, pnrOpt)
    {
      var deviceOption := "";
      if deviceSize != [] {
        deviceOption := " --device " + deviceSize;
      }
      var files := project.designFiles;
      var netlist := PostSynthNetlist(project.name);
      for i := 0 to |files|
        invariant netlist == NetlistFile(project.name, files[..i])
      {
        assert files[..i + 1][..i] == files[..i];
        if IsNetlist(files[i].lang) {
          netlist := files[i].paths;
          if !(|netlist| > 0 && netlist[0] == '/') {
            netlist := "../" + netlist;
          }
        }
      }
      assert files[..|files|] == files;
      var pnrOptions := "";
      if pnrOpt != [] {
        pnrOptions := " " + pnrOpt;
      }
      command := vprPath + " " + architectureFile + " " + netlist + " --sdc_file " + project.name + "_openfpga.sdc"
        + " --route_chan_width " + IntToString(channelWidth) + deviceOption + pnrOptions;
    }

    /** IPGenerate: records the IP generation once a design exists or was
        created (`created` is the outcome of CreateDesign). */
    method IPGenerate(created: bool) returns (ok: bool)
      modifies this`state
      ensures ok == (project.hasDesign || created)
      ensures state == if ok then IPGenerated else old(state)
    {
      if !project.hasDesign && !created {
        return false;
      }
      state := IPGenerated;
      return true;
    }

    /** Synthesize: skipped with success for a gate-level design or an
        up-to-date netlist; otherwise Yosys runs on the finished script.
        `rawScript` is the Yosys script after its template substitutions. */
    method Synthesize(created: bool, rawScript: string, saved: Option<string>, mtimes: map<string, int>,
                      yosys: ToolRun) returns (ok: bool)
      modifies this`state
      ensures !project.hasDesign && !created ==> !ok && state == old(state)
      ensures ((project.hasDesign || created) && exists i :: 0 <= i < |project.designFiles| && IsNetlist(project.designFiles[i].lang))
                ==> ok && state == old(state)
      ensures ((project.hasDesign || created) && forall i :: 0 <= i < |project.designFiles| ==> !IsNetlist(project.designFiles[i].lang))
                ==> var script := FinishedScript(rawScript, keepAllSignals, keepNames, lutSize);
                    if !NeedsResynthesis(project, mtimes, script, saved) then ok && state == old(state)
                    else ok == yosys.Succeeded() && state == (if ok then Synthesized else old(state))
    {
      if !project.hasDesign && !created {
        return false;
      }
      for i := 0 to |project.designFiles|
        invariant forall k :: 0 <= k < i ==> !IsNetlist(project.designFiles[k].lang)
      {
        if IsNetlist(project.designFiles[i].lang) {
          return true;
        }
      }
      var script := FinishSynthesisScript(rawScript);
      var changed := DesignChanged(script, saved, mtimes);
      if !changed {
        return true;
      }
      if !yosys.found {
        return false;
      }
      if yosys.status != 0 {
        return false;
      }
      state := Synthesized;
      return true;
    }

    /** Packing: runs VPR with --pack; no entry state is required. */
    method Packing(vpr: ToolRun) returns (ok: bool)
      modifies this`state
      ensures Outcome(ok, state) == Step(PackStage, old(state), project.hasDesign, vpr)
    {
      if !project.hasDesign {
        return false;
      }
      if !vpr.found {
        return false;
      }
      if vpr.status != 0 {
        return false;
      }
      state := Packed;
      return true;
    }

    /** GlobalPlacement: accepted after packing or placement; no tool runs. */
    method GlobalPlacement() returns (ok: bool)
      modifies this`state
      ensures Outcome(ok, state) == Step(GlobalPlaceStage, old(state), project.hasDesign, ToolRun(false, 0))
      ensures ok <==> project.hasDesign && old(state) in {Packed, GloballyPlaced, Placed}
    {
      if !project.hasDesign {
        return false;
      }
      if state != Packed && state != GloballyPlaced && state != Placed {
        return false;
      }
      state := GloballyPlaced;
      return true;
    }

    /** Placement: accepted after packing or placement; runs VPR with --place. */
    method Placement(vpr: ToolRun) returns (ok: bool)
      modifies this`state
      ensures Outcome(ok, state) == Step(PlaceStage, old(state), project.hasDesign, vpr)
    {
      if !project.hasDesign {
        return false;
      }
      if state != Packed && state != GloballyPlaced && state != Placed {
        return false;
      }
      if !vpr.found {
        return false;
      }
      if vpr.status != 0 {
        return false;
      }
      state := Placed;
      return true;
    }

    /** Route: accepted only for a placed design; runs VPR with --route. */
    method Route(vpr: ToolRun) returns (ok: bool)
      modifies this`state
      ensures Outcome(ok, state) == Step(RouteStage, old(state), project.hasDesign, vpr)
    {
      if !project.hasDesign {
        return false;
      }
      if state != Placed {
        return false;
      }
      if !vpr.found {
        return false;
      }
      if vpr.status != 0 {
        return false;
      }
      state := Routed;
      return true;
    }

    /** GenerateBitstream: without bitstream generation it only checks for a
        routed design; otherwise it runs OpenFPGA from any state. */
    method GenerateBitstream(openFpga: ToolRun) returns (ok: bool)
      modifies this`state
      ensures Outcome(ok, state) == Step(BitstreamStage(bitsOpt), old(state), project.hasDesign, openFpga)
    {
      if !project.hasDesign {
        return false;
      }
      if bitsOpt == NoBitsOpt {
        if state != Routed {
          return false;
        }
      }
      if bitsOpt == NoBitsOpt {
        return true;
      }
      if !openFpga.found {
        return false;
      }
      if openFpga.status != 0 {
        return false;
      }
      state := BistreamGenerated;
      return true;
    }
  }
}
