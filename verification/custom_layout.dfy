/** Custom device layouts: the resource counts derived from the requested
    size and BRAM/DSP columns, and the expansion of a layout template into
    the device layout text. */
module CustomLayout {
  import opened Wrappers
  import opened Strings

  /** What the user asks for: a name, a size and the start columns of the
      BRAM and DSP blocks, comma-separated. */
  datatype CustomLayoutData = CustomLayoutData(name: string, width: int, height: int, bram: string, dsp: string)

  const DSP_BRAM_SEP: char := ','

  /** The columns listed in one of the comma-separated inputs, empty parts skipped. */
  function Columns(input: string): seq<string>
  {
    SplitSkipEmpty(input, DSP_BRAM_SEP)
  }

  /** C++ integer division, which truncates toward zero. */
  function TruncDiv(a: int, b: int): (q: int)
    requires b > 0
    ensures a >= 0 ==> q >= 0 && q * b <= a < q * b + b
    ensures a < 0 ==> q <= 0 && a <= q * b < a + b
  {
    if a >= 0 then DivBounds(a, b); a / b
    else DivBounds(-a, b); -((-a) / b)
  }

  /** Euclidean division of a non-negative number brackets it between
      consecutive multiples. */
  lemma DivBounds(n: int, b: int)
    requires n >= 0 && b > 0
    ensures n / b >= 0 && (n / b) * b <= n < (n / b) * b + b
  {
    assert n == (n / b) * b + n % b;
  }

  // ---------------------------------------------------------------------
  // CustomDeviceResources
  // ---------------------------------------------------------------------

  /** The numbers the resource counts are computed from. `bramConst` and
      `dspConst` are the heights, in tiles, of one BRAM and one DSP block. */
  datatype CustomDeviceResources = CustomDeviceResources(
    width: int, height: int, bramColumnCount: nat, dspColumnCount: nat,
    bramConst: int, dspConst: int)

  /** The constructor: the column counts are the numbers of non-empty
      comma-separated parts of the inputs. */
  function Resources(data: CustomLayoutData, bramConst: int, dspConst: int): (r: CustomDeviceResources)
    requires bramConst > 0 && dspConst > 0
    ensures r.width == data.width && r.height == data.height
    ensures r.bramColumnCount == |Columns(data.bram)| && r.dspColumnCount == |Columns(data.dsp)|
    ensures r.bramConst > 0 && r.dspConst > 0
  {
    CustomDeviceResources(data.width, data.height, |Columns(data.bram)|, |Columns(data.dsp)|, bramConst, dspConst)
  }

  predicate WellFormed(r: CustomDeviceResources)
  {
    r.bramConst > 0 && r.dspConst > 0
  }

  function LutsCount(r: CustomDeviceResources): int
  {
    (r.width - 2 - r.dspColumnCount - r.bramColumnCount) * (r.height - 2) * 8
  }

  function FfsCount(r: CustomDeviceResources): int
  {
    LutsCount(r) * 2
  }

  function BramCount(r: CustomDeviceResources): int
    requires WellFormed(r)
  {
    r.bramColumnCount * TruncDiv(r.height - 2, r.bramConst)
  }

  function DspCount(r: CustomDeviceResources): int
    requires WellFormed(r)
  {
    r.dspColumnCount * TruncDiv(r.height - 2, r.dspConst)
  }

  function CarryLengthCount(r: CustomDeviceResources): int
  {
    (r.height - 2) * 8
  }

  /** isHeightValid. A remainder is zero under truncating and Euclidean
      division alike, so `%` needs no adjustment here. */
  predicate IsHeightValid(r: CustomDeviceResources)
  {
    if (r.bramColumnCount != 0 || r.dspColumnCount != 0) && (r.height < 2 || (r.height - 2) % 3 != 0) then false
    else r.height > 2
  }

  predicate IsValid(r: CustomDeviceResources)
    requires WellFormed(r)
  {
    IsHeightValid(r) && LutsCount(r) > 0 && FfsCount(r) > 0
    && DspCount(r) >= 0 && BramCount(r) >= 0 && CarryLengthCount(r) >= 0
  }

  /** The height is valid when it leaves room inside the border, and, once
      any BRAM or DSP column is requested, the inner height is a multiple of three. */
  lemma IsHeightValidIff(r: CustomDeviceResources)
    ensures IsHeightValid(r) <==>
      r.height > 2 && ((r.bramColumnCount == 0 && r.dspColumnCount == 0) || (r.height - 2) % 3 == 0)
  {
  }

  lemma PositiveProduct(a: int, b: int)
    requires b > 0
    ensures a * b * 8 > 0 <==> a > 0
  {
    if a > 0 {
      assert a * b >= b;
    } else {
      assert a * b <= 0;
    }
  }

  /** A layout is valid exactly when its height is valid and the logic
      columns left after the border, DSP and BRAM columns are not used up;
      the block and carry counts are then never negative. */
  lemma IsValidIff(r: CustomDeviceResources)
    requires WellFormed(r)
    ensures IsValid(r) <==> IsHeightValid(r) && r.width - 2 - r.dspColumnCount - r.bramColumnCount > 0
    ensures IsValid(r) ==> r.height > 2 && LutsCount(r) > 0 && FfsCount(r) == 2 * LutsCount(r) > 0
    ensures IsValid(r) ==> BramCount(r) == r.bramColumnCount * ((r.height - 2) / r.bramConst)
    ensures IsValid(r) ==> DspCount(r) == r.dspColumnCount * ((r.height - 2) / r.dspConst)
  {
    if IsHeightValid(r) {
      var logic := r.width - 2 - r.dspColumnCount - r.bramColumnCount;
      PositiveProduct(logic, r.height - 2);
      var b := TruncDiv(r.height - 2, r.bramConst);
      var d := TruncDiv(r.height - 2, r.dspConst);
      assert r.bramColumnCount * b >= 0;
      assert r.dspColumnCount * d >= 0;
    }
  }

  /** With a height below the border every block count is zero or negative:
      truncation rounds the negative inner height toward zero. */
  lemma ShortDeviceHasNoBlocks(r: CustomDeviceResources)
    requires WellFormed(r)
    requires r.height <= 2
    ensures BramCount(r) <= 0 && DspCount(r) <= 0 && CarryLengthCount(r) <= 0
    ensures !IsValid(r)
  {
    var b := TruncDiv(r.height - 2, r.bramConst);
    var d := TruncDiv(r.height - 2, r.dspConst);
    assert r.bramColumnCount * b <= 0;
    assert r.dspColumnCount * d <= 0;
  }

  /** The column counts are the numbers of columns listed: joining column
      names that hold no comma and are not empty counts each of them once. */
  lemma ColumnCountOfList(cols: seq<string>)
    requires |cols| >= 1
    requires forall c :: c in cols ==> c != [] && DSP_BRAM_SEP !in c
    ensures Columns(Join(cols, DSP_BRAM_SEP)) == cols
  {
    SplitJoin(cols, DSP_BRAM_SEP);
    NonEmptyKeeps(cols);
  }

  // ---------------------------------------------------------------------
  // Template expansion (generateCustomLayout and its buildLines lambda)
  // ---------------------------------------------------------------------

  const CORRUPTED: string := "Template file is corrupted"

  /** The part of a template line after its first ':' cut just after the
      first "/>"; None when the line has no ':'. */
  function TemplateLine(line: string): Option<string>
  {
    var separated := Split(line, ':');
    if |separated| < 2 then None
    else
      var t := separated[1];
      Some(Mid(t, 0, IndexOf(t, "/>", 0) + 2))
  }

  /** The cut ends with the first "/>" of the text. */
  lemma CutAtFirstClose(t: string, k: nat)
    requires OccursAt(t, "/>", k)
    requires forall j :: 0 <= j < k ==> !OccursAt(t, "/>", j)
    ensures Mid(t, 0, IndexOf(t, "/>", 0) + 2) == t[..k + 2]
  {
    var i := IndexOf(t, "/>", 0);
    assert i != -1 && i <= k;
  }

  /** Without a "/>" only the first character survives the cut, because the
      length passed is -1 + 2. */
  lemma CutWithoutClose(t: string)
    requires forall k :: !OccursAt(t, "/>", k)
    requires |t| >= 1
    ensures Mid(t, 0, IndexOf(t, "/>", 0) + 2) == t[..1]
  {
  }

  /** One layout line per column, the column substituted for ${STARTX}. */
  function ColumnLines(templateLine: string, columns: seq<string>): (r: seq<string>)
    ensures |r| == |columns|
    ensures forall i :: 0 <= i < |columns| ==> r[i] == ReplaceAll(templateLine, "${STARTX}", columns[i]) + "\n"
  {
    seq(|columns|, i requires 0 <= i < |columns| => ReplaceAll(templateLine, "${STARTX}", columns[i]) + "\n")
  }

  /** buildLines: appends one line per listed column to the layout, or fails
      on a template line without ':' and appends nothing. */
  method BuildLines(line: string, userInput: string, layout: seq<string>)
    returns (ok: bool, message: string, layout': seq<string>)
    ensures TemplateLine(line).None? ==> !ok && message == CORRUPTED && layout' == layout
    ensures TemplateLine(line).Some? ==>
      ok && message == "" && layout' == layout + ColumnLines(TemplateLine(line).value, Columns(userInput))
  {
    var separated := Split(line, ':');
    if |separated| < 2 {
      return false, CORRUPTED, layout;
    }
    var templateLine := separated[1];
    templateLine := Mid(templateLine, 0, IndexOf(templateLine, "/>", 0) + 2);
    var columns := SplitSkipEmpty(userInput, DSP_BRAM_SEP);
    layout' := layout;
    for i := 0 to |columns|
      invariant layout' == layout + ColumnLines(templateLine, columns[..i])
    {
      var newLine := ReplaceAll(templateLine, "${STARTX}", columns[i]);
      layout' := layout' + [newLine + "\n"];
    }
    assert columns[..|columns|] == columns;
    return true, "", layout';
  }

  /** A line naming the device gets its name, width and height filled in. */
  function Personalized(line: string, data: CustomLayoutData): string
  {
    if Contains(line, "${NAME}") then
      var named := ReplaceAll(line, "${NAME}", data.name);
      var sized := ReplaceAll(named, "${WIDTH}", IntToString(data.width));
      ReplaceAll(sized, "${HEIGHT}", IntToString(data.height))
    else line
  }

  /** The layout lines one template line contributes. */
  function ExpandLine(line: string, data: CustomLayoutData): Result<seq<string>>
  {
    var l := Personalized(line, data);
    if Contains(l, "template_bram") then
      (if TemplateLine(l).None? then Err(CORRUPTED) else Ok(ColumnLines(TemplateLine(l).value, Columns(data.bram))))
    else if Contains(l, "template_dsp") then
      (if TemplateLine(l).None? then Err(CORRUPTED) else Ok(ColumnLines(TemplateLine(l).value, Columns(data.dsp))))
    else Ok([l])
  }

  /** The layout lines of a whole template, or the first error. */
  function LayoutLines(lines: seq<string>, data: CustomLayoutData): Result<seq<string>>
  {
    if lines == [] then Ok([])
    else
      var prev := LayoutLines(lines[..|lines| - 1], data);
      var last := ExpandLine(lines[|lines| - 1], data);
      if prev.Err? then prev
      else if last.Err? then last
      else Ok(prev.value + last.value)
  }

  /** QStringList::join("") */
  function Concat(parts: seq<string>): string
  {
    if parts == [] then "" else Concat(parts[..|parts| - 1]) + parts[|parts| - 1]
  }

  /** A template with no name, BRAM or DSP marker is copied line for line. */
  lemma {:induction false} PlainTemplateIsCopied(lines: seq<string>, data: CustomLayoutData)
    requires forall l :: l in lines ==> !Contains(l, "${NAME}") && !Contains(l, "template_bram") && !Contains(l, "template_dsp")
    ensures LayoutLines(lines, data) == Ok(lines)
  {
    if lines != [] {
      assert forall l :: l in lines[..|lines| - 1] ==> l in lines;
      PlainTemplateIsCopied(lines[..|lines| - 1], data);
      assert lines[|lines| - 1] in lines;
      assert lines == lines[..|lines| - 1] + [lines[|lines| - 1]];
    }
  }

  /** A BRAM marker line expands to exactly one line per listed BRAM column. */
  lemma BramLineExpansion(line: string, data: CustomLayoutData)
    requires !Contains(line, "${NAME}") && Contains(line, "template_bram")
    ensures TemplateLine(line).None? ==> ExpandLine(line, data) == Err(CORRUPTED)
    ensures TemplateLine(line).Some? ==> ExpandLine(line, data).Ok? && |ExpandLine(line, data).value| == |Columns(data.bram)|
  {
  }

  /** generateCustomLayout: expands every template line in order; `template`
      is None when the template file cannot be opened. */
  method GenerateCustomLayout(data: CustomLayoutData, templatePath: string, template: Option<seq<string>>)
    returns (ok: bool, content: string)
    ensures template.None? ==> !ok && content == "Failed to open template layout " + templatePath
    ensures template.Some? && LayoutLines(template.value, data).Err? ==>
      !ok && content == LayoutLines(template.value, data).message
    ensures template.Some? && LayoutLines(template.value, data).Ok? ==>
      ok && content == Concat(LayoutLines(template.value, data).value)
  {
    if template.None? {
      return false, "Failed to open template layout " + templatePath;
    }
    var lines := template.value;
    var customLayout: seq<string> := [];
    for i := 0 to |lines|
      invariant LayoutLines(lines[..i], data) == Ok(customLayout)
    {
      assert lines[..i + 1][..i] == lines[..i];
      var lineOk, msg;
      lineOk, msg, customLayout := AppendLayoutLine(lines[i], data, customLayout);
      if !lineOk {
        LayoutErrorPersists(lines, data, i + 1);
        return false, msg;
      }
    }
    assert lines[..|lines|] == lines;
    return true, Concat(customLayout);
  }

  /** One turn of the template loop: personalizes the line, then expands a
      BRAM or DSP marker line or copies any other line. */
  method AppendLayoutLine(line: string, data: CustomLayoutData, customLayout: seq<string>)
    returns (ok: bool, message: string, customLayout': seq<string>)
    ensures ExpandLine(line, data).Ok? ==> ok && customLayout' == customLayout + ExpandLine(line, data).value
    ensures ExpandLine(line, data).Err? ==> !ok && message == ExpandLine(line, data).message
  {
    var l := line;
    if Contains(l, "${NAME}") {
      l := ReplaceAll(l, "${NAME}", data.name);
      l := ReplaceAll(l, "${WIDTH}", IntToString(data.width));
      l := ReplaceAll(l, "${HEIGHT}", IntToString(data.height));
    }
    assert l == Personalized(line, data);
    if Contains(l, "template_bram") {
      ok, message, customLayout' := BuildLines(l, data.bram, customLayout);
    } else if Contains(l, "template_dsp") {
      ok, message, customLayout' := BuildLines(l, data.dsp, customLayout);
    } else {
      ok, message, customLayout' := true, "", customLayout + [l];
    }
  }

  /** Once a prefix of the template fails, the whole template fails with the
      same message. */
  lemma {:induction false} LayoutErrorPersists(lines: seq<string>, data: CustomLayoutData, n: nat)
    requires n <= |lines|
    requires LayoutLines(lines[..n], data).Err?
    ensures LayoutLines(lines, data) == LayoutLines(lines[..n], data)
    decreases |lines| - n
  {
    if n < |lines| {
      assert lines[..n + 1][..n] == lines[..n];
      LayoutErrorPersists(lines, data, n + 1);
    } else {
      assert lines[..n] == lines;
    }
  }
}
