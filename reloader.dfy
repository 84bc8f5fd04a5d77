/**
 * `utils/reloader.py`: builds the toolbox's tool list from a `{submodule: [tool, ...]}`
 * dictionary. Importing a module and reading the class from it are foreign; their
 * outcome for each dotted module path is a parameter (`load`). A failure never
 * propagates: it becomes a placeholder tool class describing the error.
 */
module Reloader {
  import opened Text

  /** What `getattr(reload(import_module(path)), tool)` does: it finds the class, or raises. */
  datatype LoadOutcome = Found | Raised(exception: string, traceback: string)

  /**
   * A tool class in the toolbox: the real one from its module, or a `_BrokenImport`
   * placeholder. A placeholder's own name is always `_BrokenImport`: the `__name__`
   * assigned in its class body is only a class attribute (`nameAttribute`), which
   * instances see but which does not rename the class.
   */
  datatype ToolClass =
    | ToolFrom(modulePath: string, className: string)
    | BrokenImport(className: string, nameAttribute: string, category: string, labelText: string, alias: string,
                   description: string)

  /** `module_name.rsplit(".", 1)[-1]`: the text after the last dot, or all of it when there is none. */
  function LastSegment(s: string): (r: string)
    ensures '.' !in r
    ensures EndsWith(s, r)
  {
    if |s| == 0 then ""
    else if s[|s| - 1] == '.' then ""
    else
      var r := LastSegment(s[..|s| - 1]);
      assert s[..|s| - 1][|s| - 1 - |r|..] == r;
      assert s[|s| - |r| - 1..] == s[..|s| - 1][|s| - 1 - |r|..] + [s[|s| - 1]];
      r + [s[|s| - 1]]
  }

  /** The class name is recovered from any dotted path whose last part has no dot. */
  lemma {:induction false} LastSegmentOf(prefix: string, tool: string)
    requires '.' !in tool
    ensures LastSegment(prefix + "." + tool) == tool
    decreases |tool|
  {
    var s := prefix + "." + tool;
    if |tool| == 0 {
      assert s[|s| - 1] == '.';
    } else {
      assert s[..|s| - 1] == prefix + "." + tool[..|tool| - 1];
      assert '.' !in tool[..|tool| - 1] by {
        assert forall c :: c in tool[..|tool| - 1] ==> c in tool;
      }
      LastSegmentOf(prefix, tool[..|tool| - 1]);
      assert tool[..|tool| - 1] + [tool[|tool| - 1]] == tool;
    }
  }

  /** `placeholder_tool(tool_name, exception, traceback)`. */
  function PlaceholderTool(toolName: string, exception: string, traceback: string): (r: ToolClass)
    ensures r.BrokenImport?
    ensures r.className == "_BrokenImport" && r.nameAttribute == toolName + "_BrokenImport"
    ensures r.category == "Broken Tools (Read Description for More Info)"
    ensures r.description == traceback
    ensures StartsWith(r.labelText, toolName) && EndsWith(r.labelText, exception)
    ensures ' ' !in r.alias
  {
    var labelText := toolName + " - " + exception;
    assert labelText[..|toolName|] == toolName;
    assert labelText[|labelText| - |exception|..] == exception;
    BrokenImport("_BrokenImport", toolName + "_BrokenImport", "Broken Tools (Read Description for More Info)", labelText, Replace(labelText, ' ', ""), traceback)
  }

  /** The alias is the label with its spaces removed and everything else kept. */
  lemma AliasDropsSpaces(toolName: string, exception: string, traceback: string)
    ensures PlaceholderTool(toolName, exception, traceback).alias ==
      Replace(toolName, ' ', "") + "-" + Replace(exception, ' ', "")
  {
    ReplaceAppend(toolName + " - ", exception, ' ', "");
    ReplaceAppend(toolName, " - ", ' ', "");
    assert Replace(" - ", ' ', "") == "-" by {
      assert " - "[1..] == "- " && "- "[1..] == " " && " "[1..] == "";
    }
  }

  /** `get_module(module_name)`: the class named after the last dot, or a placeholder for whatever was raised. */
  function GetModule(modulePath: string, load: string -> LoadOutcome): (r: ToolClass)
    ensures load(modulePath).Found? ==> r == ToolFrom(modulePath, LastSegment(modulePath))
    ensures load(modulePath).Raised? ==>
      r == PlaceholderTool(LastSegment(modulePath), load(modulePath).exception, load(modulePath).traceback)
    ensures r.ToolFrom? <==> load(modulePath).Found?
    ensures r.ToolFrom? ==> '.' !in r.className && EndsWith(modulePath, r.className)
    ensures r.BrokenImport? ==> EndsWith(modulePath, r.nameAttribute[..|r.nameAttribute| - |"_BrokenImport"|])
  {
    var tool := LastSegment(modulePath);
    match load(modulePath)
    case Found => ToolFrom(modulePath, tool)
    case Raised(e, tb) => PlaceholderTool(tool, e, tb)
  }

  /** `f"{base}.{sub}.{tool}"`. */
  function ModulePath(base: string, sub: string, tool: string): string
  {
    base + "." + sub + "." + tool
  }

  /** The module paths of `import_tools`, one per (submodule, tool) pair, in dictionary then list order. */
  function ModulePaths(toolDict: seq<(string, seq<string>)>, base: string): seq<string>
  {
    if |toolDict| == 0 then []
    else
      var (sub, tools) := toolDict[0];
      seq(|tools|, j requires 0 <= j < |tools| => ModulePath(base, sub, tools[j])) + ModulePaths(toolDict[1..], base)
  }

  /** `import_tools(tool_dict, tool_module_name)`. */
  function ImportTools(toolDict: seq<(string, seq<string>)>, base: string, load: string -> LoadOutcome): (r: seq<ToolClass>)
    ensures |r| == |ModulePaths(toolDict, base)|
    ensures forall k :: 0 <= k < |r| ==> r[k] == GetModule(ModulePaths(toolDict, base)[k], load)
    ensures |r| == ToolCount(toolDict)
    ensures forall k :: 0 <= k < |r| ==> (r[k].ToolFrom? <==> load(ModulePaths(toolDict, base)[k]).Found?)
  {
    var paths := ModulePaths(toolDict, base);
    PathsCount(toolDict, base);
    seq(|paths|, k requires 0 <= k < |paths| => GetModule(paths[k], load))
  }

  /** How many tools the dictionary lists. */
  function ToolCount(toolDict: seq<(string, seq<string>)>): nat
  {
    if |toolDict| == 0 then 0 else |toolDict[0].1| + ToolCount(toolDict[1..])
  }

  /**
   * The `j`-th tool of the `i`-th submodule comes after every tool of the earlier
   * submodules, and its entry is the class named `tool` from `base.sub.tool`, or
   * a placeholder whose `__name__` attribute is named after it: never a propagated
   * error. The list has one entry per listed tool.
   */
  lemma {:induction false} ImportToolsAt(toolDict: seq<(string, seq<string>)>, base: string, load: string -> LoadOutcome, i: int, j: int)
    requires 0 <= i < |toolDict| && 0 <= j < |toolDict[i].1|
    requires '.' !in toolDict[i].1[j]
    ensures |ImportTools(toolDict, base, load)| == ToolCount(toolDict)
    ensures var k := ToolCount(toolDict[..i]) + j;
      var path := ModulePath(base, toolDict[i].0, toolDict[i].1[j]);
      k < |ImportTools(toolDict, base, load)| &&
      ModulePaths(toolDict, base)[k] == path &&
      ImportTools(toolDict, base, load)[k] == GetModule(path, load) &&
      (ImportTools(toolDict, base, load)[k].ToolFrom? ==> ImportTools(toolDict, base, load)[k].className == toolDict[i].1[j]) &&
      (ImportTools(toolDict, base, load)[k].BrokenImport? ==>
        ImportTools(toolDict, base, load)[k].nameAttribute == toolDict[i].1[j] + "_BrokenImport")
  {
    PathsAt(toolDict, base, i, j);
    LastSegmentOf(base + "." + toolDict[i].0, toolDict[i].1[j]);
  }

  lemma {:induction false} PathsAt(toolDict: seq<(string, seq<string>)>, base: string, i: int, j: int)
    requires 0 <= i < |toolDict| && 0 <= j < |toolDict[i].1|
    ensures |ModulePaths(toolDict, base)| == ToolCount(toolDict)
    ensures ToolCount(toolDict[..i]) + j < |ModulePaths(toolDict, base)|
    ensures ModulePaths(toolDict, base)[ToolCount(toolDict[..i]) + j] == ModulePath(base, toolDict[i].0, toolDict[i].1[j])
  {
    PathsCount(toolDict, base);
    if i == 0 {
      assert toolDict[..0] == [];
    } else {
      PathsAt(toolDict[1..], base, i - 1, j);
      assert toolDict[1..][..i - 1] == toolDict[..i][1..];
      assert toolDict[1..][i - 1] == toolDict[i];
    }
  }

  lemma {:induction false} PathsCount(toolDict: seq<(string, seq<string>)>, base: string)
    ensures |ModulePaths(toolDict, base)| == ToolCount(toolDict)
  {
    if |toolDict| > 0 {
      PathsCount(toolDict[1..], base);
    }
  }
}
