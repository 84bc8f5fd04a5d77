/**
 * `utils/arcpy_tools.py`: the helpers shared between tools. The arcpy and `os`
 * calls they wrap are parameters here: the rows a cursor yields, the directory
 * listing `os.walk` produces, the rows handed to an insert cursor.
 */
module ArcpyTools {
  import opened Wrappers
  import opened Text
  import Dicts
  import Models

  /** `row_to_dict(cursor)`: one dictionary per row, pairing `cursor.fields` with the row's values. */
  function RowToDict<V>(fields: seq<string>, rows: seq<seq<V>>): (r: seq<map<string, V>>)
    ensures |r| == |rows|
    ensures (forall a, b :: 0 <= a < b < |fields| ==> fields[a] != fields[b]) ==>
      forall i, j :: 0 <= i < |rows| && 0 <= j < |fields| && j < |rows[i]| ==>
        fields[j] in r[i] && r[i][fields[j]] == rows[i][j]
  {
    RowsZip(fields, rows);
    Models.AsDict(fields, rows)
  }

  lemma RowsZip<V>(fields: seq<string>, rows: seq<seq<V>>)
    ensures (forall a, b :: 0 <= a < b < |fields| ==> fields[a] != fields[b]) ==>
      forall i, j :: 0 <= i < |rows| && 0 <= j < |fields| && j < |rows[i]| ==>
        fields[j] in Models.AsDict(fields, rows)[i] && Models.AsDict(fields, rows)[i][fields[j]] == rows[i][j]
  {
    if forall a, b :: 0 <= a < b < |fields| ==> fields[a] != fields[b] {
      forall i, j | 0 <= i < |rows| && 0 <= j < |fields| && j < |rows[i]|
        ensures fields[j] in Models.AsDict(fields, rows)[i] && Models.AsDict(fields, rows)[i][fields[j]] == rows[i][j]
      {
        Models.AsDictAt(fields, rows, i, j);
      }
    }
  }

  // ---------------------------------------------------------------------------
  // get_databases

  /** One step of `os.walk`: a directory and the names of its subdirectories. */
  type WalkStep = (string, seq<string>)

  /** The `.gdb` subdirectories of `root`, joined to it, in listing order. */
  function GdbIn(root: string, dirs: seq<string>): seq<string>
  {
    if |dirs| == 0 then []
    else GdbIn(root, dirs[..|dirs| - 1]) + (if EndsWith(dirs[|dirs| - 1], ".gdb") then [JoinPath(root, dirs[|dirs| - 1])] else [])
  }

  /** Every `.gdb` directory the walk visits, in walk order. */
  function Found(walk: seq<WalkStep>): seq<string>
  {
    if |walk| == 0 then []
    else Found(walk[..|walk| - 1]) + GdbIn(walk[|walk| - 1].0, walk[|walk| - 1].1)
  }

  /** `[x for x in databases if x.lower().endswith(name)]`. */
  function NameFilter(databases: seq<string>, name: string): (r: seq<string>)
    ensures forall x :: x in r <==> x in databases && EndsWith(Lower(x), name)
  {
    if |databases| == 0 then []
    else
      var rest := NameFilter(databases[1..], name);
      assert forall x :: x in databases <==> x == databases[0] || x in databases[1..];
      if EndsWith(Lower(databases[0]), name) then [databases[0]] + rest else rest
  }

  /** What `get_databases(location, database_name)` returns for the walk of `location`. */
  function Databases(walk: seq<WalkStep>, databaseName: string): seq<string>
  {
    if databaseName != "None" then NameFilter(Found(walk), databaseName) else Found(walk)
  }

  /** `get_databases`: the walk loop appending each `.gdb` directory, then the name filter. */
  method GetDatabases(walk: seq<WalkStep>, databaseName: string) returns (databases: seq<string>)
    ensures databases == Databases(walk, databaseName)
  {
    databases := [];
    for i := 0 to |walk|
      invariant databases == Found(walk[..i])
    {
      var (root, dirs) := walk[i];
      assert walk[..i + 1][..i] == walk[..i];
      var before := databases;
      for j := 0 to |dirs|
        invariant databases == before + GdbIn(root, dirs[..j])
      {
        assert dirs[..j + 1][..j] == dirs[..j];
        if EndsWith(dirs[j], ".gdb") {
          databases := databases + [JoinPath(root, dirs[j])];
        }
      }
      assert dirs[..|dirs|] == dirs;
    }
    assert walk[..|walk|] == walk;
    if databaseName != "None" {
      databases := NameFilter(databases, databaseName);
    }
  }

  lemma {:induction false} GdbInExactly(root: string, dirs: seq<string>)
    ensures forall x :: x in GdbIn(root, dirs) <==> exists d :: d in dirs && EndsWith(d, ".gdb") && x == JoinPath(root, d)
  {
    if |dirs| > 0 {
      GdbInExactly(root, dirs[..|dirs| - 1]);
      assert forall d :: d in dirs <==> d in dirs[..|dirs| - 1] || d == dirs[|dirs| - 1];
    }
  }

  lemma {:induction false} FoundExactly(walk: seq<WalkStep>)
    ensures forall x :: x in Found(walk) <==>
      exists s, d :: s in walk && d in s.1 && EndsWith(d, ".gdb") && x == JoinPath(s.0, d)
  {
    if |walk| > 0 {
      var last := walk[|walk| - 1];
      FoundExactly(walk[..|walk| - 1]);
      GdbInExactly(last.0, last.1);
      assert forall s :: s in walk <==> s in walk[..|walk| - 1] || s == last;
    }
  }

  /**
   * A path is returned exactly when it joins a walked directory to one of its
   * subdirectories named `*.gdb` and, for a name other than `"None"`, its
   * lower-cased form ends with that name. Every result ends in `.gdb`.
   */
  lemma DatabasesExactly(walk: seq<WalkStep>, databaseName: string)
    ensures forall x :: x in Databases(walk, databaseName) <==>
      (exists s, d :: s in walk && d in s.1 && EndsWith(d, ".gdb") && x == JoinPath(s.0, d)) &&
      (databaseName == "None" || EndsWith(Lower(x), databaseName))
    ensures forall x :: x in Databases(walk, databaseName) ==> EndsWith(x, ".gdb")
  {
    FoundExactly(walk);
    forall x | x in Databases(walk, databaseName) ensures EndsWith(x, ".gdb") {
      var s, d :| s in walk && d in s.1 && EndsWith(d, ".gdb") && x == JoinPath(s.0, d);
      EndsWithTrans(x, d, ".gdb");
    }
  }

  // ---------------------------------------------------------------------------
  // msg

  /** Where `msg` sends its text: `AddMessage`, `AddWarning` or `AddError`. */
  datatype Channel = MessageChannel | WarningChannel | ErrorChannel

  /** `str(level).lower()`, with anything but message, warning or error read as message. */
  function NormalLevel(level: string): (r: string)
    ensures r == "message" || r == "warning" || r == "error"
  {
    var l := Lower(level);
    if l != "message" && l != "warning" && l != "error" then "message" else l
  }

  /** `msg(message, level)`: the channel the message goes to and the line echoed to stdout. */
  function Msg(message: string, level: string): (r: (Channel, string))
  {
    var l := NormalLevel(level);
    if l == "message" then (MessageChannel, message)
    else if l == "warning" then (WarningChannel, "WARNING: " + message)
    else (ErrorChannel, "ERROR: " + message)
  }

  /**
   * Levels are matched case-insensitively; an unknown level is a plain message.
   * The echoed line carries the `WARNING: `/`ERROR: ` prefix exactly for those
   * channels, and the message itself is passed on unchanged after it.
   */
  lemma MsgLevels(message: string, level: string)
    ensures NormalLevel(NormalLevel(level)) == NormalLevel(level)
    ensures Msg(message, level).0 == WarningChannel <==> Lower(level) == "warning"
    ensures Msg(message, level).0 == ErrorChannel <==> Lower(level) == "error"
    ensures Msg(message, level).0 == MessageChannel ==> Msg(message, level).1 == message
    ensures Msg(message, level).0 == WarningChannel ==> Msg(message, level).1 == "WARNING: " + message
    ensures Msg(message, level).0 == ErrorChannel ==> Msg(message, level).1 == "ERROR: " + message
    ensures EndsWith(Msg(message, level).1, message)
  {
    NormalLevelCases(level);
    var r := Msg(message, level).1;
    assert r[|r| - |message|..] == message;
  }

  lemma NormalLevelCases(level: string)
    ensures NormalLevel(level) == "warning" <==> Lower(level) == "warning"
    ensures NormalLevel(level) == "error" <==> Lower(level) == "error"
    ensures NormalLevel(NormalLevel(level)) == NormalLevel(level)
  {
    LowerIdempotent(level);
  }

  // ---------------------------------------------------------------------------
  // get_params

  /** `get_params(parameters, filter_list)`: keyed by name, restricted to `filter_list` when it is non-empty. */
  function GetParams(parameters: seq<Parameter>, filterList: seq<string>): (r: map<string, Parameter>)
    ensures forall n :: n in r <==> (exists p :: p in parameters && p.name == n) && (|filterList| == 0 || n in filterList)
    ensures forall n :: n in r ==> r[n] in parameters && r[n].name == n
  {
    var chosen := if |filterList| > 0 then Chosen(parameters, filterList) else parameters;
    Dicts.DictFrom(chosen, (p: Parameter) => p.name)
  }

  /** `[p for p in parameters if p.name in filter_list]`, in order. */
  function Chosen(parameters: seq<Parameter>, filterList: seq<string>): (r: seq<Parameter>)
    ensures forall p :: p in r <==> p in parameters && p.name in filterList
  {
    if |parameters| == 0 then []
    else
      var rest := Chosen(parameters[1..], filterList);
      assert forall p :: p in parameters <==> p == parameters[0] || p in parameters[1..];
      if parameters[0].name in filterList then [parameters[0]] + rest else rest
  }

  /**
   * With duplicate names the parameter listed last is the one kept, with or without a
   * filter: among the parameters the filter keeps, the last one with a given name wins.
   */
  lemma GetParamsLast(parameters: seq<Parameter>, filterList: seq<string>, j: int)
    requires 0 <= j < |parameters| && (|filterList| == 0 || parameters[j].name in filterList)
    requires forall l :: j < l < |parameters| && (|filterList| == 0 || parameters[l].name in filterList) ==>
      parameters[l].name != parameters[j].name
    ensures parameters[j].name in GetParams(parameters, filterList)
    ensures GetParams(parameters, filterList)[parameters[j].name] == parameters[j]
  {
    if |filterList| == 0 {
      Dicts.DictFromLast(parameters, (p: Parameter) => p.name, j);
    } else {
      var chosen := Chosen(parameters, filterList);
      ChosenLast(parameters, filterList, j);
      var i :| LastNamed(chosen, i, parameters[j]);
      Dicts.DictFromLast(chosen, (p: Parameter) => p.name, i);
    }
  }

  /** `s[i]` is `p`, and no later element of `s` has its name. */
  predicate LastNamed(s: seq<Parameter>, i: int, p: Parameter)
  {
    0 <= i < |s| && s[i] == p && forall l :: i < l < |s| ==> s[l].name != p.name
  }

  /** A kept parameter with no later kept namesake keeps that property in the filtered list. */
  lemma {:induction false} ChosenLast(parameters: seq<Parameter>, filterList: seq<string>, j: int)
    requires 0 <= j < |parameters| && parameters[j].name in filterList
    requires forall l :: j < l < |parameters| && parameters[l].name in filterList ==> parameters[l].name != parameters[j].name
    ensures exists i :: LastNamed(Chosen(parameters, filterList), i, parameters[j])
  {
    var rest := Chosen(parameters[1..], filterList);
    if j == 0 {
      assert Chosen(parameters, filterList) == [parameters[0]] + rest;
      forall l | 0 <= l < |rest|
        ensures rest[l].name != parameters[0].name
      {
        assert rest[l] in rest;
        var m :| 0 <= m < |parameters[1..]| && parameters[1..][m] == rest[l];
        assert parameters[m + 1] == rest[l];
      }
      assert LastNamed(Chosen(parameters, filterList), 0, parameters[0]);
    } else {
      ChosenLast(parameters[1..], filterList, j - 1);
      var i :| LastNamed(rest, i, parameters[j]);
      if parameters[0].name in filterList {
        assert Chosen(parameters, filterList) == [parameters[0]] + rest;
        assert LastNamed(Chosen(parameters, filterList), i + 1, parameters[j]);
      } else {
        assert LastNamed(Chosen(parameters, filterList), i, parameters[j]);
      }
    }
  }

  // ---------------------------------------------------------------------------
  // insert_rows

  /**
   * `insert_rows`: every row goes to the insert cursor in order (`inserted` is
   * what the cursor received) and the count returned is the number of rows.
   */
  method InsertRows<V>(rows: seq<V>) returns (count: int, inserted: seq<V>)
    ensures inserted == rows
    ensures count == |rows|
  {
    count := 0;
    inserted := [];
    for i := 0 to |rows|
      invariant inserted == rows[..i]
      invariant count == i
    {
      inserted := inserted + [rows[i]];
      count := count + 1;
    }
    assert rows[..|rows|] == rows;
  }

  // ---------------------------------------------------------------------------
  // print_dict

  /** `len(max(keys, key=len))`: the length of a longest key. */
  function MaxLen(keys: seq<string>): (r: nat)
    requires |keys| > 0
    ensures forall k :: 0 <= k < |keys| ==> |keys[k]| <= r
    ensures exists k :: 0 <= k < |keys| && |keys[k]| == r
  {
    if |keys| == 1 then |keys[0]|
    else
      var m := MaxLen(keys[1..]);
      assert forall k :: 1 <= k < |keys| ==> keys[k] == keys[1..][k - 1];
      if |keys[0]| >= m then |keys[0]| else m
  }

  /** One line of `print_dict`. */
  function DictLine(tabs: string, key: string, value: string, padding: int): string
  {
    tabs + LJust(key, padding) + ": " + value + "\n"
  }

  function DictLines(items: seq<(string, string)>, tabs: string, padding: int): (r: seq<string>)
    ensures |r| == |items|
    ensures forall i :: 0 <= i < |items| ==> r[i] == DictLine(tabs, items[i].0, items[i].1, padding)
  {
    if |items| == 0 then [] else [DictLine(tabs, items[0].0, items[0].1, padding)] + DictLines(items[1..], tabs, padding)
  }

  /** `"".join(parts)`. */
  function Concat(parts: seq<string>): string
  {
    if |parts| == 0 then "" else parts[0] + Concat(parts[1..])
  }

  /**
   * `print_dict(d, tab_num, tab)` over the dictionary's items in order: keys are
   * padded to one more than the longest key; an empty dictionary makes `max`
   * raise ValueError.
   */
  function PrintDict(items: seq<(string, string)>, tabNum: int, tab: string): Result<string>
  {
    if |items| == 0 then Err(ValueError("max() arg is an empty sequence"))
    else Ok(Concat(DictLines(items, Repeat(tab, tabNum), MaxLen(Models.EntryKeys(items)) + 1)))
  }

  /**
   * A line starts with the indentation, has its key at the next column, pads it
   * with spaces up to the padding width, then `": "`, the value and a newline.
   */
  lemma DictLineLayout(tabs: string, key: string, value: string, padding: int)
    requires |key| < padding
    ensures var line := DictLine(tabs, key, value, padding);
      |line| == |tabs| + padding + 2 + |value| + 1 &&
      line[..|tabs|] == tabs &&
      line[|tabs|..|tabs| + |key|] == key &&
      (forall k :: |tabs| + |key| <= k < |tabs| + padding ==> line[k] == ' ') &&
      line[|tabs| + padding..|tabs| + padding + 2] == ": " &&
      line[|tabs| + padding + 2..|line| - 1] == value &&
      line[|line| - 1] == '\n'
  {
    var j := LJust(key, padding);
    var line := DictLine(tabs, key, value, padding);
    assert line == tabs + j + ": " + value + "\n";
    assert line[|tabs|..|tabs| + padding] == j;
    assert line[|tabs|..|tabs| + |key|] == j[..|key|];
  }

  /**
   * Every key is shorter than the padding `print_dict` computes, so on every line of a
   * printed dictionary `": "` lands in the same column, right after the padded key.
   */
  lemma PrintDictAligned(items: seq<(string, string)>, tabs: string, padding: int, i: int)
    requires 0 <= i < |items| && padding == MaxLen(Models.EntryKeys(items)) + 1
    ensures |items[i].0| < padding
    ensures DictLines(items, tabs, padding)[i] == DictLine(tabs, items[i].0, items[i].1, padding)
  {
    var keys := Models.EntryKeys(items);
    assert keys[i] == items[i].0;
  }

  /**
   * `print_dict` prints each entry's aligned line after the lines of the entries before it
   * and before those of the entries after it; only an empty dictionary fails.
   */
  lemma PrintDictText(items: seq<(string, string)>, tabNum: int, tab: string, i: int)
    requires 0 <= i < |items|
    ensures PrintDict(items, tabNum, tab).Ok?
    ensures var tabs := Repeat(tab, tabNum);
      var padding := MaxLen(Models.EntryKeys(items)) + 1;
      var lines := DictLines(items, tabs, padding);
      |items[i].0| < padding &&
      PrintDict(items, tabNum, tab).value ==
        Concat(lines[..i]) + DictLine(tabs, items[i].0, items[i].1, padding) + Concat(lines[i + 1..])
    ensures PrintDict([], tabNum, tab).Err?
  {
    var tabs := Repeat(tab, tabNum);
    var padding := MaxLen(Models.EntryKeys(items)) + 1;
    PrintDictAligned(items, tabs, padding, i);
    ConcatLines(DictLines(items, tabs, padding), i);
  }

  /** The printed text is the lines one after the other: each entry contributes exactly its line. */
  lemma {:induction false} ConcatLines(parts: seq<string>, i: int)
    requires 0 <= i < |parts|
    ensures Concat(parts) == Concat(parts[..i]) + parts[i] + Concat(parts[i + 1..])
  {
    if i > 0 {
      var t := parts[1..];
      ConcatLines(t, i - 1);
      assert t[..i - 1] == parts[..i][1..] && t[i - 1] == parts[i] && t[i..] == parts[i + 1..];
      var before, after := Concat(t[..i - 1]), Concat(t[i..]);
      assert Concat(parts) == parts[0] + (before + parts[i] + after);
      assert Concat(parts[..i]) == parts[0] + before;
    } else {
      assert parts[..0] == [];
    }
  }
}
