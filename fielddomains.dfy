/**
 * The "Field Domains" data tool (`tools/data/FieldDomains_data.py`): which fields of a
 * feature class it reports on and in what order, the block of lines it writes for each
 * field and its attribute domain, and the report that joins the blocks.
 */
module FieldDomains {
  import opened Wrappers
  import opened Text
  import opened Sorting
  import opened Dicts
  import Constants
  import ArcpyTools

  /** A field of the feature class, as the tool reads it. */
  datatype Field = Field(name: string, aliasName: string, domain: string, isNullable: bool)

  /**
   * An attribute domain of the workspace. `codedValues` holds the codes already rendered
   * with `str`, each with its description; `range` holds the rendered minimum and maximum.
   */
  datatype Domain = Domain(name: string, domainType: string, codedValues: seq<(string, string)>, range: (string, string))

  function AliasOf(f: Field): string { f.aliasName }

  function NameOf(d: Domain): string { d.name }

  /** The fields whose name is one of `names`, in their order. */
  function Chosen(fields: seq<Field>, names: seq<string>): (r: seq<Field>)
    ensures forall f :: f in r <==> f in fields && f.name in names
  {
    if |fields| == 0 then []
    else
      var rest := Chosen(fields[..|fields| - 1], names);
      var last := fields[|fields| - 1];
      assert forall f :: f in fields <==> f in fields[..|fields| - 1] || f == last;
      if last.name in names then rest + [last] else rest
  }

  /** In a list without repeats every element occurs once. */
  lemma {:induction false} DistinctOnce(s: seq<string>, x: string)
    requires forall i, j :: 0 <= i < j < |s| ==> s[i] != s[j]
    ensures multiset(s)[x] <= 1
  {
    if |s| > 0 {
      var init := s[..|s| - 1];
      DistinctOnce(init, x);
      assert s == init + [s[|s| - 1]];
      if s[|s| - 1] == x {
        assert x !in init;
      }
    }
  }

  /** Sorting a list without repeats gives a strictly increasing list. */
  lemma SortDistinct(ks: seq<string>)
    requires forall i, j :: 0 <= i < j < |ks| ==> ks[i] != ks[j]
    ensures Increasing(Sort(ks))
  {
    var s := Sort(ks);
    forall i, j | 0 <= i < j < |s|
      ensures Below(s[i], s[j])
    {
      if s[i] == s[j] {
        var x := s[i];
        assert s == s[..j] + s[j..];
        assert x in s[..j] && x in s[j..];
        assert multiset(s)[x] == multiset(s[..j])[x] + multiset(s[j..])[x];
        DistinctOnce(ks, x);
        assert false;
      }
    }
  }

  /** Sorting keeps exactly the elements it was given. */
  lemma SortMembers(s: seq<string>)
    ensures forall a :: a in Sort(s) <==> a in s
  {
    forall a
      ensures a in Sort(s) <==> a in s
    {
      assert a in Sort(s) <==> a in multiset(Sort(s));
    }
  }

  /** The aliases of a list of fields, in order. */
  function Aliases(fields: seq<Field>): (r: seq<string>)
    ensures |r| == |fields|
    ensures forall i :: 0 <= i < |fields| ==> r[i] == fields[i].aliasName
    ensures forall x :: x in r <==> x in KeyOrder(fields, AliasOf)
  {
    var r := seq(|fields|, i requires 0 <= i < |fields| => fields[i].aliasName);
    AliasesAreKeys(fields, r);
    r
  }

  lemma AliasesAreKeys(fields: seq<Field>, r: seq<string>)
    requires |r| == |fields| && forall i :: 0 <= i < |fields| ==> r[i] == fields[i].aliasName
    ensures forall x :: x in r <==> x in KeyOrder(fields, AliasOf)
  {
    forall x | x in KeyOrder(fields, AliasOf)
      ensures x in r
    {
      var f := DictFrom(fields, AliasOf)[x];
      var i := IndexOf(fields, f);
      assert r[i] == x;
    }
    forall x | x in r
      ensures x in KeyOrder(fields, AliasOf)
    {
      var i :| 0 <= i < |r| && r[i] == x;
      assert fields[i] in fields;
    }
  }

  /** The aliases of `chosen`, each once, sorted: `sorted` on the dictionary's keys. */
  function AliasOrder(chosen: seq<Field>): (a: seq<string>)
    ensures Increasing(a)
    ensures forall x :: x in a <==> x in KeyOrder(chosen, AliasOf)
  {
    var order := KeyOrder(chosen, AliasOf);
    SortMembers(order);
    SortDistinct(order);
    Sort(order)
  }

  /** Every sorted alias is a key of the dictionary by alias. */
  lemma AliasesKeyed(chosen: seq<Field>)
    ensures forall i :: 0 <= i < |AliasOrder(chosen)| ==> AliasOrder(chosen)[i] in DictFrom(chosen, AliasOf)
  {
    var aliases := AliasOrder(chosen);
    forall i | 0 <= i < |aliases|
      ensures aliases[i] in DictFrom(chosen, AliasOf)
    {
      assert aliases[i] in aliases;
    }
  }

  /** One field per alias of `chosen`, ordered by alias: the values of `dict(sorted(...items()))`. */
  function Selection(chosen: seq<Field>): (r: seq<Field>)
    ensures Aliases(r) == AliasOrder(chosen)
    ensures forall k :: 0 <= k < |r| ==> r[k] == DictFrom(chosen, AliasOf)[r[k].aliasName]
  {
    var byAlias := DictFrom(chosen, AliasOf);
    var aliases := AliasOrder(chosen);
    AliasesKeyed(chosen);
    var r := seq(|aliases|, i requires 0 <= i < |aliases| => byAlias[aliases[i]]);
    forall k | 0 <= k < |aliases|
      ensures r[k].aliasName == aliases[k]
    {
      assert AliasOf(byAlias[aliases[k]]) == aliases[k];
    }
    r
  }

  /**
   * The fields reported on: those whose name is among the `;`-separated names, one per alias
   * (the dictionary keeps the last field with each alias), ordered by alias.
   */
  function SelectFields(fields: seq<Field>, fieldsText: string): (r: seq<Field>)
    ensures Increasing(Aliases(r))
    ensures forall f :: f in r ==> f in fields && f.name in Split(fieldsText, ';')
    ensures forall f :: f in fields && f.name in Split(fieldsText, ';') ==> f.aliasName in Aliases(r)
  {
    var chosen := Chosen(fields, Split(fieldsText, ';'));
    var r := Selection(chosen);
    forall f | f in r
      ensures f in chosen
    {
      var k :| 0 <= k < |r| && r[k] == f;
      assert r[k].aliasName in Aliases(r);
    }
    r
  }

  /** `s[j]` is `f`, and no later element of `s` shares its alias. */
  predicate LastWithAlias(s: seq<Field>, j: int, f: Field)
  {
    0 <= j < |s| && s[j] == f && forall l :: j < l < |s| ==> s[l].aliasName != f.aliasName
  }

  /** The field reported for an alias is the last listed field with that alias and a chosen name. */
  lemma SelectLast(fields: seq<Field>, fieldsText: string, i: int)
    requires 0 <= i < |fields| && fields[i].name in Split(fieldsText, ';')
    requires forall l :: i < l < |fields| && fields[l].name in Split(fieldsText, ';') ==> fields[l].aliasName != fields[i].aliasName
    ensures fields[i] in SelectFields(fields, fieldsText)
  {
    var chosen := Chosen(fields, Split(fieldsText, ';'));
    ChosenLast(fields, Split(fieldsText, ';'), i);
    var j :| LastWithAlias(chosen, j, fields[i]);
    SelectionKeepsLast(chosen, j);
  }

  /** The last element of `chosen` with a given alias is the one `Selection` keeps. */
  lemma SelectionKeepsLast(chosen: seq<Field>, j: int)
    requires 0 <= j < |chosen| && LastWithAlias(chosen, j, chosen[j])
    ensures chosen[j] in Selection(chosen)
  {
    var f := chosen[j];
    DictFromLast(chosen, AliasOf, j);
    var r := Selection(chosen);
    assert f.aliasName in KeyOrder(chosen, AliasOf) by {
      assert f in chosen;
    }
    var a := AliasOrder(chosen);
    assert f.aliasName in a;
    var k :| 0 <= k < |a| && a[k] == f.aliasName;
    assert Aliases(r)[k] == f.aliasName;
    assert r[k] == f;
  }

  /** A chosen field with no later chosen field of the same alias keeps that property in the chosen list. */
  lemma {:induction false} ChosenLast(fields: seq<Field>, names: seq<string>, i: int)
    requires 0 <= i < |fields| && fields[i].name in names
    requires forall l :: i < l < |fields| && fields[l].name in names ==> fields[l].aliasName != fields[i].aliasName
    ensures exists j :: LastWithAlias(Chosen(fields, names), j, fields[i])
  {
    var init := fields[..|fields| - 1];
    var rest := Chosen(init, names);
    var last := fields[|fields| - 1];
    if i == |fields| - 1 {
      assert Chosen(fields, names) == rest + [last];
      assert LastWithAlias(Chosen(fields, names), |rest|, fields[i]);
    } else {
      ChosenLast(init, names, i);
      var j :| LastWithAlias(rest, j, fields[i]);
      if last.name in names {
        assert Chosen(fields, names) == rest + [last];
        assert LastWithAlias(Chosen(fields, names), j, fields[i]);
      } else {
        assert Chosen(fields, names) == rest;
      }
    }
  }

  /** `f"{b}"` for a Python `bool`. */
  function BoolText(b: bool): string
  {
    if b then "True" else "False"
  }

  /** The heading of a field's block. */
  function Header(f: Field): string
  {
    "## " + f.aliasName + " [" + f.name + "]"
  }

  /** The domain's name, type and the field's nullability; the last line ends in a newline of its own. */
  function DomainInfo(f: Field, d: Domain): seq<string>
  {
    [Constants.Tab + "Domain: " + d.name,
     Constants.Tab + "Type: " + d.domainType,
     Constants.Tab + "Nullable: " + BoolText(f.isNullable) + "\n"]
  }

  /** The codes of a coded-value domain. */
  function Codes(coded: seq<(string, string)>): (r: seq<string>)
    ensures |r| == |coded|
    ensures forall k :: 0 <= k < |coded| ==> r[k] == coded[k].0
    ensures |coded| > 0 ==> forall k :: 0 <= k < |coded| ==> |coded[k].0| <= ArcpyTools.MaxLen(r)
    ensures |coded| > 0 ==> exists k :: 0 <= k < |coded| && |coded[k].0| == ArcpyTools.MaxLen(r)
  {
    var r := seq(|coded|, k requires 0 <= k < |coded| => coded[k].0);
    if |coded| > 0 then
      var k :| 0 <= k < |r| && |r[k]| == ArcpyTools.MaxLen(r);
      assert |coded[k].0| == ArcpyTools.MaxLen(r);
      r
    else r
  }

  /** One code line: the code padded to `width`, then ` : ` and its description. */
  function CodeLine(width: int, code: string, description: string): (r: string)
    ensures |code| <= width ==> |r| == |Constants.Tab| + width + 3 + |description|
    ensures |code| <= width ==> r[|Constants.Tab| + width..|Constants.Tab| + width + 3] == " : "
    ensures |r| >= |Constants.Tab| + |code|
    ensures r[..|Constants.Tab|] == Constants.Tab && r[|Constants.Tab|..|Constants.Tab| + |code|] == code
    ensures forall k :: |Constants.Tab| + |code| <= k < |Constants.Tab| + width ==> r[k] == ' '
  {
    var padded := LJust(code, width);
    var r := Constants.Tab + padded + " : " + description;
    assert r[|Constants.Tab|..|Constants.Tab| + |padded|] == padded;
    r
  }

  /** The unsorted code lines, in the domain's order. */
  function CodeLines(width: int, coded: seq<(string, string)>): (r: seq<string>)
    ensures |r| == |coded|
    ensures forall k :: 0 <= k < |coded| ==> r[k] == CodeLine(width, coded[k].0, coded[k].1)
    ensures (forall k :: 0 <= k < |coded| ==> |coded[k].0| <= width) ==>
      forall k :: 0 <= k < |r| ==> |r[k]| >= |Constants.Tab| + width + 3 && r[k][|Constants.Tab| + width..|Constants.Tab| + width + 3] == " : "
  {
    seq(|coded|, k requires 0 <= k < |coded| => CodeLine(width, coded[k].0, coded[k].1))
  }

  /**
   * The lines of a coded-value domain: `max` of no codes raises `ValueError`; otherwise one
   * line per code, each code padded to the longest code, and the lines sorted as strings.
   */
  function CodedLines(coded: seq<(string, string)>): (r: Result<seq<string>>)
    ensures r.Err? <==> |coded| == 0
    ensures r.Ok? ==> |r.value| == |coded| && Sorted(r.value)
    ensures r.Ok? ==> multiset(r.value) == multiset(CodeLines(ArcpyTools.MaxLen(Codes(coded)), coded))
  {
    if |coded| == 0 then Err(ValueError("max() arg is an empty sequence"))
    else
      var lines := Sort(CodeLines(ArcpyTools.MaxLen(Codes(coded)), coded));
      assert |lines| == |multiset(lines)|;
      Ok(lines)
  }

  /**
   * The lines of one field's block: the heading; then, for a known domain, its name, type and
   * the nullability, followed by the coded values or the range; for any other domain the single
   * line `Domain: <None>`.
   */
  function Block(f: Field, domains: map<string, Domain>): (r: Result<seq<string>>)
    ensures r.Ok? ==> |r.value| >= 2 && r.value[0] == Header(f)
  {
    if f.domain !in domains then Ok([Header(f), Constants.Tab + "Domain: <None>"])
    else
      var d := domains[f.domain];
      var head := [Header(f)] + DomainInfo(f, d);
      if d.domainType == "CodedValue" then
        match CodedLines(d.codedValues)
        case Err(e) => Err(e)
        case Ok(lines) => Ok(head + lines)
      else if d.domainType == "Range" then
        Ok(head + [Constants.Tab + "Min: " + d.range.0, Constants.Tab + "Max: " + d.range.1])
      else Ok(head)
  }

  /** A field whose domain is not listed gets its heading and one line saying so. */
  lemma NoDomainBlock(f: Field, domains: map<string, Domain>)
    requires f.domain !in domains
    ensures Block(f, domains) == Ok([Header(f), Constants.Tab + "Domain: <None>"])
  {
  }

  /** The block fails exactly for a coded-value domain without codes. */
  lemma BlockFails(f: Field, domains: map<string, Domain>)
    ensures Block(f, domains).Err? <==>
      f.domain in domains && domains[f.domain].domainType == "CodedValue" && |domains[f.domain].codedValues| == 0
  {
  }

  /** With a listed domain, the heading and three description lines come first. */
  lemma DomainBlockHead(f: Field, domains: map<string, Domain>)
    requires f.domain in domains && Block(f, domains).Ok?
    ensures |Block(f, domains).value| >= 4
    ensures Block(f, domains).value[1..4] == DomainInfo(f, domains[f.domain])
  {
  }

  /** A coded-value block lists the codes after the head: one sorted, aligned line per code. */
  lemma CodedBlock(f: Field, domains: map<string, Domain>)
    requires f.domain in domains && domains[f.domain].domainType == "CodedValue"
    requires |domains[f.domain].codedValues| > 0
    ensures Block(f, domains).Ok?
    ensures |Block(f, domains).value| == 4 + |domains[f.domain].codedValues|
    ensures Sorted(Block(f, domains).value[4..])
  {
    var d := domains[f.domain];
    var lines := CodedLines(d.codedValues).value;
    assert Block(f, domains).value == [Header(f)] + DomainInfo(f, d) + lines;
    assert Block(f, domains).value[4..] == lines;
  }

  /** A range block ends with the minimum and then the maximum. */
  lemma RangeBlock(f: Field, domains: map<string, Domain>)
    requires f.domain in domains && domains[f.domain].domainType == "Range"
    ensures Block(f, domains).Ok? && |Block(f, domains).value| == 6
    ensures Block(f, domains).value[4] == Constants.Tab + "Min: " + domains[f.domain].range.0
    ensures Block(f, domains).value[5] == Constants.Tab + "Max: " + domains[f.domain].range.1
  {
  }

  /**
   * The text of each block, in order, or the error of the first block that fails: the loop of
   * `execute` stops at the first exception. `block` builds one field's lines.
   */
  function Collect(fields: seq<Field>, block: Field -> Result<seq<string>>): (r: Result<seq<string>>)
    ensures r.Ok? ==> |r.value| == |fields|
  {
    if |fields| == 0 then Ok([])
    else
      match Collect(fields[..|fields| - 1], block)
      case Err(e) => Err(e)
      case Ok(texts) =>
        match block(fields[|fields| - 1])
        case Err(e) => Err(e)
        case Ok(lines) => Ok(texts + [Join("\n", lines)])
  }

  /** The block builder of `execute` over the workspace's domains. */
  function BlockOf(domains: map<string, Domain>): Field -> Result<seq<string>>
  {
    f => Block(f, domains)
  }

  /** The blocks of `execute`, one per field. */
  function Blocks(fields: seq<Field>, domains: map<string, Domain>): (r: Result<seq<string>>)
    ensures r.Ok? ==> |r.value| == |fields|
  {
    Collect(fields, BlockOf(domains))
  }

  /** The blocks succeed exactly when every field's block does, and then block `i` is field `i`'s lines joined. */
  lemma BlocksAt(fields: seq<Field>, domains: map<string, Domain>)
    ensures Blocks(fields, domains).Ok? <==> forall i :: 0 <= i < |fields| ==> Block(fields[i], domains).Ok?
    ensures Blocks(fields, domains).Ok? ==>
      forall i :: 0 <= i < |fields| ==> Blocks(fields, domains).value[i] == Join("\n", Block(fields[i], domains).value)
  {
    var block := BlockOf(domains);
    assert forall f :: block(f) == Block(f, domains);
    CollectOk(fields, block);
    if Blocks(fields, domains).Ok? {
      CollectValues(fields, block);
    }
  }

  /** The fold succeeds exactly when every field's block does. */
  lemma {:induction false} CollectOk(fields: seq<Field>, block: Field -> Result<seq<string>>)
    ensures Collect(fields, block).Ok? <==> forall i :: 0 <= i < |fields| ==> block(fields[i]).Ok?
  {
    if |fields| > 0 {
      var init := fields[..|fields| - 1];
      CollectOk(init, block);
      assert forall i :: 0 <= i < |init| ==> init[i] == fields[i];
    }
  }

  /** When the fold succeeds, text `i` is field `i`'s lines joined by newlines. */
  lemma {:induction false} CollectValues(fields: seq<Field>, block: Field -> Result<seq<string>>)
    requires Collect(fields, block).Ok?
    ensures forall i :: 0 <= i < |fields| ==>
      block(fields[i]).Ok? && Collect(fields, block).value[i] == Join("\n", block(fields[i]).value)
  {
    if |fields| > 0 {
      var init := fields[..|fields| - 1];
      CollectValues(init, block);
      assert forall i :: 0 <= i < |init| ==> init[i] == fields[i];
    }
  }

  /** The domains of the workspace by name: `{d.name: d for d in domains}`. */
  function DomainsByName(domains: seq<Domain>): (m: map<string, Domain>)
    ensures forall d :: d in domains ==> d.name in m
    ensures forall n :: n in m ==> m[n] in domains && m[n].name == n
  {
    DictFrom(domains, NameOf)
  }

  /** What `execute` prints: the blocks of the selected fields separated by blank lines. */
  function Report(fields: seq<Field>, domainList: seq<Domain>, fieldsText: string): Result<string>
  {
    match Blocks(SelectFields(fields, fieldsText), DomainsByName(domainList))
    case Err(e) => Err(e)
    case Ok(texts) => Ok(Join("\n\n", texts))
  }

  /**
   * The blocks fail exactly when a field has a coded-value domain without codes; otherwise
   * block `i` is field `i`'s lines joined by newlines.
   */
  lemma BlocksOutcome(selected: seq<Field>, domains: map<string, Domain>)
    ensures Blocks(selected, domains).Err? <==>
      exists i :: 0 <= i < |selected| && selected[i].domain in domains
        && domains[selected[i].domain].domainType == "CodedValue" && |domains[selected[i].domain].codedValues| == 0
    ensures Blocks(selected, domains).Ok? ==>
      Blocks(selected, domains).value == seq(|selected|, i requires 0 <= i < |selected| => Join("\n", Block(selected[i], domains).value))
  {
    BlocksAt(selected, domains);
    forall i | 0 <= i < |selected| {
      BlockFails(selected[i], domains);
    }
  }

  /** `execute`: the domains by name, the selected fields, and the loop that writes their blocks. */
  method Execute(fields: seq<Field>, domainList: seq<Domain>, fieldsText: string) returns (r: Result<string>)
    ensures r == Report(fields, domainList, fieldsText)
  {
    var domains := DomainsByName(domainList);
    var selected := SelectFields(fields, fieldsText);
    r := WriteBlocks(selected, domains);
  }

  /** The loop of `execute`: each selected field's block text appended in turn, the texts joined by blank lines. */
  method WriteBlocks(selected: seq<Field>, domains: map<string, Domain>) returns (r: Result<string>)
    ensures r == match Blocks(selected, domains) case Err(e) => Err(e) case Ok(texts) => Ok(Join("\n\n", texts))
  {
    var block := BlockOf(domains);
    var outMessage: seq<string> := [];
    for i := 0 to |selected|
      invariant Collect(selected[..i], block) == Ok(outMessage)
    {
      var temp := Block(selected[i], domains);
      assert temp == block(selected[i]);
      CollectStep(selected, block, i);
      if temp.Err? {
        CollectPrefixErr(selected, block, i + 1);
        return Err(temp.error);
      }
      outMessage := outMessage + [Join("\n", temp.value)];
    }
    assert selected[..|selected|] == selected;
    return Ok(Join("\n\n", outMessage));
  }

  /** One more field: its block's text is appended, or its error ends the list. */
  lemma CollectStep(fields: seq<Field>, block: Field -> Result<seq<string>>, i: int)
    requires 0 <= i < |fields| && Collect(fields[..i], block).Ok?
    ensures Collect(fields[..i + 1], block) ==
      if block(fields[i]).Err? then Err(block(fields[i]).error)
      else Ok(Collect(fields[..i], block).value + [Join("\n", block(fields[i]).value)])
  {
    assert fields[..i + 1][..i] == fields[..i];
  }

  /** Once a prefix fails, the whole list fails with the same error. */
  lemma {:induction false} CollectPrefixErr(fields: seq<Field>, block: Field -> Result<seq<string>>, n: int)
    requires 0 <= n <= |fields| && Collect(fields[..n], block).Err?
    ensures Collect(fields, block) == Collect(fields[..n], block)
    decreases |fields| - n
  {
    if n < |fields| {
      assert fields[..n + 1][..n] == fields[..n];
      CollectPrefixErr(fields, block, n + 1);
    } else {
      assert fields[..n] == fields;
    }
  }
}
