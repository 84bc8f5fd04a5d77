/**
 * The "Zoom To HUC" map tool (`tools/map/ZoomToHUC_map.py`): the hydrologic unit layers
 * of the USGS watershed service, the query that fills the watershed pick list, the
 * `"{name} [{code}]"` labels of that list, and the extent filter built back from a label.
 * The service itself is a parameter: its answer is the list of (name, code) pairs.
 */
module ZoomToHuc {
  import opened Wrappers
  import opened Text
  import opened Sorting
  import Constants

  /** `huc_layers`: the service layer number of each hydrologic unit level. */
  const HucLayers: map<string, int> :=
    map["HUC2" := 1, "HUC4" := 2, "HUC6" := 3, "HUC8" := 4,
        "HUC10" := 5, "HUC12" := 6, "HUC14" := 7, "HUC16" := 8]

  /** The level name for layer `k`: `"HUC"` followed by the digit count `2k`. */
  function LevelName(k: nat): string
  {
    "HUC" + NatToString(2 * k)
  }

  /** The levels are exactly `HUC2` … `HUC16`, and level `HUC{2k}` is layer `k`. */
  lemma LayerNumbering()
    ensures forall k :: 1 <= k <= 8 ==> LevelName(k) in HucLayers && HucLayers[LevelName(k)] == k
    ensures forall level :: level in HucLayers ==> exists k :: 1 <= k <= 8 && level == LevelName(k)
  {
    assert LevelName(1) == "HUC2" && LevelName(2) == "HUC4" && LevelName(3) == "HUC6";
    assert LevelName(4) == "HUC8" && LevelName(5) == "HUC10" && LevelName(6) == "HUC12";
    assert LevelName(7) == "HUC14" && LevelName(8) == "HUC16";
  }

  /** No level name holds a comma, and every level is one of the eight layers. */
  lemma LevelsHaveNoComma(level: string)
    requires level in HucLayers
    ensures ',' !in level
    ensures 1 <= HucLayers[level] <= 8
  {
    assert level == "HUC2" || level == "HUC4" || level == "HUC6" || level == "HUC8"
      || level == "HUC10" || level == "HUC12" || level == "HUC14" || level == "HUC16";
  }

  /** Lower-casing neither adds nor removes a character that is not a letter. */
  lemma LowerKeepsComma(s: string)
    requires ',' !in s
    ensures ',' !in Lower(s)
  {
    forall k | 0 <= k < |s|
      ensures Lower(s)[k] != ','
    {
      assert Lower(s)[k] == LowerChar(s[k]);
    }
  }

  /** The request sent to layer `layer` of the service to list a state's watersheds. */
  datatype WatershedRequest = WatershedRequest(layer: int, where: string, outFields: string)

  /** The quoted state filter `states LIKE '%{abbr}%'`. */
  function StateFilter(abbr: string): (r: string)
    ensures |r| == |abbr| + 16
    ensures StartsWith(r, "states LIKE '%") && EndsWith(r, "%'")
    ensures r[14..|r| - 2] == abbr
  {
    "states LIKE '%" + abbr + "%'"
  }

  /** The request for layer `layer`: the state filter on `abbr`, and the level's code field with `name`. */
  function Request(layer: int, level: string, abbr: string): (r: WatershedRequest)
    requires ',' !in Lower(level)
    ensures r.layer == layer
    ensures |r.where| == |abbr| + 16 && r.where[14..|r.where| - 2] == abbr
    ensures Split(r.outFields, ',') == [Lower(level), "name"]
  {
    SplitConcat(Lower(level), ',', "name");
    SplitNoSep("name", ',');
    WatershedRequest(layer, StateFilter(abbr), Lower(level) + [','] + "name")
  }

  /**
   * The request of `updateParameters`: the layer of the chosen level (a `KeyError` for an
   * unknown level), the state filter on the state's abbreviation, and the level's code
   * field together with `name`.
   */
  function WatershedQuery(level: string, state: string): (r: Result<WatershedRequest>)
    ensures r.Err? <==> level !in HucLayers
    ensures r.Err? ==> r.error == KeyError(level)
    ensures r.Ok? ==> r.value.layer == HucLayers[level] && 1 <= r.value.layer <= 8
    ensures r.Ok? ==> |r.value.where| >= 16 && r.value.where[14..|r.value.where| - 2] == Constants.StateAbbr(state)
    ensures r.Ok? ==> Split(r.value.outFields, ',') == [Lower(level), "name"]
  {
    if level !in HucLayers then Err(KeyError(level))
    else
      LevelsHaveNoComma(level);
      LowerKeepsComma(level);
      var request := Request(HucLayers[level], level, Constants.StateAbbr(state));
      Ok(request)
  }

  /** One watershed of the service's answer: its name and its code. */
  datatype Watershed = Watershed(name: string, code: string)

  /** A pick-list entry: `"{name} [{code}]"`. */
  function Label(w: Watershed): string
  {
    w.name + " [" + w.code + "]"
  }

  /** The labels of an answer, in the order the service gave them. */
  function Labels(ws: seq<Watershed>): (r: seq<string>)
    ensures |r| == |ws|
    ensures forall i :: 0 <= i < |ws| ==> r[i] == Label(ws[i])
    ensures forall i :: 0 <= i < |ws| && ' ' !in ws[i].code ==> ParseHuc(r[i]) == ws[i].code
  {
    forall i | 0 <= i < |ws| && ' ' !in ws[i].code
      ensures ParseHuc(Label(ws[i])) == ws[i].code
    {
      ParseLabel(ws[i]);
    }
    seq(|ws|, i requires 0 <= i < |ws| => Label(ws[i]))
  }

  /** The watershed parameter: its pick list and its value. */
  datatype PickList = PickList(choices: seq<string>, value: PyStr)

  /** The pick list after an answer: every label once per watershed, sorted, and no value chosen. */
  function Refresh(ws: seq<Watershed>): (r: PickList)
    ensures Sorted(r.choices)
    ensures multiset(r.choices) == multiset(Labels(ws))
    ensures r.value == PyNone
  {
    PickList(Sort(Labels(ws)), PyNone)
  }

  /**
   * `updateParameters` on the watershed list: only when the state or the level changed, and
   * only when the level is known. `answer` is the service's list of watersheds, or `None` when
   * the request raised (no connection, a bad response); the bare `except` swallows that and
   * every other failure, leaving the list as it was.
   */
  function UpdateParameters(changed: bool, current: PickList, level: string, state: string, answer: Option<seq<Watershed>>): (r: PickList)
    ensures !changed || level !in HucLayers || answer.None? ==> r == current
    ensures changed && level in HucLayers && answer.Some? ==>
      Sorted(r.choices) && multiset(r.choices) == multiset(Labels(answer.value)) && r.value == PyNone
  {
    if changed && WatershedQuery(level, state).Ok? && answer.Some? then Refresh(answer.value) else current
  }

  /** Python's `s[1:-1]`: drop the first and the last character. */
  function InnerSlice(s: string): (r: string)
    ensures |s| >= 2 ==> [s[0]] + r + [s[|s| - 1]] == s
    ensures |s| < 2 ==> r == ""
  {
    if |s| < 2 then "" else s[1..|s| - 1]
  }

  /** The code read back from a pick-list entry: the last space-separated word, without its brackets. */
  function ParseHuc(choice: string): string
  {
    var words := Split(choice, ' ');
    InnerSlice(words[|words| - 1])
  }

  /** Reading a label back gives its code, whatever the name, when the code holds no space. */
  lemma ParseLabel(w: Watershed)
    requires ' ' !in w.code
    ensures ParseHuc(Label(w)) == w.code
  {
    var bracketed := "[" + w.code + "]";
    assert Label(w) == w.name + [' '] + bracketed;
    SplitAppend(w.name, ' ', bracketed);
    SplitNoSep(bracketed, ' ');
  }

  /** Every entry of a refreshed pick list reads back as the code of a watershed with that label. */
  lemma ChoicesParse(ws: seq<Watershed>, choice: string)
    requires forall i :: 0 <= i < |ws| ==> ' ' !in ws[i].code
    requires choice in Refresh(ws).choices
    ensures exists i :: 0 <= i < |ws| && Label(ws[i]) == choice && ParseHuc(choice) == ws[i].code
  {
    assert choice in multiset(Refresh(ws).choices);
    assert choice in Labels(ws);
    var i :| 0 <= i < |ws| && Labels(ws)[i] == choice;
    ParseLabel(ws[i]);
  }

  /**
   * The extent query of `execute`: a `KeyError` for an unknown level (not caught there), else
   * `{level lower-cased} = '{code}'` with the code read back from the chosen entry.
   */
  function ExtentFilter(level: string, choice: string): (r: Result<string>)
    ensures r.Err? <==> level !in HucLayers
    ensures r.Ok? ==> StartsWith(r.value, Lower(level) + " = '") && EndsWith(r.value, "'")
  {
    if level !in HucLayers then Err(KeyError(level))
    else Ok(Lower(level) + " = '" + ParseHuc(choice) + "'")
  }

  /** Choosing an entry built from a watershed filters the extent query on that watershed's code. */
  lemma ExtentOfLabel(level: string, w: Watershed)
    requires level in HucLayers && ' ' !in w.code
    ensures ExtentFilter(level, Label(w)) == Ok(Lower(level) + " = '" + w.code + "'")
  {
    ParseLabel(w);
  }
}
