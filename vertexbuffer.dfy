/**
 * The "Vertex Buffer" production tool (`tools/production/VertexBuffer.py`): the output
 * suffix it derives from the buffer distance, the where clause that restricts the buffered
 * rows to the layer's selection and definition query, and the split of the distance text
 * into a number and a unit. The buffering itself is geometry and is not part of this model.
 */
module VertexBuffer {
  import opened Wrappers
  import opened Text
  import ArcHelp
  import Models

  /** The distance parameter's initial value. */
  const DefaultDistance: string := "10 Meters"

  /** The suffix parameter's initial value. */
  const DefaultSuffix: string := "_10_Meter_Buffers"

  /** The characters a suffix may hold: those `sanitize_filename` keeps, except the space. */
  predicate SuffixChar(c: char)
  {
    IsAlnum(c) || c == '_' || c == '-'
  }

  /** Every character of `s.replace(x, y)` comes from `y`, or is a character of `s` other than `x`. */
  lemma {:induction false} ReplaceChars(s: string, x: char, y: string)
    ensures forall k :: 0 <= k < |Replace(s, x, y)| ==>
      Replace(s, x, y)[k] in y || (Replace(s, x, y)[k] in s && Replace(s, x, y)[k] != x)
  {
    if |s| > 0 {
      ReplaceChars(s[1..], x, y);
      assert Replace(s, x, y) == (if s[0] == x then y else [s[0]]) + Replace(s[1..], x, y);
    }
  }

  /** The middle of the suffix: the sanitised distance with its spaces turned into underscores. */
  function DistanceWord(distance: string): (r: string)
    ensures forall k :: 0 <= k < |r| ==> SuffixChar(r[k])
  {
    var clean := ArcHelp.SanitizeFilename(distance);
    ReplaceChars(clean, ' ', "_");
    Replace(clean, ' ', "_")
  }

  /** What the suffix ends with: `_Vertex_Buffers` per vertex, `_Buffers` otherwise. */
  function Tail(perVertex: bool): string
  {
    if perVertex then "_Vertex_Buffers" else "_Buffers"
  }

  /**
   * `updateParameters`: no suffix for an empty distance; otherwise an underscore, the
   * distance word, and the tail chosen by the per-vertex flag.
   */
  function Suffix(distance: string, perVertex: bool): (r: string)
    ensures distance == "" <==> r == ""
    ensures distance != "" ==> |r| == 1 + |DistanceWord(distance)| + |Tail(perVertex)|
    ensures distance != "" ==> StartsWith(r, "_") && EndsWith(r, Tail(perVertex))
    ensures distance != "" ==> r[1..|r| - |Tail(perVertex)|] == DistanceWord(distance)
    ensures forall k :: 0 <= k < |r| ==> SuffixChar(r[k])
  {
    if distance == "" then ""
    else
      var word, tail := DistanceWord(distance), Tail(perVertex);
      var r := "_" + word + tail;
      TailChars(perVertex);
      forall k | 0 <= k < |r|
        ensures SuffixChar(r[k])
      {
        if 0 < k <= |word| {
          assert r[k] == word[k - 1];
        } else if k > |word| {
          assert r[k] == tail[k - 1 - |word|];
        }
      }
      assert r[1..|r| - |tail|] == word;
      assert r[|r| - |tail|..] == tail;
      r
  }

  /**
   * `updateParameters` on the parameter's `valueAsText`: an unset distance is not `""`, so it
   * reaches `sanitize_filename`, which raises a TypeError on None; a set distance gives `Suffix`.
   */
  function SuffixOfParameter(distance: PyStr, perVertex: bool): (r: Result<string>)
    ensures r.Err? <==> distance.PyNone?
    ensures r.Err? ==> r.error.TypeError?
    ensures r.Ok? ==> (r.value == "" <==> distance.text == "")
    ensures r.Ok? && distance.text != "" ==>
      |r.value| == 1 + |DistanceWord(distance.text)| + |Tail(perVertex)| &&
      StartsWith(r.value, "_") && EndsWith(r.value, Tail(perVertex)) &&
      r.value[1..|r.value| - |Tail(perVertex)|] == DistanceWord(distance.text)
    ensures r.Ok? ==> forall k :: 0 <= k < |r.value| ==> SuffixChar(r.value[k])
  {
    match distance
    case PyNone => Err(TypeError("sanitize_filename: None"))
    case Str(text) => Ok(Suffix(text, perVertex))
  }

  lemma TailChars(perVertex: bool)
    ensures forall k :: 0 <= k < |Tail(perVertex)| ==> SuffixChar(Tail(perVertex)[k])
  {
  }

  /** A distance made only of kept characters appears in the suffix as it is, spaces as underscores. */
  lemma SuffixOfCleanDistance(distance: string, perVertex: bool)
    requires distance != ""
    requires forall k :: 0 <= k < |distance| ==> ArcHelp.Allowed(distance[k])
    ensures Suffix(distance, perVertex) == "_" + Replace(distance, ' ', "_") + Tail(perVertex)
  {
    ArcHelp.SanitizeFixedPoint(distance);
  }

  /** A number and a unit of suffix characters, with a space between, hold only kept characters. */
  lemma WordsAllowed(number: string, unit: string)
    requires forall k :: 0 <= k < |number| ==> SuffixChar(number[k])
    requires forall k :: 0 <= k < |unit| ==> SuffixChar(unit[k])
    ensures forall k :: 0 <= k < |number + [' '] + unit| ==> ArcHelp.Allowed((number + [' '] + unit)[k])
  {
    var distance := number + [' '] + unit;
    forall k | 0 <= k < |distance|
      ensures ArcHelp.Allowed(distance[k])
    {
      if k < |number| {
        assert distance[k] == number[k];
      } else if k > |number| {
        assert distance[k] == unit[k - |number| - 1];
      }
    }
  }

  /** Replacing the one space between two plain words gives them joined by an underscore. */
  lemma ReplaceWords(number: string, unit: string)
    requires ' ' !in number && ' ' !in unit
    ensures Replace(number + [' '] + unit, ' ', "_") == number + "_" + unit
  {
    var space: string := [' '];
    assert Replace(space, ' ', "_") == "_" by {
      assert space[0] == ' ' && space[1..] == [];
    }
    ReplaceAppend(number, space, ' ', "_");
    ReplaceAppend(number + space, unit, ' ', "_");
  }

  /** A distance written as a number and a unit, both plain words, gives `_{number}_{unit}` and the tail. */
  lemma SuffixOfWords(number: string, unit: string, perVertex: bool)
    requires forall k :: 0 <= k < |number| ==> SuffixChar(number[k])
    requires forall k :: 0 <= k < |unit| ==> SuffixChar(unit[k])
    ensures Suffix(number + " " + unit, perVertex) == "_" + (number + "_" + unit) + Tail(perVertex)
  {
    var distance := number + [' '] + unit;
    assert number + " " + unit == distance;
    WordsAllowed(number, unit);
    SuffixOfCleanDistance(distance, perVertex);
    assert ' ' !in number && ' ' !in unit;
    ReplaceWords(number, unit);
  }

  /** The suffix recomputed from the default distance is not the default suffix: `Meters` against `Meter`. */
  lemma DefaultSuffixDiffers()
    ensures Suffix(DefaultDistance, false) == "_10_Meters_Buffers" != DefaultSuffix
  {
    var number, unit := "10", "Meters";
    DefaultWords(number, unit);
    SuffixOfWords(number, unit, false);
  }

  /** The default distance's two words, and the suffix they would give. */
  lemma DefaultWords(number: string, unit: string)
    requires number == "10" && unit == "Meters"
    ensures forall k :: 0 <= k < |number| ==> SuffixChar(number[k])
    ensures forall k :: 0 <= k < |unit| ==> SuffixChar(unit[k])
    ensures number + " " + unit == DefaultDistance
    ensures "_" + (number + "_" + unit) + Tail(false) == "_10_Meters_Buffers" != DefaultSuffix
  {
  }

  /**
   * The where clause of `execute`. An empty selection and a falsy definition query count as
   * absent; with both present the definition query comes first, joined by ` AND ` to the
   * `IN` clause on the object id field; with neither there is no clause.
   */
  function WhereClause(oidField: string, selection: seq<int>, definitionQuery: PyStr): (r: PyStr)
    ensures r.PyNone? <==> |selection| == 0 && !definitionQuery.Truthy()
    ensures |selection| > 0 ==> r.Str? && EndsWith(r.text, Models.OidInClause(oidField, selection))
    ensures definitionQuery.Truthy() ==> r.Str? && StartsWith(r.text, definitionQuery.text)
    ensures |selection| == 0 && definitionQuery.Truthy() ==> r == definitionQuery
    ensures |selection| > 0 && !definitionQuery.Truthy() ==> r.text == Models.OidInClause(oidField, selection)
    ensures |selection| > 0 && definitionQuery.Truthy() ==>
      r == Str(definitionQuery.text + " AND " + Models.OidInClause(oidField, selection))
  {
    var hasSelection := |selection| > 0;
    var hasQuery := definitionQuery.Truthy();
    if hasSelection && hasQuery then
      Str(definitionQuery.text + " AND " + Models.OidInClause(oidField, selection))
    else if hasSelection then Str(Models.OidInClause(oidField, selection))
    else if hasQuery then definitionQuery
    else PyNone
  }

  /** The ids in the clause read back, comma by comma, as the selected object ids. */
  lemma WhereClauseIds(oidField: string, selection: seq<nat>, definitionQuery: PyStr)
    requires |selection| > 0
    ensures exists before: string ::
              WhereClause(oidField, selection, definitionQuery).text == before + oidField + " IN (" + Models.IdList(selection) + ")"
    ensures |Split(Models.IdList(selection), ',')| == |selection|
    ensures forall k :: 0 <= k < |selection| ==> DigitsValue(Split(Models.IdList(selection), ',')[k]) == selection[k]
  {
    Models.IdListRoundTrip(selection);
    var clause := Models.OidInClause(oidField, selection);
    if definitionQuery.Truthy() {
      var before := definitionQuery.text + " AND ";
      assert WhereClause(oidField, selection, definitionQuery).text == before + oidField + " IN (" + Models.IdList(selection) + ")";
    } else {
      assert WhereClause(oidField, selection, definitionQuery).text == "" + oidField + " IN (" + Models.IdList(selection) + ")";
    }
  }

  /** `distance, units = text.split(" ")`: exactly two words, else a `ValueError`. */
  function DistanceParts(text: string): (r: Result<(string, string)>)
    ensures r.Err? <==> |Split(text, ' ')| != 2
    ensures r.Ok? ==> r.value.0 + " " + r.value.1 == text
    ensures r.Ok? ==> ' ' !in r.value.0 && ' ' !in r.value.1
  {
    var words := Split(text, ' ');
    if |words| != 2 then Err(ValueError(text))
    else
      JoinSplit(text, ' ');
      SplitPieces(text, ' ');
      assert Join(" ", words) == words[0] + " " + Join(" ", words[1..]);
      Ok((words[0], words[1]))
  }

  /** A number and a unit with a space between them split back into the two. */
  lemma DistancePartsOf(number: string, unit: string)
    requires ' ' !in number && ' ' !in unit
    ensures DistanceParts(number + " " + unit) == Ok((number, unit))
  {
    SplitConcat(number, ' ', unit);
    SplitNoSep(unit, ' ');
    assert number + " " + unit == number + [' '] + unit;
  }
}
