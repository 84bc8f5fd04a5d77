/**
 * `utils/utilities.py`: the `Formatting` tab helper and the `States` class, whose
 * `_STATES` dictionary maps each state name to its abbreviation.
 */
module Utilities {
  import opened Text
  import opened Sorting
  import Constants
  import Dicts

  /** `Formatting.TAB`: five spaces. */
  const Tab: string := "     "

  /** `Formatting().TABS(number)`: `TAB * number`. */
  function Tabs(number: int): (r: string)
    ensures |r| == 5 * (if number < 0 then 0 else number)
    ensures forall k :: 0 <= k < |r| ==> r[k] == ' '
  {
    RepeatUniform(Tab, number, ' ');
    RepeatLength(Tab, number);
    Repeat(Tab, number)
  }

  /** `list(_STATES.keys())`: the same fifty pairs as `STATES`, in the same order, name first. */
  const NameKeys: seq<string> := Constants.StateNameValues

  /** `list(_STATES.values())`. */
  const AbbrValues: seq<string> := Constants.StateAbbrKeys

  /** `States.STATE_NAMES`: the keys, sorted. */
  const StateNames: seq<string> := Sort(NameKeys)

  /** `States.STATE_ABBRS`: the values, sorted. */
  const StateAbbrs: seq<string> := Sort(AbbrValues)

  /** `States().STATE_NAME(abbr)`: the first name whose value is `abbr`, or `abbr` itself. */
  function StateName(abbr: string): (r: string)
    ensures abbr in AbbrValues ==> exists i :: 0 <= i < |AbbrValues| && AbbrValues[i] == abbr && NameKeys[i] == r
    ensures abbr !in AbbrValues ==> r == abbr
  {
    Constants.TableShape();
    if abbr in AbbrValues then NameKeys[Dicts.IndexOf(AbbrValues, abbr)] else abbr
  }

  /** `States().STATE_ABBR(name)`: `_STATES[name]` for a known name, or `name` itself. */
  function StateAbbr(name: string): (r: string)
    ensures name in NameKeys ==> exists i :: 0 <= i < |NameKeys| && NameKeys[i] == name && AbbrValues[i] == r
    ensures name !in NameKeys ==> r == name
  {
    Constants.TableShape();
    if name in NameKeys then AbbrValues[Dicts.IndexOf(NameKeys, name)] else name
  }

  /** For every key `n` of `_STATES`, `STATE_NAME(STATE_ABBR(n)) == n`. */
  lemma NameAbbrRoundTrip(name: string)
    requires name in NameKeys
    ensures StateName(StateAbbr(name)) == name
  {
    Constants.AbbrsDistinct();
    Constants.TableShape();
    var i := Dicts.IndexOf(NameKeys, name);
    var j := Dicts.IndexOf(AbbrValues, AbbrValues[i]);
    assert i == j;
  }

  /** For every value `a` of `_STATES`, `STATE_ABBR(STATE_NAME(a)) == a`. */
  lemma AbbrNameRoundTrip(abbr: string)
    requires abbr in AbbrValues
    ensures StateAbbr(StateName(abbr)) == abbr
  {
    Constants.NamesIncreasing();
    Constants.TableShape();
    var i := Dicts.IndexOf(AbbrValues, abbr);
    var j := Dicts.IndexOf(NameKeys, NameKeys[i]);
    IncreasingDistinct(NameKeys, i, j);
  }

  /** The two copies of the table give the same lookups. */
  lemma AgreesWithConstants(s: string)
    ensures StateName(s) == Constants.StateName(s)
    ensures StateAbbr(s) == Constants.StateAbbr(s)
  {
  }

  /** `STATE_NAMES` is the keys in their own order, and `STATE_ABBRS` is the same list as in `utils/constants.py`. */
  lemma SortedLists()
    ensures StateNames == NameKeys
    ensures StateAbbrs == Constants.StateAbbrs
  {
    Constants.SortedNamesAreValues();
  }
}
