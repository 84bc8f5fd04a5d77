/**
 * The US state table of `utils/constants.py`: the `STATES` dictionary from two-letter
 * abbreviation to name, its sorted key and value lists, and the two lookups.
 */
module Constants {
  import opened Sorting
  import opened Dicts

  /** `TAB`: five spaces. */
  const Tab: string := "     "

  // The keys of `STATES`, in dictionary order, one constant per source line of the literal.
  const Abbrs0: seq<string> := ["AL", "AK", "AZ", "AR", "CA", "CO", "CT", "DE"]
  const Abbrs1: seq<string> := ["FL", "GA", "HI", "ID", "IL", "IN", "IA", "KS"]
  const Abbrs2: seq<string> := ["KY", "LA", "ME", "MD", "MA", "MI", "MN"]
  const Abbrs3: seq<string> := ["MS", "MO", "MT", "NE", "NV", "NH", "NJ"]
  const Abbrs4: seq<string> := ["NM", "NY", "NC", "ND", "OH", "OK", "OR"]
  const Abbrs5: seq<string> := ["PA", "RI", "SC", "SD", "TN", "TX", "UT"]
  const Abbrs6: seq<string> := ["VT", "VA", "WA", "WV", "WI", "WY"]

  // The values of `STATES`, position for position with the keys.
  const Names0: seq<string> := ["Alabama", "Alaska", "Arizona", "Arkansas", "California", "Colorado", "Connecticut", "Delaware"]
  const Names1: seq<string> := ["Florida", "Georgia", "Hawaii", "Idaho", "Illinois", "Indiana", "Iowa", "Kansas"]
  const Names2: seq<string> := ["Kentucky", "Louisiana", "Maine", "Maryland", "Massachusetts", "Michigan", "Minnesota"]
  const Names3: seq<string> := ["Mississippi", "Missouri", "Montana", "Nebraska", "Nevada", "New Hampshire", "New Jersey"]
  const Names4: seq<string> := ["New Mexico", "New York", "North Carolina", "North Dakota", "Ohio", "Oklahoma", "Oregon"]
  const Names5: seq<string> := ["Pennsylvania", "Rhode Island", "South Carolina", "South Dakota", "Tennessee", "Texas", "Utah"]
  const Names6: seq<string> := ["Vermont", "Virginia", "Washington", "West Virginia", "Wisconsin", "Wyoming"]

  /** `list(STATES.keys())`. */
  const StateAbbrKeys: seq<string> := Abbrs0 + Abbrs1 + Abbrs2 + Abbrs3 + Abbrs4 + Abbrs5 + Abbrs6

  /** `list(STATES.values())`. */
  const StateNameValues: seq<string> := Names0 + Names1 + Names2 + Names3 + Names4 + Names5 + Names6

  /** `STATE_ABBRS`: the keys, sorted. */
  const StateAbbrs: seq<string> := Sort(StateAbbrKeys)

  /** `STATE_NAMES`: the values, sorted. */
  const StateNames: seq<string> := Sort(StateNameValues)

  /** `STATE_ABBR(name)`: the key whose value is `name`, or `name` itself when no state has that name. */
  function StateAbbr(name: string): (r: string)
    ensures name in StateNameValues ==> exists i :: 0 <= i < |StateNameValues| && StateNameValues[i] == name && StateAbbrKeys[i] == r
    ensures name !in StateNameValues ==> r == name
  {
    TableShape();
    if name in StateNameValues then StateAbbrKeys[IndexOf(StateNameValues, name)] else name
  }

  /** `STATE_NAME(abbr)`: `STATES[abbr]` for a known abbreviation, or `abbr` itself. */
  function StateName(abbr: string): (r: string)
    ensures abbr in StateAbbrKeys ==> exists i :: 0 <= i < |StateAbbrKeys| && StateAbbrKeys[i] == abbr && StateNameValues[i] == r
    ensures abbr !in StateAbbrKeys ==> r == abbr
  {
    TableShape();
    if abbr in StateAbbrKeys then StateNameValues[IndexOf(StateAbbrKeys, abbr)] else abbr
  }

  lemma TableShape()
    ensures |StateAbbrKeys| == |StateNameValues| == 50
  {
  }

  // One lemma per line of the literal.
  lemma NamesLine0() ensures forall i :: 0 <= i && i + 1 < |Names0| ==> Below(Names0[i], Names0[i + 1]) {
  }
  lemma AbbrsLine0() ensures PositionedFrom(Abbrs0, 0, 0) {}
  lemma NamesLine1() ensures forall i :: 0 <= i && i + 1 < |Names1| ==> Below(Names1[i], Names1[i + 1]) {
  }
  lemma AbbrsLine1() ensures PositionedFrom(Abbrs1, 0, 8) {}
  lemma NamesLine2() ensures forall i :: 0 <= i && i + 1 < |Names2| ==> Below(Names2[i], Names2[i + 1]) {
  }
  lemma AbbrsLine2() ensures PositionedFrom(Abbrs2, 0, 16) {}
  lemma NamesLine3() ensures forall i :: 0 <= i && i + 1 < |Names3| ==> Below(Names3[i], Names3[i + 1]) {
  }
  lemma AbbrsLine3() ensures PositionedFrom(Abbrs3, 0, 23) {}
  lemma NamesLine4() ensures forall i :: 0 <= i && i + 1 < |Names4| ==> Below(Names4[i], Names4[i + 1]) {
  }
  lemma AbbrsLine4() ensures PositionedFrom(Abbrs4, 0, 30) {}
  lemma NamesLine5() ensures forall i :: 0 <= i && i + 1 < |Names5| ==> Below(Names5[i], Names5[i + 1]) {
  }
  lemma AbbrsLine5() ensures PositionedFrom(Abbrs5, 0, 37) {}
  lemma NamesLine6() ensures forall i :: 0 <= i && i + 1 < |Names6| ==> Below(Names6[i], Names6[i + 1]) {
  }
  lemma AbbrsLine6() ensures PositionedFrom(Abbrs6, 0, 44) {}

  lemma NamesSeams()
    ensures Below(Names0[7], Names1[0]) && Below(Names1[7], Names2[0]) && Below(Names2[6], Names3[0]) && Below(Names3[6], Names4[0]) && Below(Names4[6], Names5[0]) && Below(Names5[6], Names6[0])
  {
  }

  lemma NamesAdjacent()
    ensures forall i :: 0 <= i && i + 1 < |StateNameValues| ==> Below(StateNameValues[i], StateNameValues[i + 1])
  {
    NamesLine0(); NamesLine1(); NamesLine2(); NamesLine3(); NamesLine4(); NamesLine5(); NamesLine6();
    NamesSeams();
    forall i | 0 <= i && i + 1 < |StateNameValues| ensures Below(StateNameValues[i], StateNameValues[i + 1]) {
      if i + 1 < 8 { assert StateNameValues[i] == Names0[i - 0] && StateNameValues[i + 1] == Names0[i + 1 - 0]; }
      else if i + 1 == 8 { assert StateNameValues[i] == Names0[7] && StateNameValues[i + 1] == Names1[0]; }
      else if i + 1 < 16 { assert StateNameValues[i] == Names1[i - 8] && StateNameValues[i + 1] == Names1[i + 1 - 8]; }
      else if i + 1 == 16 { assert StateNameValues[i] == Names1[7] && StateNameValues[i + 1] == Names2[0]; }
      else if i + 1 < 23 { assert StateNameValues[i] == Names2[i - 16] && StateNameValues[i + 1] == Names2[i + 1 - 16]; }
      else if i + 1 == 23 { assert StateNameValues[i] == Names2[6] && StateNameValues[i + 1] == Names3[0]; }
      else if i + 1 < 30 { assert StateNameValues[i] == Names3[i - 23] && StateNameValues[i + 1] == Names3[i + 1 - 23]; }
      else if i + 1 == 30 { assert StateNameValues[i] == Names3[6] && StateNameValues[i + 1] == Names4[0]; }
      else if i + 1 < 37 { assert StateNameValues[i] == Names4[i - 30] && StateNameValues[i + 1] == Names4[i + 1 - 30]; }
      else if i + 1 == 37 { assert StateNameValues[i] == Names4[6] && StateNameValues[i + 1] == Names5[0]; }
      else if i + 1 < 44 { assert StateNameValues[i] == Names5[i - 37] && StateNameValues[i + 1] == Names5[i + 1 - 37]; }
      else if i + 1 == 44 { assert StateNameValues[i] == Names5[6] && StateNameValues[i + 1] == Names6[0]; }
      else { assert StateNameValues[i] == Names6[i - 44] && StateNameValues[i + 1] == Names6[i + 1 - 44]; }
    }
  }

  /** The names are listed in increasing order, so no name repeats. */
  lemma NamesIncreasing()
    ensures Increasing(StateNameValues)
  {
    NamesAdjacent();
    ChainAdjacent(StateNameValues, 0);
    ChainIncreasing(StateNameValues, 0);
  }

  /** A two-letter abbreviation as a number, so that abbreviations compare as integers. */
  function Code(a: string): int
  {
    if |a| == 2 then a[0] as int * 256 + a[1] as int else -1
  }

  /** Where each abbreviation's code sits in `STATES`; a function, so no code can sit at two places. */
  function AbbrPosition(code: int): int
  {
    if code == 16716 then 0
    else if code == 16715 then 1
    else if code == 16730 then 2
    else if code == 16722 then 3
    else if code == 17217 then 4
    else if code == 17231 then 5
    else if code == 17236 then 6
    else if code == 17477 then 7
    else if code == 17996 then 8
    else if code == 18241 then 9
    else if code == 18505 then 10
    else if code == 18756 then 11
    else if code == 18764 then 12
    else if code == 18766 then 13
    else if code == 18753 then 14
    else if code == 19283 then 15
    else if code == 19289 then 16
    else if code == 19521 then 17
    else if code == 19781 then 18
    else if code == 19780 then 19
    else if code == 19777 then 20
    else if code == 19785 then 21
    else if code == 19790 then 22
    else if code == 19795 then 23
    else if code == 19791 then 24
    else if code == 19796 then 25
    else if code == 20037 then 26
    else if code == 20054 then 27
    else if code == 20040 then 28
    else if code == 20042 then 29
    else if code == 20045 then 30
    else if code == 20057 then 31
    else if code == 20035 then 32
    else if code == 20036 then 33
    else if code == 20296 then 34
    else if code == 20299 then 35
    else if code == 20306 then 36
    else if code == 20545 then 37
    else if code == 21065 then 38
    else if code == 21315 then 39
    else if code == 21316 then 40
    else if code == 21582 then 41
    else if code == 21592 then 42
    else if code == 21844 then 43
    else if code == 22100 then 44
    else if code == 22081 then 45
    else if code == 22337 then 46
    else if code == 22358 then 47
    else if code == 22345 then 48
    else if code == 22361 then 49
    else -1
  }

  predicate PositionedFrom(s: seq<string>, k: nat, base: int)
    decreases |s| - k
  {
    k >= |s| || (AbbrPosition(Code(s[k])) == base + k && PositionedFrom(s, k + 1, base))
  }

  lemma {:induction false} PositionedAll(s: seq<string>, k: nat, base: int)
    requires PositionedFrom(s, k, base)
    ensures forall i :: k <= i < |s| ==> AbbrPosition(Code(s[i])) == base + i
    decreases |s| - k
  {
    if k < |s| { PositionedAll(s, k + 1, base); }
  }

  lemma AbbrsPositioned()
    ensures forall i :: 0 <= i < |StateAbbrKeys| ==> AbbrPosition(Code(StateAbbrKeys[i])) == i
  {
    AbbrsLine0(); AbbrsLine1(); AbbrsLine2(); AbbrsLine3(); AbbrsLine4(); AbbrsLine5(); AbbrsLine6();
    PositionedAll(Abbrs0, 0, 0);
    PositionedAll(Abbrs1, 0, 8);
    PositionedAll(Abbrs2, 0, 16);
    PositionedAll(Abbrs3, 0, 23);
    PositionedAll(Abbrs4, 0, 30);
    PositionedAll(Abbrs5, 0, 37);
    PositionedAll(Abbrs6, 0, 44);
    forall i | 0 <= i < |StateAbbrKeys| ensures AbbrPosition(Code(StateAbbrKeys[i])) == i {
      if i < 8 { assert StateAbbrKeys[i] == Abbrs0[i - 0]; }
      else if i < 16 { assert StateAbbrKeys[i] == Abbrs1[i - 8]; }
      else if i < 23 { assert StateAbbrKeys[i] == Abbrs2[i - 16]; }
      else if i < 30 { assert StateAbbrKeys[i] == Abbrs3[i - 23]; }
      else if i < 37 { assert StateAbbrKeys[i] == Abbrs4[i - 30]; }
      else if i < 44 { assert StateAbbrKeys[i] == Abbrs5[i - 37]; }
      else { assert StateAbbrKeys[i] == Abbrs6[i - 44]; }
    }
  }

  /** No abbreviation occurs twice among the keys. */
  lemma AbbrsDistinct()
    ensures forall i, j :: 0 <= i < j < |StateAbbrKeys| ==> StateAbbrKeys[i] != StateAbbrKeys[j]
  {
    AbbrsPositioned();
  }

  /** Going from a known name to its abbreviation and back gives the name. */
  lemma NameAbbrRoundTrip(name: string)
    requires name in StateNameValues
    ensures StateName(StateAbbr(name)) == name
  {
    AbbrsDistinct();
    var i := IndexOf(StateNameValues, name);
    var j := IndexOf(StateAbbrKeys, StateAbbrKeys[i]);
    assert i == j;
  }

  /** Going from a known abbreviation to its name and back gives the abbreviation. */
  lemma AbbrNameRoundTrip(abbr: string)
    requires abbr in StateAbbrKeys
    ensures StateAbbr(StateName(abbr)) == abbr
  {
    NamesIncreasing();
    TableShape();
    var i := IndexOf(StateAbbrKeys, abbr);
    var j := IndexOf(StateNameValues, StateNameValues[i]);
    IncreasingDistinct(StateNameValues, i, j);
  }

  /** `STATE_NAMES` is the values in their own order: the literal already lists the names sorted. */
  lemma SortedNamesAreValues()
    ensures StateNames == StateNameValues
  {
    NamesIncreasing();
    IncreasingIsSorted(StateNameValues);
    SortedUnique(StateNames, StateNameValues);
  }
}
