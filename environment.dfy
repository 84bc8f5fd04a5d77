/**
 * `utils/environment.py`: `Environment`, a dataclass of geoprocessing settings
 * that, used as a context manager, overlays its set fields onto the global
 * `arcpy.env` and puts the previous values back on exit. The global environment
 * is modelled as a class holding a map from setting name to value, the names it
 * refuses to write (read-only properties) and the values it rejects.
 */
module Environments {
  import opened Wrappers
  import opened Text
  import Dicts

  /** The setting fields of the dataclass, after `_existing_env`, in declaration order. */
  const FieldNames: seq<string> := ["addOutputsToMap", "annotationTextStringFieldLength", "autoCancelling", "autoCommit", "baDataSource", "baNetworkSource", "baUseDetailedAggregation", "buildStatsAndRATForTempRaster", "cartographicCoordinateSystem", "cartographicPartitions", "cellAlignment", "cellSize", "cellSizeProjectionMethod", "coincidentPoints", "compression", "configKeyword", "daylightSaving", "extent", "geographicTransformations", "gpuId", "isCancelled", "maintainAttachments", "maintainCurveSegments", "maintainSpatialIndex", "mask", "matchMultidimensionalVariable", "MDomain", "MResolution", "MTolerance", "nodata", "outputCoordinateSystem", "outputMFlag", "outputZFlag", "outputZValue", "overwriteOutput", "packageWorkspace", "parallelProcessingFactor", "preserveGlobalIds", "processingServer", "processingServerPassword", "processingServerUser", "processorType", "pyramid", "qualifiedFieldNames", "randomGenerator", "rasterStatistics", "recycleProcessingWorkers", "referenceScale", "resamplingMethod", "retryOnFailures", "S100FeatureCatalogueFile", "scratchFolder", "scratchGDB", "scratchWorkspace", "scriptWorkspace", "snapRaster", "terrainMemoryUsage", "tileSize", "timeZone", "tinSaveVersion", "transferDomains", "transferGDBAttributeProperties", "unionDimension", "useCompatibleFieldTypes", "workspace", "XYDomain", "XYResolution", "XYTolerance", "ZDomain", "ZResolution", "ZTolerance"]

  /** A dataclass field: the `UNSET` sentinel or a value, represented by its text. */
  datatype Setting = Unset | Value(v: string)

  /** What `setattr(env, key, value)` does: it writes, raises AttributeError (read-only) or raises IndexError. */
  datatype SetOutcome = Accepted | ReadOnly | Rejected

  function Outcome(readOnly: set<string>, rejected: set<(string, string)>, key: string, value: string): SetOutcome
  {
    if key in readOnly then ReadOnly else if (key, value) in rejected then Rejected else Accepted
  }

  /** `arcpy.env`: the settings it has, in iteration order, with their current values. */
  class GeoprocessingEnv {
    const keys: seq<string>
    const readOnly: set<string>
    const rejected: set<(string, string)>
    var values: map<string, string>

    predicate Valid()
      reads this
    {
      (forall i, j :: 0 <= i < j < |keys| ==> keys[i] != keys[j]) &&
      (forall k :: k in values ==> k in keys) && (forall k :: k in keys ==> k in values)
    }

    constructor (keys: seq<string>, values: map<string, string>, readOnly: set<string>, rejected: set<(string, string)>)
      requires forall i, j :: 0 <= i < j < |keys| ==> keys[i] != keys[j]
      requires forall k :: k in values <==> k in keys
      ensures Valid()
      ensures this.keys == keys && this.values == values && this.readOnly == readOnly && this.rejected == rejected
    {
      this.keys := keys;
      this.values := values;
      this.readOnly := readOnly;
      this.rejected := rejected;
    }

    /** `setattr(env, key, value)` on a setting the environment has. */
    method SetAttr(key: string, value: string) returns (outcome: SetOutcome)
      requires Valid() && key in values
      modifies this`values
      ensures Valid()
      ensures outcome == Outcome(readOnly, rejected, key, value)
      ensures values == if outcome == Accepted then old(values)[key := value] else old(values)
    {
      outcome := Outcome(readOnly, rejected, key, value);
      if outcome == Accepted {
        values := values[key := value];
      }
    }
  }

  /** `dict(env)`: every setting with its value, in the environment's order. */
  function Snapshot(keys: seq<string>, values: map<string, string>): (r: seq<(string, string)>)
    requires forall k :: k in keys ==> k in values
    ensures |r| == |keys|
    ensures forall i :: 0 <= i < |keys| ==> r[i] == (keys[i], values[keys[i]])
    ensures forall readOnly, rejected :: Restore(values, readOnly, rejected, r) == values
  {
    var r := seq(|keys|, i requires 0 <= i < |keys| => (keys[i], values[keys[i]]));
    RestoreSaved(values, r);
    r
  }

  /** Writing back values the environment already holds changes nothing, whatever it refuses. */
  lemma RestoreSaved(values: map<string, string>, snapshot: seq<(string, string)>)
    requires forall i :: 0 <= i < |snapshot| ==> snapshot[i].0 in values && values[snapshot[i].0] == snapshot[i].1
    ensures forall readOnly, rejected :: Restore(values, readOnly, rejected, snapshot) == values
  {
    forall readOnly, rejected
      ensures Restore(values, readOnly, rejected, snapshot) == values
    {
      RestoreSame(values, readOnly, rejected, snapshot);
    }
  }

  lemma {:induction false} RestoreSame(values: map<string, string>, readOnly: set<string>, rejected: set<(string, string)>,
                                       snapshot: seq<(string, string)>)
    requires forall i :: 0 <= i < |snapshot| ==> snapshot[i].0 in values && values[snapshot[i].0] == snapshot[i].1
    ensures Restore(values, readOnly, rejected, snapshot) == values
  {
    if |snapshot| > 0 {
      var last := snapshot[|snapshot| - 1];
      RestoreSame(values, readOnly, rejected, snapshot[..|snapshot| - 1]);
      assert values[last.0 := last.1] == values;
    }
  }

  /** One pass of the `__enter__` loop: write a set field the environment has when its value differs. */
  function OverlayStep(values: map<string, string>, readOnly: set<string>, rejected: set<(string, string)>,
                       key: string, setting: Setting): map<string, string>
  {
    if key in values && setting.Value? && values[key] != setting.v &&
       Outcome(readOnly, rejected, key, setting.v) == Accepted
    then values[key := setting.v]
    else values
  }

  /** The environment after `__enter__` has gone through `settings` in order. */
  function Overlay(values: map<string, string>, readOnly: set<string>, rejected: set<(string, string)>,
                   settings: seq<(string, Setting)>): map<string, string>
  {
    if |settings| == 0 then values
    else
      var last := settings[|settings| - 1];
      OverlayStep(Overlay(values, readOnly, rejected, settings[..|settings| - 1]), readOnly, rejected, last.0, last.1)
  }

  /** One pass of the `__exit__` loop: write the saved value back unless the environment refuses it. */
  function RestoreStep(values: map<string, string>, readOnly: set<string>, rejected: set<(string, string)>,
                       key: string, value: string): map<string, string>
  {
    if Outcome(readOnly, rejected, key, value) == Accepted then values[key := value] else values
  }

  /** The environment after `__exit__` has written back the snapshot in order. */
  function Restore(values: map<string, string>, readOnly: set<string>, rejected: set<(string, string)>,
                   snapshot: seq<(string, string)>): map<string, string>
  {
    if |snapshot| == 0 then values
    else
      var last := snapshot[|snapshot| - 1];
      RestoreStep(Restore(values, readOnly, rejected, snapshot[..|snapshot| - 1]), readOnly, rejected, last.0, last.1)
  }

  /** The dataclass fields of `Environment(**kw)`: each set to its keyword's value or left `UNSET`. */
  function Settings(kw: map<string, string>): (r: seq<(string, Setting)>)
    ensures |r| == |FieldNames|
    ensures forall i :: 0 <= i < |r| ==> r[i].0 == FieldNames[i] && (r[i].1 == if FieldNames[i] in kw then Value(kw[FieldNames[i]]) else Unset)
    ensures forall p :: p in SetFields(r) <==> p.0 in kw && p.0 in FieldNames && kw[p.0] == p.1
  {
    var r := seq(|FieldNames|, i requires 0 <= i < |FieldNames| =>
      (FieldNames[i], if FieldNames[i] in kw then Value(kw[FieldNames[i]]) else Unset));
    KeywordSettings(kw, FieldNames, r);
    r
  }

  /** The first field of the dataclass, which holds the saved environment rather than a setting. */
  const ExistingEnvField: string := "_existing_env"

  /**
   * The keyword check of the dataclass constructor: a keyword that names no field (neither
   * `_existing_env` nor a setting) is a TypeError naming it; otherwise every keyword is
   * accepted as given.
   */
  ghost function CheckKeywords(names: set<string>): (r: Result<set<string>>)
    ensures r.Ok? <==> forall k :: k in names ==> k in FieldNames || k == ExistingEnvField
    ensures r.Ok? ==> r.value == names
    ensures r.Err? ==> r.error.TypeError? && r.error.detail in names && r.error.detail !in FieldNames && r.error.detail != ExistingEnvField
  {
    if forall k :: k in names ==> k in FieldNames || k == ExistingEnvField then Ok(names)
    else
      var k :| k in names && k !in FieldNames && k != ExistingEnvField;
      Err(TypeError(k))
  }

  class Environment {
    /** `_existing_env`: `UNSET` outside a `with` block, the saved environment inside it. */
    var existing: Option<seq<(string, string)>>
    const settings: seq<(string, Setting)>

    /**
     * `Environment(**kw)` once `CheckKeywords` has accepted its keywords; otherwise the dataclass
     * constructor raises its TypeError. The settings come in `kw`; the `_existing_env` keyword,
     * whose value is a saved environment rather than a setting, comes as `existingEnv` (`None`
     * when it is not given, so the field keeps `UNSET`).
     */
    constructor (kw: map<string, string>, existingEnv: Option<seq<(string, string)>>)
      requires ExistingEnvField !in kw
      requires CheckKeywords(kw.Keys + (if existingEnv.Some? then {ExistingEnvField} else {})).Ok?
      ensures settings == Settings(kw) && existing == existingEnv
    {
      settings := Settings(kw);
      existing := existingEnv;
    }

    /**
     * `__enter__`: save the whole environment first, then write each set field the
     * environment has and whose value differs, skipping read-only settings and
     * rejected values.
     */
    method Enter(env: GeoprocessingEnv)
      requires env.Valid()
      modifies this`existing, env`values
      ensures env.Valid()
      ensures existing == Some(Snapshot(env.keys, old(env.values)))
      ensures env.values == Overlay(old(env.values), env.readOnly, env.rejected, settings)
    {
      existing := Some(Snapshot(env.keys, env.values));
      ghost var start := env.values;
      for i := 0 to |settings|
        invariant env.Valid()
        invariant existing == Some(Snapshot(env.keys, start))
        invariant env.values == Overlay(start, env.readOnly, env.rejected, settings[..i])
      {
        assert settings[..i + 1][..i] == settings[..i];
        var (key, setting) := settings[i];
        if key in env.values {
          if setting.Unset? || env.values[key] == setting.v {
          } else {
            var _ := env.SetAttr(key, setting.v);
          }
        }
      }
      assert settings[..|settings|] == settings;
    }

    /**
     * `__exit__`: write every saved value back, skipping the ones the environment
     * refuses, then forget the snapshot. Without a snapshot (`UNSET.items()`) it
     * raises AttributeError.
     */
    method Exit(env: GeoprocessingEnv) returns (r: Result<bool>)
      requires env.Valid()
      requires existing.Some? ==> forall i :: 0 <= i < |existing.value| ==> existing.value[i].0 in env.values
      modifies this`existing, env`values
      ensures env.Valid()
      ensures old(existing).None? ==> r.Err? && r.error.AttributeError? && env.values == old(env.values) && existing == None
      ensures old(existing).Some? ==>
        r.Ok? && existing == None && env.values == Restore(old(env.values), env.readOnly, env.rejected, old(existing).value)
    {
      if existing.None? {
        return Err(AttributeError("'object' object has no attribute 'items'"));
      }
      var snapshot := existing.value;
      ghost var start := env.values;
      for i := 0 to |snapshot|
        invariant env.Valid()
        invariant env.values == Restore(start, env.readOnly, env.rejected, snapshot[..i])
        invariant forall k :: k in env.values <==> k in start
      {
        assert snapshot[..i + 1][..i] == snapshot[..i];
        var (key, value) := snapshot[i];
        var _ := env.SetAttr(key, value);
      }
      assert snapshot[..|snapshot|] == snapshot;
      existing := None;
      return Ok(true);
    }

    /** The `k=v` pieces of `repr`: `_existing_env` (rendered by `snapshotText`) when saved, then every set field in order. */
    function Items(snapshotText: string): seq<string>
      reads this
    {
      (if existing.Some? then ["_existing_env=" + snapshotText] else []) + SetItems(settings)
    }

    /** `repr(environment)` and `str(environment)`. */
    function Repr(snapshotText: string): string
      reads this
    {
      "Environment: " + Join(", ", Items(snapshotText))
    }
  }

  /** `f"{k}={v}"` for every field that is not `UNSET`, in order. */
  function SetItems(settings: seq<(string, Setting)>): (r: seq<string>)
    ensures |r| <= |settings|
  {
    if |settings| == 0 then []
    else (if settings[0].1.Value? then [settings[0].0 + "=" + settings[0].1.v] else []) + SetItems(settings[1..])
  }

  /** The set fields, in order. */
  function SetFields(settings: seq<(string, Setting)>): (r: seq<(string, string)>)
    ensures forall p :: p in r <==> (p.0, Value(p.1)) in settings
  {
    if |settings| == 0 then []
    else
      var rest := SetFields(settings[1..]);
      assert forall s :: s in settings <==> s == settings[0] || s in settings[1..];
      (if settings[0].1.Value? then [(settings[0].0, settings[0].1.v)] else []) + rest
  }

  /** `repr` lists exactly the fields that are not `UNSET`, each as `k=v`, in declaration order. */
  lemma {:induction false} SetItemsAreSetFields(settings: seq<(string, Setting)>)
    ensures |SetItems(settings)| == |SetFields(settings)|
    ensures forall i :: 0 <= i < |SetItems(settings)| ==>
      SetItems(settings)[i] == SetFields(settings)[i].0 + "=" + SetFields(settings)[i].1
  {
    if |settings| > 0 {
      SetItemsAreSetFields(settings[1..]);
    }
  }

  /** A freshly made environment has nothing saved, so its repr lists only the fields given to it. */
  lemma FreshRepr(kw: map<string, string>)
    requires forall k :: k in kw ==> k in FieldNames
    ensures forall p :: p in SetFields(Settings(kw)) <==> p.0 in kw && kw[p.0] == p.1
  {
  }

  /** A setting list built field by field from the keywords holds a field's value exactly when it was given. */
  lemma KeywordSettings(kw: map<string, string>, names: seq<string>, s: seq<(string, Setting)>)
    requires |s| == |names|
    requires forall i :: 0 <= i < |s| ==> s[i].0 == names[i] && (s[i].1 == if names[i] in kw then Value(kw[names[i]]) else Unset)
    ensures forall p :: p in SetFields(s) <==> p.0 in kw && p.0 in names && kw[p.0] == p.1
  {
    forall p ensures p in SetFields(s) <==> p.0 in kw && p.0 in names && kw[p.0] == p.1 {
      if p.0 in kw && p.0 in names && kw[p.0] == p.1 {
        var i :| 0 <= i < |names| && names[i] == p.0;
        assert s[i] == (p.0, Value(p.1));
      }
    }
  }

  /**
   * `__enter__` writes nothing else: it keeps the set of settings, and a setting
   * it changes is writable, is set on the dataclass to its new value, and that
   * value is one the environment accepts.
   */
  lemma {:induction false} OverlayChanges(values: map<string, string>, readOnly: set<string>, rejected: set<(string, string)>,
                                          settings: seq<(string, Setting)>)
    ensures forall k :: k in Overlay(values, readOnly, rejected, settings) <==> k in values
    ensures forall k :: k in values && Overlay(values, readOnly, rejected, settings)[k] != values[k] ==>
      k !in readOnly &&
      (k, Value(Overlay(values, readOnly, rejected, settings)[k])) in settings &&
      (k, Overlay(values, readOnly, rejected, settings)[k]) !in rejected
  {
    if |settings| > 0 {
      var init := settings[..|settings| - 1];
      OverlayChanges(values, readOnly, rejected, init);
      assert forall x :: x in init ==> x in settings;
    }
  }

  /** A setting named once in the snapshot ends with the saved value, unless the environment refuses it. */
  lemma {:induction false} RestoreAt(values: map<string, string>, readOnly: set<string>, rejected: set<(string, string)>,
                                     snapshot: seq<(string, string)>, j: int)
    requires 0 <= j < |snapshot| && snapshot[j].0 in values
    requires forall l :: 0 <= l < |snapshot| && l != j ==> snapshot[l].0 != snapshot[j].0
    ensures snapshot[j].0 in Restore(values, readOnly, rejected, snapshot)
    ensures Restore(values, readOnly, rejected, snapshot)[snapshot[j].0] ==
      if Outcome(readOnly, rejected, snapshot[j].0, snapshot[j].1) == Accepted then snapshot[j].1 else values[snapshot[j].0]
  {
    var k := snapshot[j].0;
    if j < |snapshot| - 1 {
      RestoreAt(values, readOnly, rejected, snapshot[..|snapshot| - 1], j);
    } else {
      RestoreOthers(values, readOnly, rejected, snapshot[..|snapshot| - 1], k);
    }
  }

  /** Settings the snapshot does not name keep their value. */
  lemma {:induction false} RestoreOthers(values: map<string, string>, readOnly: set<string>, rejected: set<(string, string)>,
                                         snapshot: seq<(string, string)>, k: string)
    requires k in values
    requires forall l :: 0 <= l < |snapshot| ==> snapshot[l].0 != k
    ensures k in Restore(values, readOnly, rejected, snapshot) && Restore(values, readOnly, rejected, snapshot)[k] == values[k]
  {
    if |snapshot| > 0 {
      RestoreOthers(values, readOnly, rejected, snapshot[..|snapshot| - 1], k);
    }
  }

  /**
   * Entering and then leaving the context puts back every setting's value:
   * read-only settings were never touched, and every other setting is written
   * back unless the environment rejects its own previous value.
   */
  lemma EnterExitRestores(keys: seq<string>, values: map<string, string>, readOnly: set<string>,
                          rejected: set<(string, string)>, settings: seq<(string, Setting)>)
    requires forall i, j :: 0 <= i < j < |keys| ==> keys[i] != keys[j]
    requires forall k :: k in values <==> k in keys
    ensures var after := Restore(Overlay(values, readOnly, rejected, settings), readOnly, rejected, Snapshot(keys, values));
      forall k :: k in values && (k in readOnly || (k, values[k]) !in rejected) ==> k in after && after[k] == values[k]
  {
    var entered := Overlay(values, readOnly, rejected, settings);
    var snapshot := Snapshot(keys, values);
    OverlayChanges(values, readOnly, rejected, settings);
    forall k | k in values && (k in readOnly || (k, values[k]) !in rejected)
      ensures k in Restore(entered, readOnly, rejected, snapshot) && Restore(entered, readOnly, rejected, snapshot)[k] == values[k]
    {
      var j := Dicts.IndexOf(keys, k);
      RestoreAt(entered, readOnly, rejected, snapshot, j);
    }
  }
}
