/** The response mapper of `core/response_handler.py`: the ordered map from
    response property keys to output fields, the output field list, and the
    records built from a decoded response. */
module ResponseHandler {
  import opened Wrappers
  import opened Payload
  import PyDict
  import Strings
  import RequestClient

  /** The `QVariant` type of a field: the mapper itself only uses String and
      Double; the user's id field may have any type. */
  datatype VariantType = StringType | DoubleType | OtherType(code: int)

  /** A `QgsField`: a name and a type. */
  datatype Field = Field(name: string, ftype: VariantType)

  /** What a map entry says about its output field: `{type, nice_name}`. */
  datatype FieldSpec = FieldSpec(niceName: string, ftype: VariantType)

  /** `_get_dict(nice_name)`, with the default String type. */
  function Spec(niceName: string): FieldSpec
  {
    FieldSpec(niceName, StringType)
  }

  /** The standard entry at position `i` (0 to 21), in the order written. */
  function StandardEntry(i: int): (string, FieldSpec)
  {
    match i
    case 0 => ("name", Spec("nice_name"))
    case 1 => ("label", Spec("label"))
    case 2 => ("confidence", FieldSpec("confidence", DoubleType))
    case 3 => ("accuracy", Spec("accuracy"))
    case 4 => ("source", Spec("source"))
    case 5 => ("layer", Spec("layer"))
    case 6 => ("street", Spec("street"))
    case 7 => ("housenumber", Spec("housenumber"))
    case 8 => ("postalcode", Spec("postalcode"))
    case 9 => ("locality", Spec("locality"))
    case 10 => ("microhood", Spec("microhood"))
    case 11 => ("neighborhood", Spec("neighbourhood"))
    case 12 => ("borough", Spec("borough"))
    case 13 => ("macrohood", Spec("macrohood"))
    case 14 => ("localadmin", Spec("localadmin"))
    case 15 => ("county", Spec("county"))
    case 16 => ("macrocounty", Spec("macrocounty"))
    case 17 => ("region", Spec("region"))
    case 18 => ("macroregion", Spec("macroregion"))
    case 19 => ("country", Spec("country"))
    case 20 => ("empire", Spec("empire"))
    case _ => ("continent", Spec("continent"))
  }

  /** The 22 standard entries. */
  function StandardEntries(): PyDict.Dict<FieldSpec>
  {
    seq(22, StandardEntry)
  }

  /** The debug entry at position `i` (0 to 13), in keyword order. */
  function DebugEntry(i: int): (string, FieldSpec)
  {
    match i
    case 0 => ("source_id", Spec("source_id"))
    case 1 => ("locality_gid", Spec("locality_id"))
    case 2 => ("microhood_gid", Spec("microhood_id"))
    case 3 => ("neighbourhood_gid", Spec("neighbourhood_id"))
    case 4 => ("borough_gid", Spec("borough_id"))
    case 5 => ("macrohood_gid", Spec("macrohood_id"))
    case 6 => ("localadmin_gid", Spec("localadmin_id"))
    case 7 => ("county_gid", Spec("county_id"))
    case 8 => ("macrocounty_gid", Spec("macrocounty_id"))
    case 9 => ("region_gid", Spec("region_id"))
    case 10 => ("macroregion_gid", Spec("macroregion_id"))
    case 11 => ("country_gid", Spec("country_id"))
    case 12 => ("empire_gid", Spec("empire_id"))
    case _ => ("continent_gid", Spec("continent_id"))
  }

  /** The 14 entries debug mode adds. */
  function DebugEntries(): PyDict.Dict<FieldSpec>
  {
    seq(14, DebugEntry)
  }

  /** The id field's own entry: its name, mapped to itself with its own type. */
  function IdEntry(idField: Field): (string, FieldSpec)
  {
    (idField.name, FieldSpec(idField.name, idField.ftype))
  }

  /** The construction `_get_fields_mapping` performs, for any entries: an
      `OrderedDict` of the id entry followed by the standard entries (a repeated
      key keeps its first position and takes the later value), updated with
      the debug entries in debug mode. */
  function BuildMapping(id: (string, FieldSpec), std: PyDict.Dict<FieldSpec>,
                        dbg: PyDict.Dict<FieldSpec>, debug: bool): PyDict.Dict<FieldSpec>
  {
    var base := PyDict.Merge([], [id] + std);
    if debug then PyDict.Merge(base, dbg) else base
  }

  /** `_get_fields_mapping` */
  function FieldsMapping(idField: Field, debug: bool): PyDict.Dict<FieldSpec>
  {
    BuildMapping(IdEntry(idField), StandardEntries(), DebugEntries(), debug)
  }

  /** Without key collisions the construction lists the entries as given. */
  lemma BuildMappingShape(id: (string, FieldSpec), std: PyDict.Dict<FieldSpec>,
                          dbg: PyDict.Dict<FieldSpec>, debug: bool)
    requires PyDict.Wf(std) && PyDict.Wf(dbg) && PyDict.Disjoint(dbg, std)
    requires id.0 !in PyDict.Keys(std) && (debug ==> id.0 !in PyDict.Keys(dbg))
    ensures BuildMapping(id, std, dbg, debug) == [id] + std + (if debug then dbg else [])
  {
    PyDict.BuildFresh(id, std);
    if debug {
      PyDict.DisjointCons(dbg, id, std);
      PyDict.MergeFresh([id] + std, dbg);
    }
  }

  /** Lookup in the construction: a debug entry wins in debug mode, then a
      standard entry, then the id entry. */
  lemma BuildMappingGet(id: (string, FieldSpec), std: PyDict.Dict<FieldSpec>,
                        dbg: PyDict.Dict<FieldSpec>, debug: bool, k: string)
    requires PyDict.Wf(std) && PyDict.Wf(dbg)
    ensures PyDict.Get(BuildMapping(id, std, dbg, debug), k) ==
      if debug && PyDict.Get(dbg, k).Some? then PyDict.Get(dbg, k)
      else if PyDict.Get(std, k).Some? then PyDict.Get(std, k)
      else if k == id.0 then Some(id.1)
      else None
  {
    PyDict.BuildGet(id, std, k);
    if debug {
      PyDict.MergeGet(PyDict.Merge([], [id] + std), dbg, k);
    }
  }

  /** Reference for the output names: the key itself, except for two renamings. */
  function NiceNameOf(key: string): string
  {
    if key == "name" then "nice_name"
    else if key == "neighborhood" then "neighbourhood"
    else key
  }

  /** Reference for the output types: only `confidence` is a Double. */
  function TypeOf(key: string): VariantType
  {
    if key == "confidence" then DoubleType else StringType
  }

  /** The standard entries: 22 of them, from "name" to "continent"; every
      output name is its key except for "name" and "neighborhood", and every
      type is String except `confidence`'s. */
  lemma StandardEntriesShape()
    ensures |StandardEntries()| == 22
    ensures StandardEntries()[0].0 == "name" && StandardEntries()[21].0 == "continent"
    ensures forall i :: 0 <= i < |StandardEntries()| ==>
      StandardEntries()[i].1 == FieldSpec(NiceNameOf(StandardEntries()[i].0), TypeOf(StandardEntries()[i].0))
  {
  }

  /** The debug entries: 14 String fields, from `source_id` to `continent_gid`,
      none of them named like its key. */
  lemma DebugEntriesShape()
    ensures |DebugEntries()| == 14
    ensures DebugEntries()[0] == ("source_id", Spec("source_id"))
    ensures DebugEntries()[13] == ("continent_gid", Spec("continent_id"))
    ensures forall i :: 0 <= i < |DebugEntries()| ==> DebugEntries()[i].1.ftype == StringType
    ensures forall i :: 1 <= i < |DebugEntries()| ==> DebugEntries()[i].1.niceName != DebugEntries()[i].0
  {
  }

  /** The index of a key among the standard and then the debug entries, -1 for
      any other string. Dispatching on the length first keeps the number of
      string comparisons small. */
  function Position(k: string): int
  {
    match |k|
    case 4 => if k == "name" then 0 else -1
    case 5 => if k == "label" then 1 else if k == "layer" then 5 else -1
    case 6 => if k == "source" then 4 else if k == "street" then 6 else if k == "county" then 15 else if k == "region" then 17 else if k == "empire" then 20 else -1
    case 7 => if k == "borough" then 12 else if k == "country" then 19 else -1
    case 8 => if k == "accuracy" then 3 else if k == "locality" then 9 else -1
    case 9 => if k == "microhood" then 10 else if k == "macrohood" then 13 else if k == "continent" then 21 else if k == "source_id" then 22 else -1
    case 10 => if k == "confidence" then 2 else if k == "postalcode" then 8 else if k == "localadmin" then 14 else if k == "county_gid" then 29 else if k == "region_gid" then 31 else if k == "empire_gid" then 34 else -1
    case 11 => if k == "housenumber" then 7 else if k == "macrocounty" then 16 else if k == "macroregion" then 18 else if k == "borough_gid" then 26 else if k == "country_gid" then 33 else -1
    case 12 => if k == "neighborhood" then 11 else if k == "locality_gid" then 23 else -1
    case 13 => if k == "microhood_gid" then 24 else if k == "macrohood_gid" then 27 else if k == "continent_gid" then 35 else -1
    case 14 => if k == "localadmin_gid" then 28 else -1
    case 15 => if k == "macrocounty_gid" then 30 else if k == "macroregion_gid" then 32 else -1
    case 17 => if k == "neighbourhood_gid" then 25 else -1
    case _ => -1
  }

  lemma StandardPositions()
    ensures forall i :: 0 <= i < |StandardEntries()| ==> Position(StandardEntries()[i].0) == i
  {
  }

  lemma DebugPositions()
    ensures forall i :: 0 <= i < |DebugEntries()| ==> Position(DebugEntries()[i].0) == 22 + i
  {
  }

  /** Entries laid out by `Position` from `off` on have distinct keys, and every
      key among them has a position in that range. */
  lemma LaidOut(d: PyDict.Dict<FieldSpec>, off: int)
    requires forall i :: 0 <= i < |d| ==> Position(d[i].0) == off + i
    ensures PyDict.Wf(d)
    ensures forall k :: k in PyDict.Keys(d) ==> off <= Position(k) < off + |d|
  {
    forall k | k in PyDict.Keys(d)
      ensures off <= Position(k) < off + |d|
    {
      var i :| 0 <= i < |d| && PyDict.Keys(d)[i] == k;
      assert d[i].0 == k;
    }
  }

  /** Entries laid out in disjoint ranges share no key. */
  lemma LaidOutApart(a: PyDict.Dict<FieldSpec>, offA: int, b: PyDict.Dict<FieldSpec>, offB: int)
    requires forall i :: 0 <= i < |a| ==> Position(a[i].0) == offA + i
    requires forall i :: 0 <= i < |b| ==> Position(b[i].0) == offB + i
    requires offB + |b| <= offA
    ensures PyDict.Disjoint(a, b)
  {
  }

  /** The standard keys are pairwise distinct, so are the debug keys, and no
      debug key is a standard key; a standard key has a position below 22 and
      a debug key one from 22 on. */
  lemma KeysDistinct()
    ensures PyDict.Wf(StandardEntries()) && PyDict.Wf(DebugEntries())
    ensures PyDict.Disjoint(DebugEntries(), StandardEntries())
    ensures forall k :: k in PyDict.Keys(StandardEntries()) ==> 0 <= Position(k) < 22
    ensures forall k :: k in PyDict.Keys(DebugEntries()) ==> 22 <= Position(k) < 36
  {
    StandardPositions();
    DebugPositions();
    LaidOut(StandardEntries(), 0);
    LaidOut(DebugEntries(), 22);
    LaidOutApart(DebugEntries(), 22, StandardEntries(), 0);
  }

  /** When the id field is named like no key it could collide with, the map is
      the id entry, the 22 standard entries and, in debug mode, the 14 debug
      entries appended unchanged after them. */
  lemma FieldsMappingShape(idField: Field, debug: bool)
    requires idField.name !in PyDict.Keys(StandardEntries())
    requires debug ==> idField.name !in PyDict.Keys(DebugEntries())
    ensures FieldsMapping(idField, debug)
      == [IdEntry(idField)] + StandardEntries() + (if debug then DebugEntries() else [])
    ensures |FieldsMapping(idField, debug)| == if debug then 37 else 23
  {
    KeysDistinct();
    BuildMappingShape(IdEntry(idField), StandardEntries(), DebugEntries(), debug);
    StandardEntriesShape();
    DebugEntriesShape();
  }

  /** An id field named like a standard key gets no entry of its own: the
      standard entry moves to the front, so the id field's own type is lost,
      and the map has 22 entries. */
  lemma IdShadowedByStandardKey(idField: Field, k: nat)
    requires k < |StandardEntries()| && StandardEntries()[k].0 == idField.name
    ensures FieldsMapping(idField, false)
      == [StandardEntries()[k]] + StandardEntries()[..k] + StandardEntries()[k + 1..]
    ensures |FieldsMapping(idField, false)| == 22
  {
    KeysDistinct();
    PyDict.BuildShadowed(IdEntry(idField), StandardEntries(), k);
  }

  /** Looking a key up in the map: a debug entry wins in debug mode, then a
      standard entry, then the id field's own entry. */
  lemma FieldsMappingGet(idField: Field, debug: bool, k: string)
    ensures PyDict.Get(FieldsMapping(idField, debug), k) ==
      if debug && PyDict.Get(DebugEntries(), k).Some? then PyDict.Get(DebugEntries(), k)
      else if PyDict.Get(StandardEntries(), k).Some? then PyDict.Get(StandardEntries(), k)
      else if k == idField.name then Some(FieldSpec(idField.name, idField.ftype))
      else None
  {
    KeysDistinct();
    BuildMappingGet(IdEntry(idField), StandardEntries(), DebugEntries(), debug, k);
  }

  /** A key outside both entry lists, other than the id field's name, finds no
      entry in the map. */
  lemma UnknownKeyUnmapped(idField: Field, debug: bool, k: string)
    requires Position(k) == -1 && k != idField.name
    ensures PyDict.Get(FieldsMapping(idField, debug), k) == None
  {
    KeysDistinct();
    FieldsMappingGet(idField, debug, k);
  }

  /** Every standard key finds its standard entry, whatever the mode: no debug
      key can override it. */
  lemma StandardKeyMapped(idField: Field, debug: bool, j: nat)
    requires j < |StandardEntries()|
    ensures PyDict.Get(FieldsMapping(idField, debug), StandardEntries()[j].0) == Some(StandardEntries()[j].1)
  {
    var k := StandardEntries()[j].0;
    KeysDistinct();
    PyDict.GetAt(StandardEntries(), j);
    assert k in PyDict.Keys(StandardEntries());
    assert k !in PyDict.Keys(DebugEntries());
    FieldsMappingGet(idField, debug, k);
  }

  lemma PositionsOfSpellings()
    ensures Position("neighbourhood") == -1 && Position("neighborhood") == 11
  {
  }

  /** A property spelled "neighbourhood", as the debug key `neighbourhood_gid`
      and the layer vocabulary spell it, finds no entry: only the spelling
      "neighborhood" reaches the `neighbourhood` field. */
  lemma NeighbourhoodPropertyUnmapped(idField: Field, debug: bool)
    requires idField.name != "neighbourhood"
    ensures PyDict.Get(FieldsMapping(idField, debug), "neighbourhood") == None
    ensures PyDict.Get(FieldsMapping(idField, debug), "neighborhood") == Some(Spec("neighbourhood"))
  {
    PositionsOfSpellings();
    UnknownKeyUnmapped(idField, debug, "neighbourhood");
    StandardKeyMapped(idField, debug, 11);
    assert StandardEntries()[11] == ("neighborhood", Spec("neighbourhood"));
  }

  /** The index of an output name among the standard and then the debug
      entries, -1 for any other string; dispatched on the length like
      `Position`. */
  function NicePosition(n: string): int
  {
    match |n|
    case 5 => if n == "label" then 1 else if n == "layer" then 5 else -1
    case 6 => if n == "source" then 4 else if n == "street" then 6 else if n == "county" then 15 else if n == "region" then 17 else if n == "empire" then 20 else -1
    case 7 => if n == "borough" then 12 else if n == "country" then 19 else -1
    case 8 => if n == "accuracy" then 3 else if n == "locality" then 9 else -1
    case 9 => if n == "nice_name" then 0 else if n == "microhood" then 10 else if n == "macrohood" then 13 else if n == "continent" then 21 else if n == "source_id" then 22 else if n == "county_id" then 29 else if n == "region_id" then 31 else if n == "empire_id" then 34 else -1
    case 10 => if n == "confidence" then 2 else if n == "postalcode" then 8 else if n == "localadmin" then 14 else if n == "borough_id" then 26 else if n == "country_id" then 33 else -1
    case 11 => if n == "housenumber" then 7 else if n == "macrocounty" then 16 else if n == "macroregion" then 18 else if n == "locality_id" then 23 else -1
    case 12 => if n == "microhood_id" then 24 else if n == "macrohood_id" then 27 else if n == "continent_id" then 35 else -1
    case 13 => if n == "neighbourhood" then 11 else if n == "localadmin_id" then 28 else -1
    case 14 => if n == "macrocounty_id" then 30 else if n == "macroregion_id" then 32 else -1
    case 16 => if n == "neighbourhood_id" then 25 else -1
    case _ => -1
  }

  lemma StandardNicePositions()
    ensures forall i :: 0 <= i < |StandardEntries()| ==> NicePosition(StandardEntries()[i].1.niceName) == i
  {
    var std := StandardEntries();
    forall i | 0 <= i < |std|
      ensures NicePosition(std[i].1.niceName) == i
    {
      if i < 8 {
      } else if i < 15 {
      } else {
      }
    }
  }

  lemma DebugNicePositions()
    ensures forall i :: 0 <= i < |DebugEntries()| ==> NicePosition(DebugEntries()[i].1.niceName) == 22 + i
  {
    var dbg := DebugEntries();
    forall i | 0 <= i < |dbg|
      ensures NicePosition(dbg[i].1.niceName) == 22 + i
    {
      if i < 7 {
      } else {
      }
    }
  }

  /** The mapper's state: the id field, the debug switch, the field map and the
      `QgsFields` that `get_fields` fills. */
  datatype Handler = Handler(idField: Field, debug: bool, fieldsMap: PyDict.Dict<FieldSpec>, fields: seq<Field>)

  /** `ResponseHandler(id_field, debug)`: the map, and no fields yet. */
  function NewHandler(idField: Field, debug: bool := false): Handler
  {
    Handler(idField, debug, FieldsMapping(idField, debug), [])
  }

  function FieldNames(fields: seq<Field>): (names: seq<string>)
    ensures |names| == |fields| && forall i :: 0 <= i < |fields| ==> names[i] == fields[i].name
  {
    seq(|fields|, i requires 0 <= i < |fields| => fields[i].name)
  }

  /** The output names of a map's entries, in map order. */
  function NiceNames(m: PyDict.Dict<FieldSpec>): (names: seq<string>)
    ensures |names| == |m| && forall i :: 0 <= i < |m| ==> names[i] == m[i].1.niceName
  {
    seq(|m|, i requires 0 <= i < |m| => m[i].1.niceName)
  }

  /** The field a map entry asks for. */
  function FieldsOf(m: PyDict.Dict<FieldSpec>): (fields: seq<Field>)
    ensures |fields| == |m| && forall i :: 0 <= i < |m| ==> fields[i] == Field(m[i].1.niceName, m[i].1.ftype)
  {
    seq(|m|, i requires 0 <= i < |m| => Field(m[i].1.niceName, m[i].1.ftype))
  }

  /** No two fields share a name, as in any `QgsFields`. */
  predicate UniqueNames(fields: seq<Field>)
  {
    forall i, j :: 0 <= i < j < |fields| ==> fields[i].name != fields[j].name
  }

  /** `QgsFields.append(field)`: refused, leaving the list as it is, when a
      field of that name is already present. */
  function AppendField(fields: seq<Field>, f: Field): seq<Field>
  {
    if f.name in FieldNames(fields) then fields else fields + [f]
  }

  lemma AppendFieldNames(fields: seq<Field>, f: Field)
    ensures fields <= AppendField(fields, f)
    ensures forall n :: n in FieldNames(AppendField(fields, f)) <==> n in FieldNames(fields) || n == f.name
    ensures UniqueNames(fields) ==> UniqueNames(AppendField(fields, f))
  {
    if f.name !in FieldNames(fields) {
      var r := fields + [f];
      assert FieldNames(r) == FieldNames(fields) + [f.name];
      if UniqueNames(fields) {
        forall i, j | 0 <= i < j < |r|
          ensures r[i].name != r[j].name
        {
          if j == |fields| {
            assert FieldNames(fields)[i] == r[i].name;
          }
        }
      }
    }
  }

  lemma NiceNamesCons(m: PyDict.Dict<FieldSpec>)
    requires |m| > 0
    ensures forall n :: n in NiceNames(m) <==> n == m[0].1.niceName || n in NiceNames(m[1..])
  {
    assert NiceNames(m) == [m[0].1.niceName] + NiceNames(m[1..]);
  }

  /** The loop of `get_fields`: one append per map entry, in map order. */
  function AppendEntries(fields: seq<Field>, m: PyDict.Dict<FieldSpec>): seq<Field>
    decreases |m|
  {
    if |m| == 0 then fields
    else AppendEntries(AppendField(fields, Field(m[0].1.niceName, m[0].1.ftype)), m[1..])
  }

  /** The appends keep the earlier fields as a prefix; the names present
      afterwards are those present before and the map's output names, and no
      name is ever held twice. */
  lemma {:induction false} AppendEntriesNames(fields: seq<Field>, m: PyDict.Dict<FieldSpec>)
    ensures fields <= AppendEntries(fields, m)
    ensures forall n :: n in FieldNames(AppendEntries(fields, m)) <==> n in FieldNames(fields) || n in NiceNames(m)
    ensures UniqueNames(fields) ==> UniqueNames(AppendEntries(fields, m))
    decreases |m|
  {
    if |m| > 0 {
      var f := Field(m[0].1.niceName, m[0].1.ftype);
      AppendFieldNames(fields, f);
      NiceNamesCons(m);
      AppendEntriesNames(AppendField(fields, f), m[1..]);
    }
  }

  /** `get_fields`: appends to the handler's fields one field per map entry,
      in map order, and returns the new state and the whole list. */
  function GetFields(h: Handler): (r: (Handler, seq<Field>))
    ensures r.0 == h.(fields := r.1)
    ensures h.fields <= r.1
    ensures forall n :: n in FieldNames(r.1) <==> n in FieldNames(h.fields) || n in NiceNames(h.fieldsMap)
    ensures UniqueNames(h.fields) ==> UniqueNames(r.1)
  {
    AppendEntriesNames(h.fields, h.fieldsMap);
    var fields := AppendEntries(h.fields, h.fieldsMap);
    (h.(fields := fields), fields)
  }

  /** Appending entries whose output names are all present already changes
      nothing. */
  lemma {:induction false} AppendEntriesKnown(fields: seq<Field>, m: PyDict.Dict<FieldSpec>)
    requires forall i :: 0 <= i < |m| ==> m[i].1.niceName in FieldNames(fields)
    ensures AppendEntries(fields, m) == fields
    decreases |m|
  {
    if |m| > 0 {
      assert m[0].1.niceName in FieldNames(fields);
      AppendEntriesKnown(fields, m[1..]);
    }
  }

  lemma FieldsOfCons(m: PyDict.Dict<FieldSpec>)
    requires |m| > 0
    ensures FieldsOf(m) == [Field(m[0].1.niceName, m[0].1.ftype)] + FieldsOf(m[1..])
  {
    var a, b := FieldsOf(m), [Field(m[0].1.niceName, m[0].1.ftype)] + FieldsOf(m[1..]);
    forall i | 0 <= i < |a|
      ensures a[i] == b[i]
    {
      if i > 0 {
        assert m[1..][i - 1] == m[i];
      }
    }
  }

  /** Each entry's output name is absent from the fields present when its
      turn comes, if every entry before it was appended as it is. */
  predicate Fresh(fields: seq<Field>, m: PyDict.Dict<FieldSpec>)
    decreases |m|
  {
    |m| == 0 ||
      (m[0].1.niceName !in FieldNames(fields) && Fresh(fields + [Field(m[0].1.niceName, m[0].1.ftype)], m[1..]))
  }

  /** Entries with distinct output names, none of them present yet, are
      appended as they are, one field each. */
  lemma {:induction false} AppendEntriesFresh(fields: seq<Field>, m: PyDict.Dict<FieldSpec>)
    requires NewNames(fields, m)
    ensures AppendEntries(fields, m) == fields + FieldsOf(m)
  {
    NewNamesFresh(fields, m);
    AppendEntriesFreshSteps(fields, m);
  }

  lemma {:induction false} AppendEntriesFreshSteps(fields: seq<Field>, m: PyDict.Dict<FieldSpec>)
    requires Fresh(fields, m)
    ensures AppendEntries(fields, m) == fields + FieldsOf(m)
    decreases |m|
  {
    if |m| > 0 {
      var f := Field(m[0].1.niceName, m[0].1.ftype);
      AppendEntriesFreshSteps(fields + [f], m[1..]);
      FieldsOfAfter(fields, m);
    }
  }

  /** Appending the first entry's field, then the fields of the rest, is
      appending the fields of all entries. */
  lemma FieldsOfAfter(fields: seq<Field>, m: PyDict.Dict<FieldSpec>)
    requires |m| > 0
    ensures (fields + [Field(m[0].1.niceName, m[0].1.ftype)]) + FieldsOf(m[1..]) == fields + FieldsOf(m)
  {
    FieldsOfCons(m);
    var f := Field(m[0].1.niceName, m[0].1.ftype);
    assert (fields + [f]) + FieldsOf(m[1..]) == fields + ([f] + FieldsOf(m[1..]));
  }

  /** The output names of `m` are pairwise distinct and none is the name of
      a field of `fields`. */
  predicate NewNames(fields: seq<Field>, m: PyDict.Dict<FieldSpec>)
  {
    && (forall i, j :: 0 <= i < j < |m| ==> m[i].1.niceName != m[j].1.niceName)
    && (forall i, k :: 0 <= i < |m| && 0 <= k < |fields| ==> m[i].1.niceName != fields[k].name)
  }

  lemma {:induction false} NewNamesFresh(fields: seq<Field>, m: PyDict.Dict<FieldSpec>)
    requires NewNames(fields, m)
    ensures Fresh(fields, m)
    decreases |m|
  {
    if |m| > 0 {
      FirstFresh(fields, m);
      NewNamesFresh(fields + [Field(m[0].1.niceName, m[0].1.ftype)], m[1..]);
    }
  }

  /** The first of such entries is not present yet, and the rest stay new. */
  lemma FirstFresh(fields: seq<Field>, m: PyDict.Dict<FieldSpec>)
    requires |m| > 0 && NewNames(fields, m)
    ensures var f := Field(m[0].1.niceName, m[0].1.ftype);
      && f.name !in FieldNames(fields)
      && NewNames(fields + [f], m[1..])
  {
    var f := Field(m[0].1.niceName, m[0].1.ftype);
    var next := fields + [f];
    forall k | 0 <= k < |fields|
      ensures FieldNames(fields)[k] != f.name
    {
    }
    forall i, k | 0 <= i < |m[1..]| && 0 <= k < |next|
      ensures m[1..][i].1.niceName != next[k].name
    {
      assert m[1..][i] == m[i + 1];
    }
    forall i, j | 0 <= i < j < |m[1..]|
      ensures m[1..][i].1.niceName != m[1..][j].1.niceName
    {
      assert m[1..][i] == m[i + 1] && m[1..][j] == m[j + 1];
    }
  }

  /** Once `get_fields` has run, every output name is present, so a second
      call appends nothing. */
  lemma GetFieldsIdempotent(h: Handler)
    ensures GetFields(GetFields(h).0) == GetFields(h)
  {
    var fields := GetFields(h).1;
    forall i | 0 <= i < |h.fieldsMap|
      ensures h.fieldsMap[i].1.niceName in FieldNames(fields)
    {
      assert NiceNames(h.fieldsMap)[i] == h.fieldsMap[i].1.niceName;
    }
    AppendEntriesKnown(fields, h.fieldsMap);
  }

  /** An entry followed by two runs of entries laid out by `NicePosition`
      one after the other from 0 on, neither run holding the first entry's
      output name: all output names are distinct. */
  lemma NiceLaidOut(p: (string, FieldSpec), a: PyDict.Dict<FieldSpec>, b: PyDict.Dict<FieldSpec>)
    requires forall i :: 0 <= i < |a| ==> NicePosition(a[i].1.niceName) == i
    requires forall i :: 0 <= i < |b| ==> NicePosition(b[i].1.niceName) == |a| + i
    requires p.1.niceName !in NiceNames(a) && p.1.niceName !in NiceNames(b)
    ensures var m := [p] + a + b;
      forall i, j :: 0 <= i < j < |m| ==> m[i].1.niceName != m[j].1.niceName
  {
    var m := [p] + a + b;
    forall i | 1 <= i < |m|
      ensures NicePosition(m[i].1.niceName) == i - 1 && m[i].1.niceName != p.1.niceName
    {
      if i <= |a| {
        assert m[i] == a[i - 1];
        assert NiceNames(a)[i - 1] == m[i].1.niceName;
      } else {
        assert m[i] == b[i - 1 - |a|];
        assert NiceNames(b)[i - 1 - |a|] == m[i].1.niceName;
      }
    }
  }

  /** The output names of the id entry, the standard entries and, in debug
      mode, the debug entries are pairwise distinct when the id field's name
      is no output name of the entries it joins. */
  lemma FreshNiceNamesDistinct(idField: Field, debug: bool)
    requires idField.name !in NiceNames(StandardEntries())
    requires debug ==> idField.name !in NiceNames(DebugEntries())
    ensures var m := [IdEntry(idField)] + StandardEntries() + (if debug then DebugEntries() else []);
      forall i, j :: 0 <= i < j < |m| ==> m[i].1.niceName != m[j].1.niceName
  {
    StandardNicePositions();
    if debug {
      DebugNicePositions();
      NiceLaidOut(IdEntry(idField), StandardEntries(), DebugEntries());
    } else {
      NiceLaidOut(IdEntry(idField), StandardEntries(), []);
    }
  }

  /** For a fresh handler whose id field collides with no key and no output
      name, the output fields are the id field itself, then the 22 standard
      fields under their output names and types, then, in debug mode, the 14
      debug fields. */
  lemma FreshHandlerFields(idField: Field, debug: bool)
    requires idField.name !in PyDict.Keys(StandardEntries()) && idField.name !in NiceNames(StandardEntries())
    requires debug ==> idField.name !in PyDict.Keys(DebugEntries()) && idField.name !in NiceNames(DebugEntries())
    ensures var fields := GetFields(NewHandler(idField, debug)).1;
      && |fields| == (if debug then 37 else 23)
      && fields[0] == idField
      && (forall i :: 0 <= i < 22 ==>
            fields[1 + i] == Field(NiceNameOf(StandardEntries()[i].0), TypeOf(StandardEntries()[i].0)))
      && (debug ==> forall i :: 0 <= i < 14 ==>
            fields[23 + i] == Field(DebugEntries()[i].1.niceName, StringType))
  {
    FreshFieldsList(idField, debug);
    var m := FieldsMapping(idField, debug);
    var fields := GetFields(NewHandler(idField, debug)).1;
    StandardFieldsAt(m, fields);
    if debug {
      DebugFieldsAt(m, fields);
    }
  }

  /** The fields of such a fresh handler are one per map entry, in map
      order: no append is refused. */
  lemma FreshFieldsList(idField: Field, debug: bool)
    requires idField.name !in PyDict.Keys(StandardEntries()) && idField.name !in NiceNames(StandardEntries())
    requires debug ==> idField.name !in PyDict.Keys(DebugEntries()) && idField.name !in NiceNames(DebugEntries())
    ensures FieldsMapping(idField, debug)
      == [IdEntry(idField)] + StandardEntries() + (if debug then DebugEntries() else [])
    ensures |FieldsMapping(idField, debug)| == if debug then 37 else 23
    ensures GetFields(NewHandler(idField, debug)).1 == FieldsOf(FieldsMapping(idField, debug))
  {
    FieldsMappingShape(idField, debug);
    FreshNiceNamesDistinct(idField, debug);
    AppendEntriesFresh([], FieldsMapping(idField, debug));
  }

  lemma StandardFieldsAt(m: PyDict.Dict<FieldSpec>, fields: seq<Field>)
    requires |m| == |fields| && 23 <= |m| && m[1..23] == StandardEntries()
    requires forall i :: 0 <= i < |m| ==> fields[i] == Field(m[i].1.niceName, m[i].1.ftype)
    ensures forall i :: 0 <= i < 22 ==>
      fields[1 + i] == Field(NiceNameOf(StandardEntries()[i].0), TypeOf(StandardEntries()[i].0))
  {
    StandardEntriesShape();
    forall i | 0 <= i < 22
      ensures fields[1 + i] == Field(NiceNameOf(StandardEntries()[i].0), TypeOf(StandardEntries()[i].0))
    {
      assert m[1 + i] == m[1..23][i];
    }
  }

  lemma DebugFieldsAt(m: PyDict.Dict<FieldSpec>, fields: seq<Field>)
    requires |m| == |fields| == 37 && m[23..] == DebugEntries()
    requires forall i :: 0 <= i < |m| ==> fields[i] == Field(m[i].1.niceName, m[i].1.ftype)
    ensures forall i :: 0 <= i < 14 ==> fields[23 + i] == Field(DebugEntries()[i].1.niceName, StringType)
  {
    DebugEntriesShape();
    forall i | 0 <= i < 14
      ensures fields[23 + i] == Field(DebugEntries()[i].1.niceName, StringType)
    {
      assert m[23 + i] == m[23..][i];
    }
  }

  /** An output feature: the point (x, y) and its attributes by field name;
      an attribute never set stays NULL, which is its absence here. */
  datatype Record = Record(x: real, y: real, attributes: PyDict.Dict<Value>)

  /** `feat.setAttribute(name, value)`: a name the feature's fields lack
      raises `KeyError`. */
  function SetAttribute(attrs: PyDict.Dict<Value>, names: seq<string>, name: string, v: Value)
    : (r: Result<PyDict.Dict<Value>, RequestClient.ClientError>)
    ensures r.Success? <==> name in names
    ensures r.Failure? ==> r.error == RequestClient.KeyError(name)
    ensures r.Success? ==> PyDict.Get(r.value, name) == Some(v)
    ensures r.Success? ==> forall n :: n != name ==> PyDict.Get(r.value, n) == PyDict.Get(attrs, n)
  {
    if name in names then PyDict.SetGet(attrs, name, v); Success(PyDict.Set(attrs, name, v))
    else Failure(RequestClient.KeyError(name))
  }

  /** A property key the map knows whose output name is not among the
      feature's fields. */
  predicate Misplaced(fieldsMap: PyDict.Dict<FieldSpec>, names: seq<string>, key: string)
  {
    PyDict.Get(fieldsMap, key).Some? && PyDict.Get(fieldsMap, key).value.niceName !in names
  }

  /** The loop over `point['properties']`: each key the map knows sets the
      attribute under its output name to the property's value, unchanged. */
  function ApplyProperties(fieldsMap: PyDict.Dict<FieldSpec>, names: seq<string>,
                           attrs: PyDict.Dict<Value>, props: PyDict.Dict<Value>)
    : Result<PyDict.Dict<Value>, RequestClient.ClientError>
    decreases |props|
  {
    if |props| == 0 then Success(attrs)
    else
      var spec := PyDict.Get(fieldsMap, props[0].0);
      if spec.None? then ApplyProperties(fieldsMap, names, attrs, props[1..])
      else
        match SetAttribute(attrs, names, spec.value.niceName, props[0].1)
        case Failure(e) => Failure(e)
        case Success(next) => ApplyProperties(fieldsMap, names, next, props[1..])
  }

  /** The loop raises exactly when a property is misplaced, and then with the
      `KeyError` of the first misplaced property's output name. */
  lemma {:induction false} ApplyPropertiesFails(fieldsMap: PyDict.Dict<FieldSpec>, names: seq<string>,
                                                attrs: PyDict.Dict<Value>, props: PyDict.Dict<Value>)
    ensures ApplyProperties(fieldsMap, names, attrs, props).Failure? <==>
      exists i :: 0 <= i < |props| && Misplaced(fieldsMap, names, props[i].0)
    ensures ApplyProperties(fieldsMap, names, attrs, props).Failure? ==>
      exists i :: 0 <= i < |props| && Misplaced(fieldsMap, names, props[i].0)
        && (forall j :: 0 <= j < i ==> !Misplaced(fieldsMap, names, props[j].0))
        && ApplyProperties(fieldsMap, names, attrs, props).error
           == RequestClient.KeyError(PyDict.Get(fieldsMap, props[i].0).value.niceName)
    decreases |props|
  {
    if |props| > 0 {
      var spec := PyDict.Get(fieldsMap, props[0].0);
      var next := if spec.Some? && spec.value.niceName in names then PyDict.Set(attrs, spec.value.niceName, props[0].1) else attrs;
      ApplyPropertiesFails(fieldsMap, names, next, props[1..]);
      if !Misplaced(fieldsMap, names, props[0].0) {
        assert ApplyProperties(fieldsMap, names, attrs, props) == ApplyProperties(fieldsMap, names, next, props[1..]);
        if ApplyProperties(fieldsMap, names, attrs, props).Failure? {
          var i :| 0 <= i < |props[1..]| && Misplaced(fieldsMap, names, props[1..][i].0)
            && (forall j :: 0 <= j < i ==> !Misplaced(fieldsMap, names, props[1..][j].0))
            && ApplyProperties(fieldsMap, names, next, props[1..]).error
               == RequestClient.KeyError(PyDict.Get(fieldsMap, props[1..][i].0).value.niceName);
          assert props[1..][i] == props[i + 1];
          forall j | 0 <= j < i + 1
            ensures !Misplaced(fieldsMap, names, props[j].0)
          {
            if j > 0 {
              assert props[j] == props[1..][j - 1];
            }
          }
        }
        if exists i :: 0 <= i < |props| && Misplaced(fieldsMap, names, props[i].0) {
          var i :| 0 <= i < |props| && Misplaced(fieldsMap, names, props[i].0);
          assert i > 0 && props[1..][i - 1] == props[i];
        }
      }
    }
  }

  /** Reference for the attributes: the value of the last property whose key
      the map sends to output field `n`. */
  function MappedValue(fieldsMap: PyDict.Dict<FieldSpec>, props: PyDict.Dict<Value>, n: string): Option<Value>
    decreases |props|
  {
    if |props| == 0 then None
    else
      var later := MappedValue(fieldsMap, props[1..], n);
      if later.Some? then later
      else match PyDict.Get(fieldsMap, props[0].0)
        case Some(spec) => if spec.niceName == n then Some(props[0].1) else None
        case None => None
  }

  lemma {:induction false} ApplyPropertiesGet(fieldsMap: PyDict.Dict<FieldSpec>, names: seq<string>,
                                              attrs: PyDict.Dict<Value>, props: PyDict.Dict<Value>, n: string)
    requires ApplyProperties(fieldsMap, names, attrs, props).Success?
    ensures PyDict.Get(ApplyProperties(fieldsMap, names, attrs, props).value, n) ==
      if MappedValue(fieldsMap, props, n).Some? then MappedValue(fieldsMap, props, n)
      else PyDict.Get(attrs, n)
    decreases |props|
  {
    if |props| > 0 {
      var spec := PyDict.Get(fieldsMap, props[0].0);
      var next := if spec.Some? then PyDict.Set(attrs, spec.value.niceName, props[0].1) else attrs;
      assert ApplyProperties(fieldsMap, names, attrs, props) == ApplyProperties(fieldsMap, names, next, props[1..]);
      ApplyPropertiesGet(fieldsMap, names, next, props[1..], n);
      if spec.Some? {
        PyDict.SetGet(attrs, spec.value.niceName, props[0].1);
      }
    }
  }

  /** One iteration of `generate_out_features`: the point from the coordinates,
      the id attribute, then the properties. */
  function OutFeature(h: Handler, item: ResultItem, idValue: Value): Result<Record, RequestClient.ClientError>
  {
    var names := FieldNames(h.fields);
    match SetAttribute([], names, h.idField.name, idValue)
    case Failure(e) => Failure(e)
    case Success(attrs) =>
      match ApplyProperties(h.fieldsMap, names, attrs, item.properties)
      case Failure(e) => Failure(e)
      case Success(done) => Success(Record(item.lon, item.lat, done))
  }

  /** Building a feature raises when the id's name is not a field, with that
      name's `KeyError`, or when a property is misplaced; a built feature sits
      at the result's coordinates. */
  lemma OutFeatureFails(h: Handler, item: ResultItem, idValue: Value)
    ensures OutFeature(h, item, idValue).Failure? <==>
      h.idField.name !in FieldNames(h.fields)
      || exists i :: 0 <= i < |item.properties| && Misplaced(h.fieldsMap, FieldNames(h.fields), item.properties[i].0)
    ensures h.idField.name !in FieldNames(h.fields) ==>
      OutFeature(h, item, idValue) == Failure(RequestClient.KeyError(h.idField.name))
    ensures OutFeature(h, item, idValue).Success? ==>
      OutFeature(h, item, idValue).value.x == item.lon && OutFeature(h, item, idValue).value.y == item.lat
  {
    var names := FieldNames(h.fields);
    if h.idField.name in names {
      ApplyPropertiesFails(h.fieldsMap, names, PyDict.Set([], h.idField.name, idValue), item.properties);
    }
  }

  /** What the consumer of `generate_out_features` sees: the features yielded,
      in order, and the error the generator stopped with, if any. */
  datatype Output = Output(records: seq<Record>, raised: Option<RequestClient.ClientError>)

  /** The generator over a list of results: it yields until a feature fails
      to build and then raises. */
  function Generate(h: Handler, items: seq<ResultItem>, idValue: Value): (r: Output)
    ensures |r.records| <= |items|
    ensures r.raised.None? ==> |r.records| == |items|
    decreases |items|
  {
    if |items| == 0 then Output([], None)
    else
      match OutFeature(h, items[0], idValue)
      case Failure(e) => Output([], Some(e))
      case Success(rec) =>
        var rest := Generate(h, items[1..], idValue);
        Output([rec] + rest.records, rest.raised)
  }

  /** `generate_out_features(response, id_field_value)`. */
  function GenerateOutFeatures(h: Handler, response: Body, idValue: Value): Output
  {
    Generate(h, response.features, idValue)
  }

  /** The records yielded are the features of the leading results, in order;
      the generator raises exactly when some result's feature fails, and then
      with the error of the first one, right after the records before it. */
  lemma {:induction false} GenerateStops(h: Handler, items: seq<ResultItem>, idValue: Value)
    ensures var r := Generate(h, items, idValue);
      && (forall i :: 0 <= i < |r.records| ==> OutFeature(h, items[i], idValue) == Success(r.records[i]))
      && (r.raised.Some? <==> exists i :: 0 <= i < |items| && OutFeature(h, items[i], idValue).Failure?)
      && (r.raised.Some? ==> |r.records| < |items| && OutFeature(h, items[|r.records|], idValue) == Failure(r.raised.value))
    decreases |items|
  {
    if |items| > 0 {
      var r := Generate(h, items, idValue);
      match OutFeature(h, items[0], idValue)
      case Failure(e) =>
      case Success(rec) =>
        GenerateStops(h, items[1..], idValue);
        var rest := Generate(h, items[1..], idValue);
        assert r.records == [rec] + rest.records && r.raised == rest.raised;
        forall i | 0 <= i < |r.records|
          ensures OutFeature(h, items[i], idValue) == Success(r.records[i])
        {
          if i > 0 {
            assert items[i] == items[1..][i - 1];
          }
        }
        if exists i :: 0 <= i < |items| && OutFeature(h, items[i], idValue).Failure? {
          var i :| 0 <= i < |items| && OutFeature(h, items[i], idValue).Failure?;
          assert i > 0 && items[1..][i - 1] == items[i];
        }
        if rest.raised.Some? {
          assert items[1..][|rest.records|] == items[|r.records|];
        }
    }
  }

  /** The attributes of each record yielded: a field the handler does not hold
      is never set; otherwise the last property mapped onto the field wins,
      and the id value is kept only when no property is mapped onto the id's
      name. */
  lemma GeneratedAttributes(h: Handler, response: Body, idValue: Value, i: nat, n: string)
    requires i < |GenerateOutFeatures(h, response, idValue).records|
    ensures var rec := GenerateOutFeatures(h, response, idValue).records[i];
      var mapped := MappedValue(h.fieldsMap, response.features[i].properties, n);
      && rec.x == response.features[i].lon && rec.y == response.features[i].lat
      && PyDict.Get(rec.attributes, n) ==
           if n !in FieldNames(h.fields) then None
           else if mapped.Some? then mapped
           else if n == h.idField.name then Some(idValue)
           else None
  {
    var names := FieldNames(h.fields);
    var item := response.features[i];
    GenerateStops(h, response.features, idValue);
    assert h.idField.name in names;
    var attrs := PyDict.Set([], h.idField.name, idValue);
    PyDict.SetGet([], h.idField.name, idValue);
    ApplyPropertiesGet(h.fieldsMap, names, attrs, item.properties, n);
    var mapped := MappedValue(h.fieldsMap, item.properties, n);
    if n !in names && mapped.Some? {
      MappedMisplaced(h.fieldsMap, names, item.properties, n);
      ApplyPropertiesFails(h.fieldsMap, names, attrs, item.properties);
    }
  }

  /** A property mapped onto a name outside the fields is misplaced. */
  lemma {:induction false} MappedMisplaced(fieldsMap: PyDict.Dict<FieldSpec>, names: seq<string>,
                                           props: PyDict.Dict<Value>, n: string)
    requires n !in names && MappedValue(fieldsMap, props, n).Some?
    ensures exists i :: 0 <= i < |props| && Misplaced(fieldsMap, names, props[i].0)
    decreases |props|
  {
    if MappedValue(fieldsMap, props[1..], n).Some? {
      MappedMisplaced(fieldsMap, names, props[1..], n);
      var i :| 0 <= i < |props[1..]| && Misplaced(fieldsMap, names, props[1..][i].0);
      assert props[1..][i] == props[i + 1];
    } else {
      assert Misplaced(fieldsMap, names, props[0].0);
    }
  }

  /** The handler's fields hold the id's name and every output name of its
      map. */
  predicate Fits(h: Handler)
  {
    h.idField.name in FieldNames(h.fields)
    && forall i :: 0 <= i < |h.fieldsMap| ==> h.fieldsMap[i].1.niceName in FieldNames(h.fields)
  }

  /** A handler that fits yields one record per result and raises nothing; one
      whose fields lack the id's name raises that name's `KeyError` at the
      first result, before yielding anything. */
  lemma GenerateOutcome(h: Handler, response: Body, idValue: Value)
    ensures Fits(h) ==> GenerateOutFeatures(h, response, idValue).raised.None?
    ensures Fits(h) ==> |GenerateOutFeatures(h, response, idValue).records| == |response.features|
    ensures h.idField.name !in FieldNames(h.fields) && |response.features| > 0 ==>
      GenerateOutFeatures(h, response, idValue) == Output([], Some(RequestClient.KeyError(h.idField.name)))
  {
    var items := response.features;
    var names := FieldNames(h.fields);
    if Fits(h) {
      forall i | 0 <= i < |items|
        ensures OutFeature(h, items[i], idValue).Success?
      {
        forall j | 0 <= j < |items[i].properties|
          ensures !Misplaced(h.fieldsMap, names, items[i].properties[j].0)
        {
          var spec := PyDict.Get(h.fieldsMap, items[i].properties[j].0);
          if spec.Some? {
            var k :| 0 <= k < |h.fieldsMap| && h.fieldsMap[k] == (items[i].properties[j].0, spec.value);
          }
        }
        OutFeatureFails(h, items[i], idValue);
      }
      GenerateStops(h, items, idValue);
    }
    if h.idField.name !in names && |items| > 0 {
      OutFeatureFails(h, items[0], idValue);
    }
  }

  /** A fresh handler, once `get_fields` has run, fits exactly when the id's
      name is among the output names of its map. */
  lemma FreshHandlerFits(idField: Field, debug: bool)
    ensures Fits(GetFields(NewHandler(idField, debug)).0) <==> idField.name in NiceNames(FieldsMapping(idField, debug))
  {
    var m := FieldsMapping(idField, debug);
    var fields := GetFields(NewHandler(idField, debug)).1;
    forall i | 0 <= i < |m|
      ensures m[i].1.niceName in FieldNames(fields)
    {
      assert NiceNames(m)[i] == m[i].1.niceName;
    }
  }

  /** An id field named like no key keeps its own entry, so the fresh handler
      fits. */
  lemma UnshadowedIdFits(idField: Field, debug: bool)
    requires idField.name !in PyDict.Keys(StandardEntries())
    requires debug ==> idField.name !in PyDict.Keys(DebugEntries())
    ensures Fits(GetFields(NewHandler(idField, debug)).0)
  {
    FieldsMappingShape(idField, debug);
    assert NiceNames(FieldsMapping(idField, debug))[0] == idField.name;
    FreshHandlerFits(idField, debug);
  }

  /** An id field named like a standard key whose output name differs from it
      ("name" or "neighborhood") loses its entry to that key, so no field
      carries its name: the generator raises at the first result. */
  lemma ShadowedIdUnfit(idField: Field, k: nat)
    requires k < |StandardEntries()| && StandardEntries()[k].0 == idField.name
    requires NicePosition(idField.name) == -1
    ensures idField.name !in FieldNames(GetFields(NewHandler(idField)).1)
  {
    IdShadowedByStandardKey(idField, k);
    StandardNicePositions();
    var std := StandardEntries();
    var m := FieldsMapping(idField, false);
    forall i | 0 <= i < |m|
      ensures NiceNames(m)[i] != idField.name
    {
      if i == 0 {
        assert m[i] == std[k];
      } else if i <= k {
        assert m[i] == std[i - 1];
      } else {
        assert m[i] == std[i];
      }
    }
  }

  /** The plain case: an id field called "name", on a non-empty reply, stops
      the generator with `KeyError('name')` before its first feature. */
  lemma IdNamedNameRaises(ftype: VariantType, response: Body, idValue: Value)
    requires |response.features| > 0
    ensures GenerateOutFeatures(GetFields(NewHandler(Field("name", ftype))).0, response, idValue)
      == Output([], Some(RequestClient.KeyError("name")))
  {
    assert StandardEntries()[0].0 == "name";
    ShadowedIdUnfit(Field("name", ftype), 0);
    GenerateOutcome(GetFields(NewHandler(Field("name", ftype))).0, response, idValue);
  }

  /** A memory point layer: its name, its fields and its features. */
  datatype Layer = Layer(name: string, fields: seq<Field>, features: seq<Record>)

  /** The layer title `'Pelias ' + name.capitalize() + ' Geocoding'`: the
      name's first character upper-cased and the rest lower-cased, between a
      fixed prefix and suffix. */
  function LayerTitle(name: string): (t: string)
    ensures |t| == |name| + 17
    ensures t[..7] == "Pelias " && t[|name| + 7..] == " Geocoding"
    ensures |name| > 0 ==> t[7] == Strings.Upper(name[0])
    ensures forall i :: 1 <= i < |name| ==> t[7 + i] == Strings.Lower(name[i])
  {
    "Pelias " + Strings.Capitalize(name) + " Geocoding"
  }

  /** `get_layer(name, response)`: fetches the fields (extending the handler's
      list), then adds the generated features with a `None` id; an error the
      generator raises leaves `get_layer` with no layer. */
  function GetLayer(h: Handler, name: string, response: Body)
    : (r: (Handler, Result<Layer, RequestClient.ClientError>))
    ensures r.0 == GetFields(h).0
    ensures r.1.Success? <==> GenerateOutFeatures(r.0, response, Null).raised.None?
    ensures r.1.Failure? ==> GenerateOutFeatures(r.0, response, Null).raised == Some(r.1.error)
    ensures r.1.Success? ==>
      r.1.value == Layer(LayerTitle(name), r.0.fields, GenerateOutFeatures(r.0, response, Null).records)
  {
    var (h1, fields) := GetFields(h);
    var out := GenerateOutFeatures(h1, response, Null);
    if out.raised.Some? then (h1, Failure(out.raised.value))
    else (h1, Success(Layer(LayerTitle(name), fields, out.records)))
  }

  /** The titles of the layers the dialog asks for. */
  lemma DialogLayerTitles()
    ensures LayerTitle("search") == "Pelias " + "Search" + " Geocoding"
    ensures LayerTitle("reverse") == "Pelias " + "Reverse" + " Geocoding"
  {
    CapitalizeWord("search", "Search");
    CapitalizeWord("reverse", "Reverse");
  }

  /** A word whose capitalised form is `cap` letter by letter. */
  lemma CapitalizeWord(w: string, cap: string)
    requires |w| == |cap| > 0 && cap[0] == Strings.Upper(w[0])
    requires forall i :: 1 <= i < |w| ==> cap[i] == Strings.Lower(w[i])
    ensures Strings.Capitalize(w) == cap
  {
  }

  /** On a fresh handler whose id field collides with no key, the layer is
      built, with one feature per result, and every feature carries a NULL id
      unless a property is mapped onto the id's name. */
  lemma LayerIdIsNull(idField: Field, debug: bool, name: string, response: Body, i: nat)
    requires idField.name !in PyDict.Keys(StandardEntries())
    requires debug ==> idField.name !in PyDict.Keys(DebugEntries())
    requires i < |response.features|
    ensures var layer := GetLayer(NewHandler(idField, debug), name, response).1;
      var mapped := MappedValue(FieldsMapping(idField, debug), response.features[i].properties, idField.name);
      && layer.Success? && |layer.value.features| == |response.features|
      && PyDict.Get(layer.value.features[i].attributes, idField.name) == if mapped.Some? then mapped else Some(Null)
  {
    var h1 := GetFields(NewHandler(idField, debug)).0;
    UnshadowedIdFits(idField, debug);
    GenerateOutcome(h1, response, Null);
    GeneratedAttributes(h1, response, Null, i, idField.name);
  }
}
