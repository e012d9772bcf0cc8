/**
 * The two shapes a dataset file may have, a dict keyed by town or a list
 * of records each naming its town, turned into one town-keyed map
 * (`normalize_to_map`) and rebuilt in the original shape afterwards
 * (`rebuild_original_from_map`).
 */
module Containers {
  import opened Wrappers
  import opened JsonData
  import opened Text
  import opened MergeKeys

  /**
   * A loaded JSON file. A dict root keeps its (key, value) pairs in file
   * order, since iteration order decides which of two keys with the same
   * normalised town wins; any other root is not supported.
   */
  datatype Document =
    | DictRoot(entries: seq<(string, Json)>)
    | ListRoot(items: seq<Json>)
    | OtherRoot(value: Json)

  /**
   * A Python dict from normalised town to record, with its keys in
   * insertion order (re-assigning a key keeps its place).
   */
  datatype TownMap = TownMap(order: seq<string>, towns: map<string, Record>) {
    /** The order lists each key of the map exactly once. */
    ghost predicate Valid() {
      && (forall i, j :: 0 <= i < j < |order| ==> order[i] != order[j])
      && (forall k :: k in towns <==> k in order)
    }
  }

  /** `m[k] = v`. */
  function Put(m: TownMap, k: string, v: Record): (r: TownMap)
    ensures r.towns == m.towns[k := v]
  {
    TownMap(if k in m.towns then m.order else m.order + [k], m.towns[k := v])
  }

  /** `NormalizedData`: the container kind (with the list's town field), the map, and the original. */
  datatype NormalizedData =
    | DictData(townMap: TownMap, entries: seq<(string, Json)>)
    | ListData(townField: string, townMap: TownMap, items: seq<Json>)

  /** What one element of the original contributes: a (normalised town, record) pair, or nothing. */
  type Slot = Option<(string, Record)>

  /** The dicts built by both loops: each present slot in turn assigns its record to its town. */
  function Collect(slots: seq<Slot>): TownMap
    decreases |slots|
  {
    if slots == [] then TownMap([], map[])
    else
      var m := Collect(slots[..|slots| - 1]);
      var s := slots[|slots| - 1];
      if s.Some? then Put(m, s.value.0, s.value.1) else m
  }

  /** The order of a collected map lists each of its towns once. */
  lemma {:induction false} CollectValid(slots: seq<Slot>)
    ensures Collect(slots).Valid()
    decreases |slots|
  {
    if slots != [] {
      CollectValid(slots[..|slots| - 1]);
    }
  }

  /** The collected towns are exactly the towns of the present slots. */
  lemma {:induction false} CollectKeys(slots: seq<Slot>)
    ensures forall k :: k in Collect(slots).towns <==>
      exists i :: 0 <= i < |slots| && slots[i].Some? && slots[i].value.0 == k
    decreases |slots|
  {
    if slots != [] {
      var pre := slots[..|slots| - 1];
      CollectKeys(pre);
      assert forall i :: 0 <= i < |pre| ==> pre[i] == slots[i];
    }
  }

  /** A town's record is the one of the last slot naming that town. */
  lemma {:induction false} CollectLastWins(slots: seq<Slot>, i: nat)
    requires i < |slots| && slots[i].Some?
    requires forall j :: i < j < |slots| ==> !(slots[j].Some? && slots[j].value.0 == slots[i].value.0)
    ensures slots[i].value.0 in Collect(slots).towns
    ensures Collect(slots).towns[slots[i].value.0] == slots[i].value.1
    decreases |slots|
  {
    if i < |slots| - 1 {
      var pre := slots[..|slots| - 1];
      CollectLastWins(pre, i);
    }
  }

  /** A non-object value in a dict root is wrapped as `{"value": v}`. */
  function AsRecord(v: Json): (r: Record)
    ensures v.JObj? ==> r == v.fields
    ensures !v.JObj? ==> r == map["value" := v]
  {
    if v.JObj? then v.fields else map["value" := v]
  }

  /** The slot of one entry of a dict root: every entry counts. */
  function DictSlot(e: (string, Json)): Slot {
    Some((NormTownName(e.0), AsRecord(e.1)))
  }

  function DictSlots(entries: seq<(string, Json)>): (r: seq<Slot>)
    ensures |r| == |entries| && forall i :: 0 <= i < |entries| ==> r[i] == DictSlot(entries[i])
  {
    seq(|entries|, i requires 0 <= i < |entries| => DictSlot(entries[i]))
  }

  /** The slot of one item of a list root: only an object with a non-blank string in the town field counts. */
  function ListSlot(item: Json, townField: string): Slot {
    if item.JObj? && HasTownText(item.fields, townField) then
      Some((NormTownName(item.fields[townField].s), item.fields))
    else None
  }

  function ListSlots(items: seq<Json>, townField: string): (r: seq<Slot>)
    ensures |r| == |items| && forall i :: 0 <= i < |items| ==> r[i] == ListSlot(items[i], townField)
  {
    seq(|items|, i requires 0 <= i < |items| => ListSlot(items[i], townField))
  }

  /** An object whose town field can be guessed. */
  predicate HasGuessableTown(item: Json) {
    item.JObj? && GuessTownField(item.fields).Some?
  }

  /** The town field of the first object in the list that has one. */
  function ListTownField(items: seq<Json>): (r: Option<string>)
    ensures r.Some? ==> r.value in TownFields
    ensures r.None? <==> forall i :: 0 <= i < |items| ==> !HasGuessableTown(items[i])
  {
    if items == [] then None
    else if HasGuessableTown(items[0]) then GuessTownField(items[0].fields)
    else ListTownField(items[1..])
  }

  const NoTownFieldError := "Could not find a town/name field in list-shaped JSON."
  const UnsupportedRootError := "Unsupported JSON root type (must be dict or list)."

  /** `normalize_to_map`. */
  function NormalizeToMap(doc: Document): Result<NormalizedData> {
    match doc
    case DictRoot(entries) => Success(DictData(Collect(DictSlots(entries)), entries))
    case ListRoot(items) =>
      (match ListTownField(items)
       case None => Failure(NoTownFieldError)
       case Some(tf) => Success(ListData(tf, Collect(ListSlots(items, tf)), items)))
    case OtherRoot(_) => Failure(UnsupportedRootError)
  }

  /** `normalize_to_map`: the dict root's loop, or the list root's two loops. */
  method Normalize(doc: Document) returns (r: Result<NormalizedData>)
    ensures r == NormalizeToMap(doc)
  {
    match doc {
      case DictRoot(entries) =>
        var m := CollectDict(entries);
        return Success(DictData(m, entries));
      case ListRoot(items) =>
        var townField := FindTownField(items);
        if townField.None? {
          return Failure(NoTownFieldError);
        }
        var m := CollectList(items, townField.value);
        return Success(ListData(townField.value, m, items));
      case OtherRoot(_) =>
        return Failure(UnsupportedRootError);
    }
  }

  /** The loop over a dict root: every key, normalised, gets its (wrapped) value. */
  method CollectDict(entries: seq<(string, Json)>) returns (m: TownMap)
    ensures m == Collect(DictSlots(entries))
  {
    ghost var slots := DictSlots(entries);
    m := TownMap([], map[]);
    for i := 0 to |entries|
      invariant m == Collect(slots[..i])
    {
      assert slots[..i + 1][..i] == slots[..i];
      var (town, v) := entries[i];
      m := Put(m, NormTownName(town), AsRecord(v));
    }
    assert slots[..|entries|] == slots;
  }

  /** The search for the town field: the first object whose town field can be guessed. */
  method FindTownField(items: seq<Json>) returns (townField: Option<string>)
    ensures townField == ListTownField(items)
  {
    var n := 0;
    while n < |items|
      invariant n <= |items|
      invariant ListTownField(items) == ListTownField(items[n..])
    {
      assert items[n..][1..] == items[n + 1..];
      if items[n].JObj? {
        var tf := GuessTownField(items[n].fields);
        if tf.Some? {
          return tf;
        }
      }
      n := n + 1;
    }
    assert items[n..] == [];
    return None;
  }

  /** The loop over a list root: objects with a non-blank town name, under that name normalised. */
  method CollectList(items: seq<Json>, townField: string) returns (m: TownMap)
    ensures m == Collect(ListSlots(items, townField))
  {
    ghost var slots := ListSlots(items, townField);
    m := TownMap([], map[]);
    for i := 0 to |items|
      invariant m == Collect(slots[..i])
    {
      assert slots[..i + 1][..i] == slots[..i];
      var item := items[i];
      if !item.JObj? {
        continue;
      }
      var town := if townField in item.fields then item.fields[townField] else JNull;
      if !town.JStr? || Strip(town.s) == "" {
        continue;
      }
      m := Put(m, NormTownName(town.s), item.fields);
    }
    assert slots[..|items|] == slots;
  }

  /** Collected towns whose names are all in normal form have keys in normal form. */
  lemma CollectNormalKeys(slots: seq<Slot>)
    requires forall i :: 0 <= i < |slots| && slots[i].Some? ==> NormalForm(slots[i].value.0)
    ensures Collect(slots).Valid()
    ensures forall k :: k in Collect(slots).towns ==> NormalForm(k) && NormTownName(k) == k
  {
    CollectValid(slots);
    CollectKeys(slots);
    forall k | k in Collect(slots).towns
      ensures NormalForm(k) && NormTownName(k) == k
    {
      NormTownNameFixed(k);
    }
  }

  lemma DictSlotsNormal(entries: seq<(string, Json)>)
    ensures forall i :: 0 <= i < |entries| ==> DictSlots(entries)[i].Some? && NormalForm(DictSlots(entries)[i].value.0)
  {
    forall i | 0 <= i < |entries|
      ensures NormalForm(DictSlots(entries)[i].value.0)
    {
      NormTownNameShape(entries[i].0);
    }
  }

  lemma ListSlotsNormal(items: seq<Json>, townField: string)
    ensures forall i :: 0 <= i < |items| && ListSlots(items, townField)[i].Some? ==>
      NormalForm(ListSlots(items, townField)[i].value.0)
  {
    forall i | 0 <= i < |items| && ListSlots(items, townField)[i].Some?
      ensures NormalForm(ListSlots(items, townField)[i].value.0)
    {
      NormTownNameShape(items[i].fields[townField].s);
    }
  }

  /** The town map of a normalised file lists each town once, and every town key is in normal form. */
  lemma NormalizedMapValid(doc: Document)
    requires NormalizeToMap(doc).Success?
    ensures NormalizeToMap(doc).value.townMap.Valid()
    ensures forall k :: k in NormalizeToMap(doc).value.townMap.towns ==> NormalForm(k) && NormTownName(k) == k
  {
    match doc
    case DictRoot(entries) =>
      DictSlotsNormal(entries);
      CollectNormalKeys(DictSlots(entries));
    case ListRoot(items) =>
      var tf := NormalizeToMap(doc).value.townField;
      ListSlotsNormal(items, tf);
      CollectNormalKeys(ListSlots(items, tf));
  }

  /** A list root with no object carrying a guessable town field is an error, and only such a list is. */
  lemma ListWithoutTownIsError(items: seq<Json>)
    ensures NormalizeToMap(ListRoot(items)).Failure? <==> forall i :: 0 <= i < |items| ==> !HasGuessableTown(items[i])
  {
  }

  /**
   * In a list root, the towns are exactly the normalised names of the
   * usable records, and a later record with the same normalised town
   * replaces an earlier one.
   */
  lemma ListLaterRecordWins(items: seq<Json>, i: nat)
    requires NormalizeToMap(ListRoot(items)).Success? && i < |items|
    requires var tf := NormalizeToMap(ListRoot(items)).value.townField;
      ListSlot(items[i], tf).Some? &&
      forall j :: i < j < |items| && ListSlot(items[j], tf).Some? ==> ListSlot(items[j], tf).value.0 != ListSlot(items[i], tf).value.0
    ensures var d := NormalizeToMap(ListRoot(items)).value;
      var town := NormTownName(items[i].fields[d.townField].s);
      town in d.townMap.towns && d.townMap.towns[town] == items[i].fields
  {
    var tf := NormalizeToMap(ListRoot(items)).value.townField;
    CollectLastWins(ListSlots(items, tf), i);
  }

  /** In a dict root, a later key with the same normalised town replaces an earlier one. */
  lemma DictLaterKeyWins(entries: seq<(string, Json)>, i: nat)
    requires i < |entries|
    requires forall j :: i < j < |entries| ==> NormTownName(entries[j].0) != NormTownName(entries[i].0)
    ensures var d := NormalizeToMap(DictRoot(entries)).value;
      NormTownName(entries[i].0) in d.townMap.towns && d.townMap.towns[NormTownName(entries[i].0)] == AsRecord(entries[i].1)
  {
    CollectLastWins(DictSlots(entries), i);
  }

  /** The towns of a dict root are exactly its keys, normalised. */
  lemma DictTownsExactly(entries: seq<(string, Json)>)
    ensures forall k :: k in NormalizeToMap(DictRoot(entries)).value.townMap.towns <==>
      exists i :: 0 <= i < |entries| && NormTownName(entries[i].0) == k
  {
    var slots := DictSlots(entries);
    CollectKeys(slots);
    forall k | k in Collect(slots).towns
      ensures exists i :: 0 <= i < |entries| && NormTownName(entries[i].0) == k
    {
      var i :| 0 <= i < |slots| && slots[i].Some? && slots[i].value.0 == k;
      assert NormTownName(entries[i].0) == k;
    }
    forall k, i | 0 <= i < |entries| && NormTownName(entries[i].0) == k
      ensures k in Collect(slots).towns
    {
      assert slots[i].Some? && slots[i].value.0 == k;
    }
  }

  /** The towns of a list root are exactly the normalised town names of its usable records. */
  lemma ListTownsExactly(items: seq<Json>)
    requires NormalizeToMap(ListRoot(items)).Success?
    ensures var tf := NormalizeToMap(ListRoot(items)).value.townField;
      forall k :: k in NormalizeToMap(ListRoot(items)).value.townMap.towns <==>
        exists i :: 0 <= i < |items| && ListSlot(items[i], tf).Some? && ListSlot(items[i], tf).value.0 == k
  {
    var tf := NormalizeToMap(ListRoot(items)).value.townField;
    CollectKeys(ListSlots(items, tf));
  }

  /** A dict entry after the rebuild: the merged record of its town, when there is one. */
  function RebuiltEntry(e: (string, Json), newMap: map<string, Record>): (string, Json) {
    (e.0, if NormTownName(e.0) in newMap then JObj(newMap[NormTownName(e.0)]) else e.1)
  }

  /** A list item after the rebuild: the merged record of its town, when it names one that has one. */
  function RebuiltItem(item: Json, townField: string, newMap: map<string, Record>): Json {
    var s := ListSlot(item, townField);
    if s.Some? && s.value.0 in newMap then JObj(newMap[s.value.0]) else item
  }

  /** `rebuild_original_from_map`. */
  function RebuildOriginal(norm: NormalizedData, newMap: map<string, Record>): Document {
    match norm
    case DictData(_, entries) =>
      DictRoot(seq(|entries|, i requires 0 <= i < |entries| => RebuiltEntry(entries[i], newMap)))
    case ListData(tf, _, items) =>
      ListRoot(seq(|items|, i requires 0 <= i < |items| => RebuiltItem(items[i], tf, newMap)))
  }

  /** `rebuild_original_from_map`, appending to the output one element at a time. */
  method Rebuild(norm: NormalizedData, newMap: map<string, Record>) returns (r: Document)
    ensures r == RebuildOriginal(norm, newMap)
  {
    match norm {
      case DictData(_, entries) =>
        var out: seq<(string, Json)> := [];
        for i := 0 to |entries|
          invariant out == seq(i, j requires 0 <= j < i => RebuiltEntry(entries[j], newMap))
        {
          var (townKey, rec) := entries[i];
          var nk := NormTownName(townKey);
          if nk in newMap {
            out := out + [(townKey, JObj(newMap[nk]))];
          } else {
            out := out + [(townKey, rec)];
          }
        }
        return DictRoot(out);
      case ListData(tf, _, items) =>
        var out: seq<Json> := [];
        for i := 0 to |items|
          invariant out == seq(i, j requires 0 <= j < i => RebuiltItem(items[j], tf, newMap))
        {
          var rec := items[i];
          if !rec.JObj? {
            out := out + [rec];
            continue;
          }
          if tf in rec.fields && rec.fields[tf].JStr? && Strip(rec.fields[tf].s) != "" {
            var nk := NormTownName(rec.fields[tf].s);
            if nk in newMap {
              out := out + [JObj(newMap[nk])];
            } else {
              out := out + [rec];
            }
          } else {
            out := out + [rec];
          }
        }
        return ListRoot(out);
    }
  }

  /**
   * A rebuilt dict has the original keys in the original order, and a
   * rebuilt list the original length; an entry or item whose town is in
   * the merged map is replaced by that town's record, only such an entry or
   * item changes, and everything else is kept as it was. So no town absent from the original appears.
   */
  lemma RebuildKeepsShape(norm: NormalizedData, newMap: map<string, Record>)
    ensures norm.DictData? ==> var r := RebuildOriginal(norm, newMap);
      r.DictRoot? && |r.entries| == |norm.entries| &&
      forall i :: 0 <= i < |norm.entries| ==>
        r.entries[i].0 == norm.entries[i].0 &&
        (NormTownName(norm.entries[i].0) in newMap ==> r.entries[i].1 == JObj(newMap[NormTownName(norm.entries[i].0)])) &&
        (NormTownName(norm.entries[i].0) !in newMap ==> r.entries[i].1 == norm.entries[i].1)
    ensures norm.ListData? ==> var r := RebuildOriginal(norm, newMap);
      r.ListRoot? && |r.items| == |norm.items| &&
      forall i :: 0 <= i < |norm.items| ==>
        (ListSlot(norm.items[i], norm.townField).Some? && ListSlot(norm.items[i], norm.townField).value.0 in newMap ==>
          r.items[i] == JObj(newMap[ListSlot(norm.items[i], norm.townField).value.0])) &&
        (r.items[i] != norm.items[i] ==>
          ListSlot(norm.items[i], norm.townField).Some? &&
          ListSlot(norm.items[i], norm.townField).value.0 in newMap &&
          r.items[i] == JObj(newMap[ListSlot(norm.items[i], norm.townField).value.0]))
  {
  }

  /**
   * Rebuilding a list from its own town map gives the list back when no
   * two usable records share a normalised town.
   */
  lemma RebuildListRoundTrip(items: seq<Json>)
    requires NormalizeToMap(ListRoot(items)).Success?
    requires var tf := NormalizeToMap(ListRoot(items)).value.townField;
      forall i, j :: 0 <= i < j < |items| && ListSlot(items[i], tf).Some? && ListSlot(items[j], tf).Some? ==>
        ListSlot(items[i], tf).value.0 != ListSlot(items[j], tf).value.0
    ensures var d := NormalizeToMap(ListRoot(items)).value;
      RebuildOriginal(d, d.townMap.towns) == ListRoot(items)
  {
    var d := NormalizeToMap(ListRoot(items)).value;
    var r := RebuildOriginal(d, d.townMap.towns);
    forall i | 0 <= i < |items|
      ensures r.items[i] == items[i]
    {
      if ListSlot(items[i], d.townField).Some? {
        CollectLastWins(ListSlots(items, d.townField), i);
      }
    }
  }

  /**
   * Rebuilding a dict from its own town map gives the dict back when every
   * value is an object and no two keys share a normalised town.
   */
  lemma RebuildDictRoundTrip(entries: seq<(string, Json)>)
    requires forall i :: 0 <= i < |entries| ==> entries[i].1.JObj?
    requires forall i, j :: 0 <= i < j < |entries| ==> NormTownName(entries[i].0) != NormTownName(entries[j].0)
    ensures var d := NormalizeToMap(DictRoot(entries)).value;
      RebuildOriginal(d, d.townMap.towns) == DictRoot(entries)
  {
    var d := NormalizeToMap(DictRoot(entries)).value;
    var r := RebuildOriginal(d, d.townMap.towns);
    forall i | 0 <= i < |entries|
      ensures r.entries[i] == entries[i]
    {
      CollectLastWins(DictSlots(entries), i);
    }
  }
}
