/**
 * The per-town promotion loop of the merge tool's `main`, and the whole
 * merge from two loaded files to the merged canonical file and its
 * report rows.
 */
module Promotion {
  import opened Wrappers
  import opened JsonData
  import opened Text
  import opened MergeKeys
  import opened FieldMerge
  import opened Containers

  /** The report's `action` column. */
  datatype Action = Added | Skipped | Merged | Noop {
    function Name(): string {
      match this
      case Added => "added"
      case Skipped => "skipped"
      case Merged => "merged"
      case Noop => "noop"
    }
  }

  /**
   * One report row: the town label, the action, the status read from the
   * rediscovered record, and the changed fields (empty unless merged).
   */
  datatype ReportRow = ReportRow(town: string, action: Action, status: string, changedFields: set<string>)

  /** What the loop does for one rediscovered town: the action and the record it stores, if any. */
  datatype Decision = Decision(action: Action, store: Option<Record>, changed: set<string>)

  /** The branches of the loop body for the town `town` with rediscovered record `rec`. */
  function Decide(canonical: map<string, Record>, town: string, rec: Record, p: MergePolicy): Decision {
    var status := StatusOf(rec);
    if town !in canonical then
      if p.allowNewTowns && status in p.promoteStatuses then Decision(Added, Some(rec), {})
      else Decision(Skipped, None, {})
    else if status !in p.promoteStatuses then Decision(Skipped, None, {})
    else
      var changes := Changes(canonical[town], rec, p);
      if changes != map[] then Decision(Merged, Some(MergedRecord(canonical[town], rec, p)), changes.Keys)
      else Decision(Noop, None, {})
  }

  /** Whether the rediscovered record's status is one the policy promotes. */
  predicate Promoted(rec: Record, p: MergePolicy) {
    StatusOf(rec) in p.promoteStatuses
  }

  /**
   * The decision table: a new town is added only when new towns are
   * allowed and its status is promoted, and skipped otherwise; a known town
   * with a status not promoted is skipped; a promoted known town is merged
   * exactly when `merge_record` reports changes, and is a no-op otherwise.
   */
  lemma DecisionTable(canonical: map<string, Record>, town: string, rec: Record, p: MergePolicy)
    ensures var d := Decide(canonical, town, rec, p);
      && (town !in canonical ==>
           (d.action == Added <==> p.allowNewTowns && Promoted(rec, p)) &&
           (d.action == Added ==> d.store == Some(rec)) &&
           (d.action != Added ==> d.action == Skipped && d.store == None))
      && (town in canonical && !Promoted(rec, p) ==> d.action == Skipped && d.store == None)
      && (town in canonical && Promoted(rec, p) ==>
           (d.action == Merged <==> Changes(canonical[town], rec, p) != map[]) &&
           (d.action == Merged ==> d.changed == Changes(canonical[town], rec, p).Keys) &&
           (d.action != Merged ==> d.action == Noop && d.store == None))
  {
  }

  /** The record the loop stores for `town`, if any. */
  function StoreOf(canonical: map<string, Record>, rediscovered: map<string, Record>, p: MergePolicy, town: string): Option<Record> {
    if town in rediscovered then Decide(canonical, town, rediscovered[town], p).store else None
  }

  /** The towns among `done` for which the loop stores a record. */
  function StoredTowns(canonical: map<string, Record>, rediscovered: map<string, Record>, p: MergePolicy, done: set<string>): set<string> {
    set t | t in done && t in rediscovered && StoreOf(canonical, rediscovered, p, t).Some?
  }

  /** `merged_map` once the towns in `done` have been processed. */
  function MergedOver(canonical: map<string, Record>, rediscovered: map<string, Record>, p: MergePolicy, done: set<string>): map<string, Record> {
    var stored := StoredTowns(canonical, rediscovered, p, done);
    map t | t in canonical.Keys + stored ::
      if t in stored then StoreOf(canonical, rediscovered, p, t).value else canonical[t]
  }

  /** `merged_map` after the loop. */
  function MergedTowns(canonical: map<string, Record>, rediscovered: map<string, Record>, p: MergePolicy): map<string, Record> {
    MergedOver(canonical, rediscovered, p, rediscovered.Keys)
  }

  /** The first key of a dict root that normalises to `town`. */
  function FirstKeyFor(entries: seq<(string, Json)>, town: string): (r: Option<string>)
    ensures r.Some? ==> NormTownName(r.value) == town
  {
    if entries == [] then None
    else if NormTownName(entries[0].0) == town then Some(entries[0].0)
    else FirstKeyFor(entries[1..], town)
  }

  /** The label key is the first key normalising to `town`; there is none exactly when no key does. */
  lemma {:induction false} FirstKeyForIsFirst(entries: seq<(string, Json)>, town: string)
    ensures FirstKeyFor(entries, town).None? <==> forall i :: 0 <= i < |entries| ==> NormTownName(entries[i].0) != town
    ensures FirstKeyFor(entries, town).Some? ==> NormTownName(FirstKeyFor(entries, town).value) == town
    ensures FirstKeyFor(entries, town).Some? ==>
      exists i :: 0 <= i < |entries| && entries[i].0 == FirstKeyFor(entries, town).value &&
        forall j :: 0 <= j < i ==> NormTownName(entries[j].0) != town
  {
    if entries != [] && NormTownName(entries[0].0) != town {
      FirstKeyForIsFirst(entries[1..], town);
      forall i | 0 <= i < |entries[1..]| ensures entries[1..][i] == entries[i + 1] { }
      if FirstKeyFor(entries, town).Some? {
        var i :| 0 <= i < |entries[1..]| && entries[1..][i].0 == FirstKeyFor(entries[1..], town).value &&
          forall j :: 0 <= j < i ==> NormTownName(entries[1..][j].0) != town;
        forall j | 0 <= j < i + 1
          ensures NormTownName(entries[j].0) != town
        {
          if j > 0 { assert entries[j] == entries[1..][j - 1]; }
        }
        assert entries[i + 1].0 == FirstKeyFor(entries, town).value;
      } else {
        forall i | 0 <= i < |entries|
          ensures NormTownName(entries[i].0) != town
        {
          if i > 0 { assert entries[i] == entries[1..][i - 1]; }
        }
      }
    } else if entries != [] {
      assert entries[0].0 == FirstKeyFor(entries, town).value;
    }
  }

  /**
   * The report label of a town: the original dict key, or the list
   * record's town field; `town_label or town_norm` falls back on the
   * normalised name.
   */
  function TownLabel(canonical: NormalizedData, town: string): string {
    var name :=
      (match canonical
       case DictData(_, entries) => FirstKeyFor(entries, town)
       case ListData(tf, m, _) =>
         if town in m.towns && tf in m.towns[town] && m.towns[town][tf].JStr? then Some(m.towns[town][tf].s) else None);
    if name.Some? && name.value != "" then name.value else town
  }

  /** The report row of one rediscovered town. */
  function RowFor(canonical: NormalizedData, town: string, rec: Record, p: MergePolicy): ReportRow {
    var d := Decide(canonical.townMap.towns, town, rec, p);
    ReportRow(TownLabel(canonical, town), d.action, StatusOf(rec), d.changed)
  }

  /** The report rows of the towns in `order`, one per town, in that order. */
  function RowsOf(canonical: NormalizedData, towns: map<string, Record>, order: seq<string>, p: MergePolicy): (rows: seq<ReportRow>)
    requires forall i :: 0 <= i < |order| ==> order[i] in towns
    ensures |rows| == |order|
    decreases |order|
  {
    if order == [] then []
    else RowsOf(canonical, towns, order[..|order| - 1], p) + [RowFor(canonical, order[|order| - 1], towns[order[|order| - 1]], p)]
  }

  /** The report rows, one per rediscovered town, in the rediscovered map's order. */
  function Rows(canonical: NormalizedData, rediscovered: TownMap, p: MergePolicy): (rows: seq<ReportRow>)
    requires forall i :: 0 <= i < |rediscovered.order| ==> rediscovered.order[i] in rediscovered.towns
    ensures |rows| == |rediscovered.order|
  {
    RowsOf(canonical, rediscovered.towns, rediscovered.order, p)
  }

  /** Row `i` reports the `i`-th rediscovered town. */
  lemma {:induction false} RowsAt(canonical: NormalizedData, towns: map<string, Record>, order: seq<string>, p: MergePolicy, i: nat)
    requires forall j :: 0 <= j < |order| ==> order[j] in towns
    requires i < |order|
    ensures RowsOf(canonical, towns, order, p)[i] == RowFor(canonical, order[i], towns[order[i]], p)
    decreases |order|
  {
    if i < |order| - 1 {
      RowsAt(canonical, towns, order[..|order| - 1], p, i);
    }
  }

  /** One more town of the loop: `merged_map` changes at that town alone, to the stored record. */
  lemma MergedStep(canonical: map<string, Record>, rediscovered: map<string, Record>, p: MergePolicy, done: set<string>, t: string)
    requires t in rediscovered
    ensures StoreOf(canonical, rediscovered, p, t).Some? ==>
      MergedOver(canonical, rediscovered, p, done + {t}) ==
        MergedOver(canonical, rediscovered, p, done)[t := StoreOf(canonical, rediscovered, p, t).value]
    ensures StoreOf(canonical, rediscovered, p, t).None? ==>
      MergedOver(canonical, rediscovered, p, done + {t}) == MergedOver(canonical, rediscovered, p, done)
  {
    if StoreOf(canonical, rediscovered, p, t).None? {
      assert StoredTowns(canonical, rediscovered, p, done + {t}) == StoredTowns(canonical, rediscovered, p, done);
    }
  }

  /** The body of the loop for one town: the row it appends and the record it stores, if any. */
  method PromoteTown(canonical: NormalizedData, town: string, rec: Record, p: MergePolicy)
    returns (row: ReportRow, store: Option<Record>)
    ensures row == RowFor(canonical, town, rec, p)
    ensures store == Decide(canonical.townMap.towns, town, rec, p).store
  {
    var name := TownLabel(canonical, town);
    var status := StatusOf(rec);
    if town !in canonical.townMap.towns {
      if p.allowNewTowns && status in p.promoteStatuses {
        return ReportRow(name, Added, status, {}), Some(rec);
      }
      return ReportRow(name, Skipped, status, {}), None;
    }
    if status !in p.promoteStatuses {
      return ReportRow(name, Skipped, status, {}), None;
    }
    var before := canonical.townMap.towns[town];
    var after, changes := MergeRecord(before, rec, p);
    if changes != map[] {
      return ReportRow(name, Merged, status, changes.Keys), Some(after);
    }
    return ReportRow(name, Noop, status, {}), None;
  }

  /** The towns listed in `order`. */
  function Listed(order: seq<string>): set<string> {
    set j | 0 <= j < |order| :: order[j]
  }

  lemma ListedStep(order: seq<string>, i: nat)
    requires i < |order|
    ensures Listed(order[..i + 1]) == Listed(order[..i]) + {order[i]}
  {
    assert forall j :: 0 <= j < i ==> order[..i + 1][j] == order[..i][j];
  }

  /** The order of a valid town map lists exactly its towns. */
  lemma ListedTowns(m: TownMap)
    requires m.Valid()
    ensures Listed(m.order) == m.towns.Keys
  {
    forall k | k in m.towns
      ensures k in Listed(m.order)
    {
      var j :| 0 <= j < |m.order| && m.order[j] == k;
    }
  }

  /**
   * The loop of `main` over the rediscovered towns, starting from a copy of
   * the canonical map and appending one report row per town.
   */
  method PromoteTowns(canonical: NormalizedData, rediscovered: TownMap, p: MergePolicy)
    returns (merged: map<string, Record>, rows: seq<ReportRow>)
    requires rediscovered.Valid()
    ensures merged == MergedTowns(canonical.townMap.towns, rediscovered.towns, p)
    ensures rows == Rows(canonical, rediscovered, p)
  {
    ListedTowns(rediscovered);
    merged, rows := PromoteInOrder(canonical, rediscovered.towns, rediscovered.order, p);
    assert rediscovered.order[..|rediscovered.order|] == rediscovered.order;
  }

  /** The loop itself, over the towns in `order`. */
  method PromoteInOrder(canonical: NormalizedData, towns: map<string, Record>, order: seq<string>, p: MergePolicy)
    returns (merged: map<string, Record>, rows: seq<ReportRow>)
    requires forall i :: 0 <= i < |order| ==> order[i] in towns
    ensures merged == MergedOver(canonical.townMap.towns, towns, p, Listed(order[..|order|]))
    ensures rows == RowsOf(canonical, towns, order[..|order|], p)
  {
    var canon := canonical.townMap.towns;
    merged := canon;
    rows := [];
    assert Listed(order[..0]) == {};
    assert MergedOver(canon, towns, p, {}) == canon;
    for i := 0 to |order|
      invariant merged == MergedOver(canon, towns, p, Listed(order[..i]))
      invariant rows == RowsOf(canonical, towns, order[..i], p)
    {
      var town := order[i];
      var rec := towns[town];
      var row, store := PromoteTown(canonical, town, rec, p);
      ListedStep(order, i);
      MergedStep(canon, towns, p, Listed(order[..i]), town);
      if store.Some? {
        merged := merged[town := store.value];
      }
      assert order[..i + 1][..i] == order[..i];
      rows := rows + [row];
    }
  }

  /** A canonical town that is not rediscovered, or whose status is not promoted, is kept as it was. */
  lemma UnpromotedTownsKept(canonical: map<string, Record>, rediscovered: map<string, Record>, p: MergePolicy, t: string)
    requires t in canonical
    requires t !in rediscovered || !Promoted(rediscovered[t], p)
    ensures t in MergedTowns(canonical, rediscovered, p)
    ensures MergedTowns(canonical, rediscovered, p)[t] == canonical[t]
  {
  }

  /**
   * A town missing from canonical appears in the result only when new
   * towns are allowed and its status is promoted, and then as the
   * rediscovered record.
   */
  lemma NewTownsRule(canonical: map<string, Record>, rediscovered: map<string, Record>, p: MergePolicy, t: string)
    requires t !in canonical
    ensures t in MergedTowns(canonical, rediscovered, p) <==>
      p.allowNewTowns && t in rediscovered && Promoted(rediscovered[t], p)
    ensures t in MergedTowns(canonical, rediscovered, p) ==> MergedTowns(canonical, rediscovered, p)[t] == rediscovered[t]
  {
  }

  /** A promoted canonical town ends as the `merge_record` of its two records (unchanged when there is nothing to change). */
  lemma PromotedTownsMerged(canonical: map<string, Record>, rediscovered: map<string, Record>, p: MergePolicy, t: string)
    requires t in canonical && t in rediscovered && Promoted(rediscovered[t], p)
    ensures t in MergedTowns(canonical, rediscovered, p)
    ensures MergedTowns(canonical, rediscovered, p)[t] == MergedRecord(canonical[t], rediscovered[t], p)
  {
    if Changes(canonical[t], rediscovered[t], p) == map[] {
      NoChangesNoEdit(canonical[t], rediscovered[t], p);
    }
  }

  /** The canonical towns all stay, and no protected field of any of them changes. */
  lemma ProtectedFieldsSurvive(canonical: map<string, Record>, rediscovered: map<string, Record>, p: MergePolicy)
    ensures forall t :: t in canonical ==> t in MergedTowns(canonical, rediscovered, p)
    ensures forall t, k :: t in canonical && k in p.protectFields ==>
      KeptAsIs(canonical[t], MergedTowns(canonical, rediscovered, p)[t], k)
  {
    forall t | t in canonical
      ensures t in MergedTowns(canonical, rediscovered, p)
      ensures forall k :: k in p.protectFields ==> KeptAsIs(canonical[t], MergedTowns(canonical, rediscovered, p)[t], k)
    {
      if t in rediscovered && Promoted(rediscovered[t], p) {
        PromotedTownsMerged(canonical, rediscovered, p, t);
        ProtectedFieldsKept(canonical[t], rediscovered[t], p);
      } else {
        UnpromotedTownsKept(canonical, rediscovered, p, t);
      }
    }
  }

  /** With new towns not allowed, the result has exactly the canonical towns. */
  lemma NoNewTownsByDefault(canonical: map<string, Record>, rediscovered: map<string, Record>, p: MergePolicy)
    requires !p.allowNewTowns
    ensures MergedTowns(canonical, rediscovered, p).Keys == canonical.Keys
  {
  }

  /** Running the loop again on its own result changes nothing more. */
  lemma PromotionIdempotent(canonical: map<string, Record>, rediscovered: map<string, Record>, p: MergePolicy)
    ensures var once := MergedTowns(canonical, rediscovered, p);
      MergedTowns(once, rediscovered, p) == once
  {
    var once := MergedTowns(canonical, rediscovered, p);
    var twice := MergedTowns(once, rediscovered, p);
    forall t | t in rediscovered && t in once && Promoted(rediscovered[t], p)
      ensures Changes(once[t], rediscovered[t], p) == map[]
    {
      if t in canonical {
        PromotedTownsMerged(canonical, rediscovered, p, t);
        MergeIdempotent(canonical[t], rediscovered[t], p);
      } else {
        MergeIdempotent(map[], rediscovered[t], p);
        SelfMergeNoChanges(rediscovered[t], p);
      }
    }
    assert StoredTowns(once, rediscovered, p, rediscovered.Keys) == {};
  }

  /** Merging a record into itself changes nothing. */
  lemma SelfMergeNoChanges(rec: Record, p: MergePolicy)
    ensures Changes(rec, rec, p) == map[]
  {
    forall k | k in rec
      ensures !Overwrites(p, k, rec[k], Get(rec, k))
    {
      PyEqualReflexive(rec[k]);
    }
    assert Written(rec, rec, p) == {};
  }

  /**
   * A record that carries none of the status keys reads as status
   * "unknown", so the default policy skips it and stores nothing.
   */
  lemma DefaultSkipsUnmarked(canonical: map<string, Record>, town: string, rec: Record)
    requires forall i :: 0 <= i < |StatusKeys| ==> StatusKeys[i] !in rec
    requires forall i :: 0 <= i < |NestedKeys| ==> NestedKeys[i] !in rec
    ensures Decide(canonical, town, rec, DefaultPolicy).action == Skipped
    ensures Decide(canonical, town, rec, DefaultPolicy).store == None
  {
    UnmarkedStatusIsUnknown(rec);
  }

  /** The whole merge: both files normalised, the loop, and the canonical file rebuilt in its shape. */
  function MergeDocuments(canonical: Document, rediscovered: Document, p: MergePolicy): Result<(Document, seq<ReportRow>)> {
    match NormalizeToMap(canonical)
    case Failure(e) => Failure(e)
    case Success(canon) =>
      match NormalizeToMap(rediscovered)
      case Failure(e) => Failure(e)
      case Success(redisc) =>
        NormalizedMapValid(rediscovered);
        var merged := MergedTowns(canon.townMap.towns, redisc.townMap.towns, p);
        Success((RebuildOriginal(canon, merged), Rows(canon, redisc.townMap, p)))
  }

  /** `main` without the file I/O: normalise, promote, rebuild. */
  method RunMerge(canonical: Document, rediscovered: Document, p: MergePolicy)
    returns (r: Result<(Document, seq<ReportRow>)>)
    ensures r == MergeDocuments(canonical, rediscovered, p)
  {
    var canon := Normalize(canonical);
    if canon.Failure? {
      return Failure(canon.error);
    }
    var redisc := Normalize(rediscovered);
    if redisc.Failure? {
      return Failure(redisc.error);
    }
    NormalizedMapValid(rediscovered);
    var merged, rows := PromoteTowns(canon.value, redisc.value.townMap, p);
    var out := Rebuild(canon.value, merged);
    return Success((out, rows));
  }

  /**
   * The merged file has the canonical file's shape: a list keeps its
   * length and a dict its keys in order; there is one report row per
   * rediscovered town.
   */
  lemma MergeKeepsShape(canonical: Document, rediscovered: Document, p: MergePolicy)
    requires MergeDocuments(canonical, rediscovered, p).Success?
    ensures var (out, rows) := MergeDocuments(canonical, rediscovered, p).value;
      && (canonical.ListRoot? ==> out.ListRoot? && |out.items| == |canonical.items|)
      && (canonical.DictRoot? ==> (out.DictRoot? && |out.entries| == |canonical.entries| &&
            forall i :: 0 <= i < |out.entries| ==> out.entries[i].0 == canonical.entries[i].0))
      && |rows| == |NormalizeToMap(rediscovered).value.townMap.towns|
  {
    var canon := NormalizeToMap(canonical).value;
    var redisc := NormalizeToMap(rediscovered).value;
    var merged := MergedTowns(canon.townMap.towns, redisc.townMap.towns, p);
    RebuildKeepsShape(canon, merged);
    NormalizedMapValid(rediscovered);
    DistinctOrderSize(redisc.townMap);
  }

  /** A valid town map's order is as long as the map is large. */
  lemma {:induction false} DistinctOrderSize(m: TownMap)
    requires m.Valid()
    ensures |m.order| == |m.towns|
    decreases |m.order|
  {
    if m.order != [] {
      var k := m.order[|m.order| - 1];
      var n := |m.order| - 1;
      var rest := TownMap(m.order[..n], m.towns - {k});
      forall x ensures x in rest.towns <==> x in rest.order {
        if x in rest.order {
          var i :| 0 <= i < n && rest.order[i] == x;
          assert m.order[i] == x && m.order[i] != m.order[n];
        }
        if x in m.order && x != k {
          var i :| 0 <= i <= n && m.order[i] == x;
          assert rest.order[i] == x;
        }
      }
      assert rest.Valid();
      DistinctOrderSize(rest);
      assert |m.towns - {k}| == |m.towns| - 1;
    }
  }

  /** An unsupported root in either file is an error. */
  lemma UnsupportedRootFails(canonical: Document, rediscovered: Document, p: MergePolicy)
    requires canonical.OtherRoot? || rediscovered.OtherRoot?
    ensures MergeDocuments(canonical, rediscovered, p) ==
      if canonical.OtherRoot? then Failure(UnsupportedRootError)
      else if NormalizeToMap(canonical).Failure? then Failure(NormalizeToMap(canonical).error)
      else Failure(UnsupportedRootError)
  {
  }
}
