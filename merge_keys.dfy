/**
 * The small helpers of the merge tool: the town-name key both files are
 * matched on, the guess of which field holds the town, which keys count as
 * URL-ish, what counts as a URL, and where a rediscovered record keeps its
 * status.
 */
module MergeKeys {
  import opened Wrappers
  import opened JsonData
  import opened Text

  /** No upper-case ASCII letter. */
  predicate NoUpper(s: string) {
    forall i :: 0 <= i < |s| ==> !IsUpper(s[i])
  }

  /** Every whitespace character is a plain space and no two of them are adjacent. */
  predicate SpacesCollapsed(s: string) {
    forall i :: 0 <= i < |s| && IsSpace(s[i]) ==> s[i] == ' ' && (i + 1 < |s| ==> !IsSpace(s[i + 1]))
  }

  /** The shape of a normalised town key. */
  predicate NormalForm(s: string) {
    Stripped(s) && NoUpper(s) && SpacesCollapsed(s)
  }

  /** `norm_town_name`: strip, lower-case, and turn each whitespace run into one space. */
  function NormTownName(name: string): string {
    CollapseSpaces(Lower(Strip(name)))
  }

  lemma {:induction false} LowerAt(s: string)
    ensures forall i :: 0 <= i < |s| ==> Lower(s)[i] == LowerChar(s[i])
  {
    if s != [] {
      LowerAt(s[1..]);
      assert forall i :: 1 <= i < |s| ==> Lower(s)[i] == Lower(s[1..])[i - 1];
    }
  }

  /** Lower-casing leaves no capital, keeps whitespace where it was, and so keeps a stripped string stripped. */
  lemma LowerShape(s: string)
    ensures NoUpper(Lower(s))
    ensures forall i :: 0 <= i < |s| ==> (IsSpace(Lower(s)[i]) <==> IsSpace(s[i]))
    ensures Stripped(s) ==> Stripped(Lower(s))
  {
    LowerAt(s);
  }

  lemma LowerIdempotent(s: string)
    ensures Lower(Lower(s)) == Lower(s)
  {
    LowerShape(s);
    LowerOfLower(Lower(s));
  }

  /** A run of whitespace collapses to one space, and what follows it is not whitespace. */
  lemma {:induction false} CollapseCollapses(s: string)
    ensures SpacesCollapsed(CollapseSpaces(s))
    ensures s != [] && !IsSpace(s[0]) ==> CollapseSpaces(s) != [] && CollapseSpaces(s)[0] == s[0]
    decreases |s|
  {
    if s != [] {
      var c := CollapseSpaces(s);
      if IsSpace(s[0]) {
        var t := TrimLeft(s[1..]);
        CollapseCollapses(t);
        assert c == [' '] + CollapseSpaces(t);
        assert forall i :: 1 <= i < |c| ==> c[i] == CollapseSpaces(t)[i - 1];
      } else {
        CollapseCollapses(s[1..]);
        assert c == [s[0]] + CollapseSpaces(s[1..]);
        assert forall i :: 1 <= i < |c| ==> c[i] == CollapseSpaces(s[1..])[i - 1];
      }
    }
  }

  /** Collapsing keeps the last character when it is not whitespace. */
  lemma {:induction false} CollapseKeepsLast(s: string)
    requires s != [] && !IsSpace(s[|s| - 1])
    ensures CollapseSpaces(s) != [] && CollapseSpaces(s)[|CollapseSpaces(s)| - 1] == s[|s| - 1]
    decreases |s|
  {
    if IsSpace(s[0]) {
      var t := TrimLeft(s[1..]);
      TrimLeftDropsSpace(s[1..]);
      assert t != [] && t[|t| - 1] == s[|s| - 1];
      CollapseKeepsLast(t);
    } else if |s| > 1 {
      CollapseKeepsLast(s[1..]);
    }
  }

  /** Collapsing introduces no capital: it only drops characters or writes spaces. */
  lemma {:induction false} CollapseNoUpper(s: string)
    requires NoUpper(s)
    ensures NoUpper(CollapseSpaces(s))
    decreases |s|
  {
    if s != [] {
      var c := CollapseSpaces(s);
      if IsSpace(s[0]) {
        var t := TrimLeft(s[1..]);
        TrimLeftDropsSpace(s[1..]);
        CollapseNoUpper(t);
        assert c == [' '] + CollapseSpaces(t);
        assert forall i :: 1 <= i < |c| ==> c[i] == CollapseSpaces(t)[i - 1];
      } else {
        CollapseNoUpper(s[1..]);
        assert c == [s[0]] + CollapseSpaces(s[1..]);
        assert forall i :: 1 <= i < |c| ==> c[i] == CollapseSpaces(s[1..])[i - 1];
      }
    }
  }

  /** A string whose whitespace is already collapsed is left alone. */
  lemma {:induction false} CollapseFixed(s: string)
    requires SpacesCollapsed(s)
    ensures CollapseSpaces(s) == s
    decreases |s|
  {
    if s != [] {
      assert SpacesCollapsed(s[1..]) by {
        assert forall i :: 0 <= i < |s| - 1 ==> s[1..][i] == s[i + 1];
      }
      if IsSpace(s[0]) {
        assert TrimLeft(s[1..]) == s[1..];
      }
      CollapseFixed(s[1..]);
    }
  }

  /** A normalised town key is stripped, lower-case and has single spaces only. */
  lemma NormTownNameShape(name: string)
    ensures NormalForm(NormTownName(name))
  {
    var l := Lower(Strip(name));
    LowerShape(Strip(name));
    CollapseCollapses(l);
    CollapseNoUpper(l);
    if l != [] {
      CollapseKeepsLast(l);
    }
  }

  /** A key already in normal form is its own normalisation. */
  lemma NormTownNameFixed(s: string)
    requires NormalForm(s)
    ensures NormTownName(s) == s
  {
    StripFixed(s);
    LowerOfLower(s);
    CollapseFixed(s);
  }

  /** `norm_town_name` is idempotent. */
  lemma NormTownNameIdempotent(name: string)
    ensures NormTownName(NormTownName(name)) == NormTownName(name)
  {
    NormTownNameShape(name);
    NormTownNameFixed(NormTownName(name));
  }

  /** The fields tried, in order, for a record's town name. */
  const TownFields: seq<string> := ["town", "Town", "municipality", "Municipality", "name", "Name"]

  /** `rec[k]` is a string with something besides whitespace. */
  predicate HasTownText(rec: Record, k: string) {
    k in rec && rec[k].JStr? && Strip(rec[k].s) != ""
  }

  /** The first of `fields` that holds a non-blank string in `rec`. */
  function FirstTownField(rec: Record, fields: seq<string>): (r: Option<string>)
    ensures r.Some? ==> r.value in fields && HasTownText(rec, r.value)
    ensures r.None? <==> forall i :: 0 <= i < |fields| ==> !HasTownText(rec, fields[i])
  {
    if fields == [] then None
    else if HasTownText(rec, fields[0]) then Some(fields[0])
    else FirstTownField(rec, fields[1..])
  }

  /** No field tried before the chosen one holds a usable town name. */
  lemma {:induction false} FirstTownFieldIsFirst(rec: Record, fields: seq<string>, i: nat)
    requires i < |fields| && FirstTownField(rec, fields).Some?
    requires fields[i] == FirstTownField(rec, fields).value
    requires forall j, k :: 0 <= j < k < |fields| ==> fields[j] != fields[k]
    ensures forall j :: 0 <= j < i ==> !HasTownText(rec, fields[j])
  {
    if i > 0 && !HasTownText(rec, fields[0]) {
      FirstTownFieldIsFirst(rec, fields[1..], i - 1);
    }
  }

  /** `guess_town_field`. */
  function GuessTownField(rec: Record): (r: Option<string>)
    ensures r.Some? ==> r.value in TownFields && HasTownText(rec, r.value)
    ensures r.None? <==> forall i :: 0 <= i < |TownFields| ==> !HasTownText(rec, TownFields[i])
  {
    FirstTownField(rec, TownFields)
  }

  /** Of the fields tried, the one chosen is the first that holds a town name. */
  lemma GuessTownFieldIsFirst(rec: Record, i: nat)
    requires i < |TownFields| && GuessTownField(rec).Some? && TownFields[i] == GuessTownField(rec).value
    ensures forall j :: 0 <= j < i ==> !HasTownText(rec, TownFields[j])
  {
    TownFieldsDistinct();
    FirstTownFieldIsFirst(rec, TownFields, i);
  }

  /** No town field is listed twice. */
  lemma TownFieldsDistinct()
    ensures forall j, k :: 0 <= j < k < |TownFields| ==> TownFields[j] != TownFields[k]
  {
    var f := TownFields;
    assert f[0][0] == 't' && f[1][0] == 'T' && f[4][0] == 'n' && f[5][0] == 'N';
    assert f[2][0] == 'm' && f[3][0] == 'M' && |f[0]| == |f[1]| == |f[4]| == |f[5]| == 4 && |f[2]| == |f[3]| == 12;
  }

  /** The substrings that make a key URL-ish. */
  const UrlishTokens: seq<string> :=
    ["url", "link", "page", "pdf", "homepage", "home_page", "employment", "application"]

  /** `is_urlish_key`: the lower-cased key contains one of the tokens. */
  predicate IsUrlishKey(k: string) {
    ContainsAny(Lower(k), UrlishTokens)
  }

  /** Whether a key is URL-ish does not depend on its case. */
  lemma UrlishIgnoresCase(k: string)
    ensures IsUrlishKey(Lower(k)) == IsUrlishKey(k)
  {
    LowerIdempotent(k);
  }

  /** `looks_like_url`: a string that, stripped and lower-cased, starts with `http://` or `https://`. */
  predicate LooksLikeUrl(v: Json) {
    v.JStr? && (StartsWith(Lower(Strip(v.s)), "http://") || StartsWith(Lower(Strip(v.s)), "https://"))
  }

  /** Nothing blank looks like a URL. */
  lemma UrlIsNotBlank(v: Json)
    requires LooksLikeUrl(v)
    ensures v.JStr? && Strip(v.s) != ""
  {
  }

  /** The keys that may hold the status directly, in the order they are tried. */
  const StatusKeys: seq<string> := ["status", "merge_status", "result_status"]

  /** The keys of nested objects searched for a status, in order. */
  const NestedKeys: seq<string> := ["result", "rediscovery", "rediscovered", "meta"]

  /** A stripped string with no capital letter. */
  predicate CleanStatus(s: string) {
    Stripped(s) && NoUpper(s)
  }

  /** The first of `keys` holding a string in `m`, stripped and lower-cased. */
  function DirectStatus(m: map<string, Json>, keys: seq<string>): (r: Option<string>)
    ensures r.Some? ==> CleanStatus(r.value)
    ensures r.None? <==> forall i :: 0 <= i < |keys| ==> !(keys[i] in m && m[keys[i]].JStr?)
  {
    if keys == [] then None
    else if keys[0] in m && m[keys[0]].JStr? then
      LowerShape(Strip(m[keys[0]].s));
      Some(Lower(Strip(m[keys[0]].s)))
    else DirectStatus(m, keys[1..])
  }

  /**
   * `deep_get_status`: a status stored directly on the object wins;
   * otherwise the first nested object, in key order, that yields a
   * non-empty status.
   */
  function DeepGetStatus(obj: Json): (r: Option<string>)
    ensures r.Some? ==> obj.JObj? && CleanStatus(r.value)
    decreases obj, 1
  {
    if !obj.JObj? then None
    else
      var d := DirectStatus(obj.fields, StatusKeys);
      if d.Some? then d else NestedStatus(obj, NestedKeys)
  }

  /** The nested part of `deep_get_status`: `if s: return s` skips an empty status. */
  function NestedStatus(obj: Json, keys: seq<string>): (r: Option<string>)
    requires obj.JObj?
    ensures r.Some? ==> r.value != "" && CleanStatus(r.value)
    decreases obj, 0, |keys|
  {
    if keys == [] then None
    else
      var k := keys[0];
      if k in obj.fields && obj.fields[k].JObj? && DeepGetStatus(obj.fields[k]).Some?
         && DeepGetStatus(obj.fields[k]).value != "" then
        DeepGetStatus(obj.fields[k])
      else NestedStatus(obj, keys[1..])
  }

  /** The status is read from the first of `keys` holding a string, stripped and lower-cased. */
  lemma {:induction false} DirectStatusIsFirstString(m: map<string, Json>, keys: seq<string>)
    ensures DirectStatus(m, keys).None? <==> forall i :: 0 <= i < |keys| ==> !(keys[i] in m && m[keys[i]].JStr?)
    ensures DirectStatus(m, keys).Some? ==>
      exists i :: 0 <= i < |keys| && keys[i] in m && m[keys[i]].JStr? &&
        DirectStatus(m, keys) == Some(Lower(Strip(m[keys[i]].s))) &&
        forall j :: 0 <= j < i ==> !(keys[j] in m && m[keys[j]].JStr?)
  {
    if keys != [] && !(keys[0] in m && m[keys[0]].JStr?) {
      DirectStatusIsFirstString(m, keys[1..]);
      if DirectStatus(m, keys).Some? {
        var i :| 0 <= i < |keys[1..]| && keys[1..][i] in m && m[keys[1..][i]].JStr? &&
          DirectStatus(m, keys[1..]) == Some(Lower(Strip(m[keys[1..][i]].s))) &&
          forall j :: 0 <= j < i ==> !(keys[1..][j] in m && m[keys[1..][j]].JStr?);
        assert keys[i + 1] == keys[1..][i];
        forall j | 0 <= j < i + 1
          ensures !(keys[j] in m && m[keys[j]].JStr?)
        {
          if j > 0 { assert keys[j] == keys[1..][j - 1]; }
        }
      }
    }
  }

  /** `key` of `obj` holds an object whose own (deep) status is non-empty. */
  predicate NestedHit(obj: Json, key: string) {
    obj.JObj? && key in obj.fields && obj.fields[key].JObj? &&
    DeepGetStatus(obj.fields[key]).Some? && DeepGetStatus(obj.fields[key]).value != ""
  }

  /** The nested status is the deep status under the first of `keys` that has a non-empty one. */
  lemma {:induction false} NestedStatusIsFirstHit(obj: Json, keys: seq<string>)
    requires obj.JObj?
    ensures NestedStatus(obj, keys).None? <==> forall i :: 0 <= i < |keys| ==> !NestedHit(obj, keys[i])
    ensures NestedStatus(obj, keys).Some? ==>
      exists i :: 0 <= i < |keys| && NestedHit(obj, keys[i]) &&
        NestedStatus(obj, keys) == DeepGetStatus(obj.fields[keys[i]]) &&
        forall j :: 0 <= j < i ==> !NestedHit(obj, keys[j])
  {
    if keys != [] && !NestedHit(obj, keys[0]) {
      NestedStatusIsFirstHit(obj, keys[1..]);
      forall i | 0 <= i < |keys[1..]| ensures keys[1..][i] == keys[i + 1] { }
      if NestedStatus(obj, keys).Some? {
        var i :| 0 <= i < |keys[1..]| && NestedHit(obj, keys[1..][i]) &&
          NestedStatus(obj, keys[1..]) == DeepGetStatus(obj.fields[keys[1..][i]]) &&
          forall j :: 0 <= j < i ==> !NestedHit(obj, keys[1..][j]);
        forall j | 0 <= j < i + 1
          ensures !NestedHit(obj, keys[j])
        {
          if j > 0 { assert keys[j] == keys[1..][j - 1]; }
        }
        assert NestedHit(obj, keys[i + 1]);
      } else {
        forall i | 0 <= i < |keys|
          ensures !NestedHit(obj, keys[i])
        {
          if i > 0 { assert keys[i] == keys[1..][i - 1]; }
        }
      }
    } else if keys != [] {
      assert NestedHit(obj, keys[0]);
    }
  }

  /**
   * `deep_get_status` of an object: its direct status when it has one,
   * otherwise the deep status under the first of "result", "rediscovery",
   * "rediscovered" and "meta" that yields a non-empty one; anything that is
   * not an object has none.
   */
  lemma DeepGetStatusLookup(obj: Json)
    ensures !obj.JObj? ==> DeepGetStatus(obj).None?
    ensures DeepGetStatus(obj).Some? ==> CleanStatus(DeepGetStatus(obj).value)
    ensures obj.JObj? && DirectStatus(obj.fields, StatusKeys).Some? ==>
      DeepGetStatus(obj) == DirectStatus(obj.fields, StatusKeys)
    ensures obj.JObj? && DirectStatus(obj.fields, StatusKeys).None? ==>
      (DeepGetStatus(obj).None? <==> forall i :: 0 <= i < |NestedKeys| ==> !NestedHit(obj, NestedKeys[i]))
    ensures obj.JObj? && DirectStatus(obj.fields, StatusKeys).None? && DeepGetStatus(obj).Some? ==>
      exists i :: 0 <= i < |NestedKeys| && NestedHit(obj, NestedKeys[i]) &&
        DeepGetStatus(obj) == DeepGetStatus(obj.fields[NestedKeys[i]]) &&
        forall j :: 0 <= j < i ==> !NestedHit(obj, NestedKeys[j])
  {
    if obj.JObj? {
      NestedStatusIsFirstHit(obj, NestedKeys);
    }
  }

  /** A direct status string is used even when a nested object also carries one. */
  lemma DirectStatusWins(m: map<string, Json>)
    requires "status" in m && m["status"].JStr?
    ensures DeepGetStatus(JObj(m)) == Some(Lower(Strip(m["status"].s)))
  {
  }

  /** `deep_get_status(rec) or "unknown"`: an empty or missing status reads as "unknown". */
  function StatusOf(rec: Record): (s: string)
    ensures s != ""
  {
    var d := DeepGetStatus(JObj(rec));
    if d.Some? && d.value != "" then d.value else "unknown"
  }

  /** The status a merge reads is either "unknown" or stripped and lower-case. */
  lemma StatusIsClean(rec: Record)
    ensures StatusOf(rec) == "unknown" || CleanStatus(StatusOf(rec))
  {
  }

  /** A record with none of the status keys and no nested result object has status "unknown". */
  lemma UnmarkedStatusIsUnknown(rec: Record)
    requires forall i :: 0 <= i < |StatusKeys| ==> StatusKeys[i] !in rec
    requires forall i :: 0 <= i < |NestedKeys| ==> NestedKeys[i] !in rec
    ensures StatusOf(rec) == "unknown"
  {
    NoNestedStatus(JObj(rec), NestedKeys);
  }

  lemma {:induction false} NoNestedStatus(obj: Json, keys: seq<string>)
    requires obj.JObj?
    requires forall i :: 0 <= i < |keys| ==> keys[i] !in obj.fields
    ensures NestedStatus(obj, keys) == None
    decreases |keys|
  {
    if keys != [] {
      NoNestedStatus(obj, keys[1..]);
    }
  }
}
