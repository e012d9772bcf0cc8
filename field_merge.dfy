/**
 * The conservative field-level merge: which keys of a rediscovered record
 * may overwrite the canonical record, and `merge_record`, which copies the
 * eligible, different values over and reports each change as (old, new).
 */
module FieldMerge {
  import opened Wrappers
  import opened JsonData
  import opened Text
  import opened MergeKeys

  /** `MergePolicy`. */
  datatype MergePolicy = MergePolicy(
    promoteStatuses: seq<string>,
    allowNewTowns: bool,
    urlFieldsOnly: bool,
    overwriteVendorFields: bool,
    overwriteStatusField: bool,
    urlFieldAllowlist: Option<seq<string>>,
    protectFields: seq<string>)

  /** The town-name fields no merge may change. */
  const DefaultProtectFields: seq<string> := ["town", "Town", "name", "Name", "municipality", "Municipality"]

  /** The policy's defaults. */
  const DefaultPolicy := MergePolicy(["updated"], false, true, false, false, None, DefaultProtectFields)

  /**
   * The policy `main` builds from its flags: `--promote-status` values
   * lower-cased (an empty list means the flag was not given), the three
   * switches, no allowlist and the default protected fields.
   */
  function PolicyFromFlags(promote: seq<string>, allowNewTowns: bool, overwriteAllFields: bool,
                           overwriteVendorFields: bool, overwriteStatusField: bool): (p: MergePolicy)
    ensures promote == [] ==> p.promoteStatuses == ["updated"]
    ensures promote != [] ==> (|p.promoteStatuses| == |promote| &&
      forall i :: 0 <= i < |promote| ==> p.promoteStatuses[i] == Lower(promote[i]))
    ensures p.urlFieldsOnly == !overwriteAllFields
    ensures p.urlFieldAllowlist == None && p.protectFields == DefaultProtectFields
  {
    MergePolicy(
      if promote == [] then ["updated"] else seq(|promote|, i requires 0 <= i < |promote| => Lower(promote[i])),
      allowNewTowns, !overwriteAllFields, overwriteVendorFields, overwriteStatusField,
      None, DefaultProtectFields)
  }

  /** `keys_allowed_to_overwrite`. */
  function KeysAllowedToOverwrite(k: string, p: MergePolicy): (b: bool)
    ensures b ==> k !in p.protectFields
    ensures b && p.urlFieldAllowlist.Some? ==> k in p.urlFieldAllowlist.value
    ensures b && p.urlFieldAllowlist.None? && p.urlFieldsOnly ==> IsUrlishKey(k)
    ensures !b ==> k in p.protectFields || p.urlFieldAllowlist.Some? || p.urlFieldsOnly
  {
    if k in p.protectFields then false
    else if p.urlFieldAllowlist.Some? then k in p.urlFieldAllowlist.value
    else if p.urlFieldsOnly then IsUrlishKey(k)
    else true
  }

  /** Keys, compared lower-cased, that only `overwrite_vendor_fields` lets through. */
  const Vendorish: seq<string> := ["vendor", "service", "platform", "provider"]

  /**
   * The checks a key goes through before its values are compared: the
   * status key, the key policy, the vendor keys and, in URL-only mode, the
   * refusal of a blank string and of a non-URL string over a URL (or over
   * nothing) in a URL-ish key.
   */
  predicate Eligible(p: MergePolicy, k: string, newV: Json, oldV: Json) {
    && !(Lower(k) == "status" && !p.overwriteStatusField)
    && KeysAllowedToOverwrite(k, p)
    && !(!p.overwriteVendorFields && Lower(k) in Vendorish)
    && !(p.urlFieldsOnly && newV.JStr? &&
         (Strip(newV.s) == "" ||
          (IsUrlishKey(k) && (LooksLikeUrl(oldV) || oldV == JNull) && !LooksLikeUrl(newV))))
  }

  /** The key is eligible and its new value differs from the old one. */
  predicate Overwrites(p: MergePolicy, k: string, newV: Json, oldV: Json) {
    Eligible(p, k, newV, oldV) && !PyEqual(oldV, newV)
  }

  /** The keys of `rediscovered` whose value a merge copies. */
  function Written(canonical: Record, rediscovered: Record, p: MergePolicy): (w: set<string>)
    ensures w <= rediscovered.Keys
  {
    set k | k in rediscovered && Overwrites(p, k, rediscovered[k], Get(canonical, k))
  }

  /** `canonical` with the keys in `w` taken from `rediscovered`. */
  function Overlay(canonical: Record, rediscovered: Record, w: set<string>): Record
    requires w <= rediscovered.Keys
  {
    map k | k in canonical.Keys + w :: if k in w then rediscovered[k] else canonical[k]
  }

  /** The (old, new) pair of each key in `w`. */
  function ChangesOn(canonical: Record, rediscovered: Record, w: set<string>): map<string, (Json, Json)>
    requires w <= rediscovered.Keys
  {
    map k | k in w :: (Get(canonical, k), rediscovered[k])
  }

  /** The merged record `merge_record` returns. */
  function MergedRecord(canonical: Record, rediscovered: Record, p: MergePolicy): Record {
    Overlay(canonical, rediscovered, Written(canonical, rediscovered, p))
  }

  /** The `changes` map `merge_record` returns. */
  function Changes(canonical: Record, rediscovered: Record, p: MergePolicy): map<string, (Json, Json)> {
    ChangesOn(canonical, rediscovered, Written(canonical, rediscovered, p))
  }

  /**
   * `merge_record`: the loop over the rediscovered keys, updating the copy
   * `merged` and the `changes` map. Each key reads only its own old value,
   * so the order of the keys does not matter.
   */
  method MergeRecord(canonical: Record, rediscovered: Record, p: MergePolicy)
    returns (merged: Record, changes: map<string, (Json, Json)>)
    ensures merged == MergedRecord(canonical, rediscovered, p)
    ensures changes == Changes(canonical, rediscovered, p)
  {
    ghost var w := Written(canonical, rediscovered, p);
    merged := canonical;
    changes := map[];
    var todo := rediscovered.Keys;
    ghost var done: set<string> := {};
    NothingWrittenYet(canonical, rediscovered, w);
    while todo != {}
      invariant done <= rediscovered.Keys && todo == rediscovered.Keys - done
      invariant merged == Overlay(canonical, rediscovered, w * done)
      invariant changes == ChangesOn(canonical, rediscovered, w * done)
      decreases |todo|
    {
      var k :| k in todo;
      merged, changes := MergeKey(canonical, rediscovered, p, merged, changes, done, k);
      todo := todo - {k};
      done := done + {k};
    }
    AllKeysDone(w, rediscovered.Keys, done);
  }

  /** Before the loop no key is written: the copy is `canonical` and there are no changes. */
  lemma NothingWrittenYet(canonical: Record, rediscovered: Record, w: set<string>)
    requires w <= rediscovered.Keys
    ensures Overlay(canonical, rediscovered, w * {}) == canonical
    ensures ChangesOn(canonical, rediscovered, w * {}) == map[]
  {
    assert w * {} == {};
  }

  /** After the loop every key is done, so every key of `w` is. */
  lemma AllKeysDone(w: set<string>, keys: set<string>, done: set<string>)
    requires w <= keys && done <= keys && keys - done == {}
    ensures w * done == w
  {
    forall x | x in w ensures x in done {
      assert x !in keys - done;
    }
  }

  /** One pass of the loop: key `k` is written, and its change recorded, exactly when the policy writes it. */
  method MergeKey(canonical: Record, rediscovered: Record, p: MergePolicy, merged: Record,
                  changes: map<string, (Json, Json)>, ghost done: set<string>, k: string)
    returns (merged': Record, changes': map<string, (Json, Json)>)
    requires k in rediscovered && k !in done
    requires merged == Overlay(canonical, rediscovered, Written(canonical, rediscovered, p) * done)
    requires changes == ChangesOn(canonical, rediscovered, Written(canonical, rediscovered, p) * done)
    ensures merged' == Overlay(canonical, rediscovered, Written(canonical, rediscovered, p) * (done + {k}))
    ensures changes' == ChangesOn(canonical, rediscovered, Written(canonical, rediscovered, p) * (done + {k}))
  {
    ghost var w := Written(canonical, rediscovered, p);
    var newV := rediscovered[k];
    var oldV := Get(merged, k);
    OverlayStep(canonical, rediscovered, w, done, k);
    var write := WritesKey(p, k, newV, oldV);
    assert write <==> k in w;
    merged', changes' := merged, changes;
    if write {
      merged' := merged[k := newV];
      changes' := changes[k := (oldV, newV)];
    }
  }

  /** The body of the loop for one key: each `continue`, then the comparison of old and new. */
  method WritesKey(p: MergePolicy, k: string, newV: Json, oldV: Json) returns (write: bool)
    ensures write == Overwrites(p, k, newV, oldV)
  {
    if Lower(k) == "status" && !p.overwriteStatusField {
      write := false;
    } else if !KeysAllowedToOverwrite(k, p) {
      write := false;
    } else if !p.overwriteVendorFields && Lower(k) in Vendorish {
      write := false;
    } else if p.urlFieldsOnly && newV.JStr? && Strip(newV.s) == "" {
      write := false;
    } else if p.urlFieldsOnly && newV.JStr? && IsUrlishKey(k) && (LooksLikeUrl(oldV) || oldV == JNull)
              && !LooksLikeUrl(newV) {
      write := false;
    } else {
      write := !PyEqual(oldV, newV);
    }
  }

  /** One more key of the loop: the overlay and the changes grow by that key exactly when it is written. */
  lemma OverlayStep(canonical: Record, rediscovered: Record, w: set<string>, done: set<string>, k: string)
    requires w <= rediscovered.Keys && k in rediscovered && k !in done
    ensures Get(Overlay(canonical, rediscovered, w * done), k) == Get(canonical, k)
    ensures k in w ==>
      Overlay(canonical, rediscovered, w * (done + {k})) == Overlay(canonical, rediscovered, w * done)[k := rediscovered[k]] &&
      ChangesOn(canonical, rediscovered, w * (done + {k})) == ChangesOn(canonical, rediscovered, w * done)[k := (Get(canonical, k), rediscovered[k])]
    ensures k !in w ==>
      Overlay(canonical, rediscovered, w * (done + {k})) == Overlay(canonical, rediscovered, w * done) &&
      ChangesOn(canonical, rediscovered, w * (done + {k})) == ChangesOn(canonical, rediscovered, w * done)
  {
    if k !in w {
      assert w * (done + {k}) == w * done;
    }
  }

  /** The key is in `merged` exactly when it was in `canonical`, with the same value. */
  predicate KeptAsIs(canonical: Record, merged: Record, k: string) {
    (k in merged <==> k in canonical) && (k in canonical ==> merged[k] == canonical[k])
  }

  /** A key the merge does not write is kept as it was. */
  lemma UnwrittenKept(canonical: Record, rediscovered: Record, p: MergePolicy, k: string)
    requires k !in Written(canonical, rediscovered, p)
    ensures KeptAsIs(canonical, MergedRecord(canonical, rediscovered, p), k)
  {
  }

  /** The fields in `protect_fields` are never changed. */
  lemma ProtectedFieldsKept(canonical: Record, rediscovered: Record, p: MergePolicy)
    ensures forall k :: k in p.protectFields ==> KeptAsIs(canonical, MergedRecord(canonical, rediscovered, p), k)
  {
    forall k | k in p.protectFields {
      UnwrittenKept(canonical, rediscovered, p, k);
    }
  }

  /** With an allowlist, no key outside it changes. */
  lemma AllowlistBounds(canonical: Record, rediscovered: Record, p: MergePolicy)
    requires p.urlFieldAllowlist.Some?
    ensures forall k :: k !in p.urlFieldAllowlist.value ==> KeptAsIs(canonical, MergedRecord(canonical, rediscovered, p), k)
  {
    forall k | k !in p.urlFieldAllowlist.value {
      UnwrittenKept(canonical, rediscovered, p, k);
    }
  }

  /** A key named "status", in any case, is kept unless `overwrite_status_field` is set. */
  lemma StatusFieldKept(canonical: Record, rediscovered: Record, p: MergePolicy)
    requires !p.overwriteStatusField
    ensures forall k :: Lower(k) == "status" ==> KeptAsIs(canonical, MergedRecord(canonical, rediscovered, p), k)
  {
    forall k | Lower(k) == "status" {
      UnwrittenKept(canonical, rediscovered, p, k);
    }
  }

  /** The vendor-like keys, in any case, are kept unless `overwrite_vendor_fields` is set. */
  lemma VendorFieldsKept(canonical: Record, rediscovered: Record, p: MergePolicy)
    requires !p.overwriteVendorFields
    ensures forall k :: Lower(k) in Vendorish ==> KeptAsIs(canonical, MergedRecord(canonical, rediscovered, p), k)
  {
    forall k | Lower(k) in Vendorish {
      UnwrittenKept(canonical, rediscovered, p, k);
    }
  }

  /**
   * In URL-only mode a changed key is URL-ish (without an allowlist), a
   * string written is never blank, and a URL-ish key that held a URL or
   * nothing only ever receives a URL when it receives a string.
   */
  lemma UrlOnlyGuards(canonical: Record, rediscovered: Record, p: MergePolicy)
    requires p.urlFieldsOnly
    ensures forall k :: k in Changes(canonical, rediscovered, p) ==>
      var before, after := Get(canonical, k), rediscovered[k];
      (p.urlFieldAllowlist.None? ==> IsUrlishKey(k)) &&
      (after.JStr? ==> (Strip(after.s) != "" &&
        (IsUrlishKey(k) && (LooksLikeUrl(before) || before == JNull) ==> LooksLikeUrl(after))))
  {
  }

  /**
   * `changes` holds exactly the keys whose merged value differs from the
   * canonical one, each as (old, new); every other canonical key is kept,
   * and no key appears that is in neither record.
   */
  lemma ChangesExact(canonical: Record, rediscovered: Record, p: MergePolicy)
    ensures var m, c := MergedRecord(canonical, rediscovered, p), Changes(canonical, rediscovered, p);
      && m.Keys == canonical.Keys + c.Keys
      && (forall k :: k in c <==> !PyEqual(Get(canonical, k), Get(m, k)))
      && (forall k :: k in c ==> k in rediscovered && c[k] == (Get(canonical, k), m[k]) && m[k] == rediscovered[k])
      && (forall k :: k !in c ==> KeptAsIs(canonical, m, k))
  {
    var m, c := MergedRecord(canonical, rediscovered, p), Changes(canonical, rediscovered, p);
    forall k | k !in c
      ensures PyEqual(Get(canonical, k), Get(m, k))
    {
      PyEqualReflexive(Get(canonical, k));
    }
  }

  /** Merging the same rediscovered record again, under the same policy, changes nothing. */
  lemma MergeIdempotent(canonical: Record, rediscovered: Record, p: MergePolicy)
    ensures Changes(MergedRecord(canonical, rediscovered, p), rediscovered, p) == map[]
    ensures MergedRecord(MergedRecord(canonical, rediscovered, p), rediscovered, p) == MergedRecord(canonical, rediscovered, p)
  {
    var m := MergedRecord(canonical, rediscovered, p);
    var w := Written(canonical, rediscovered, p);
    forall k | k in rediscovered
      ensures !Overwrites(p, k, rediscovered[k], Get(m, k))
    {
      if k in w {
        PyEqualReflexive(rediscovered[k]);
      }
    }
    assert Written(m, rediscovered, p) == {};
  }

  /** A merge that reports no change returns the canonical record itself. */
  lemma NoChangesNoEdit(canonical: Record, rediscovered: Record, p: MergePolicy)
    requires Changes(canonical, rediscovered, p) == map[]
    ensures MergedRecord(canonical, rediscovered, p) == canonical
  {
    var w := Written(canonical, rediscovered, p);
    assert forall k :: k in w ==> k in Changes(canonical, rediscovered, p);
    assert w == {};
  }
}
