/**
 Deep merge, `update_setting(old_settings, new_settings)`: every member of the
 overlay is written into the base document, objects into objects recursively,
 anything else verbatim.  The base document is the only thing that changes.
 */
module DeepMerge {
  import opened Document

  /**
   The value a member ends with when the overlay's value `overlay` is merged
   onto the base's value `base` (`Null` when the base has no such member).
   */
  function MergeJson(base: Json, overlay: Json): (r: Json)
    ensures r.Obj? <==> overlay.Obj?
    ensures !overlay.Obj? ==> r == overlay
    ensures overlay.Obj? && !base.Obj? ==> r == overlay
    ensures overlay.Obj? && base.Obj? ==> r.fields.Keys == base.fields.Keys + overlay.fields.Keys
    decreases overlay
  {
    if overlay.Obj? && base.Obj? then
      Obj(map key | key in base.fields.Keys + overlay.fields.Keys ::
            if key in overlay.fields then MergeJson(Lookup(base.fields, key), overlay.fields[key])
            else base.fields[key])
    else overlay
  }

  /** The settings `base` ends with after `update_setting(base, overlay)`. */
  function Merge(base: Settings, overlay: Settings): (r: Settings)
    ensures r.Keys == base.Keys + overlay.Keys
    ensures forall key :: key in base && key !in overlay ==> r[key] == base[key]
    ensures forall key :: key in overlay && !overlay[key].Obj? ==> r[key] == overlay[key]
    ensures forall key :: key in overlay && overlay[key].Obj? && !Lookup(base, key).Obj? ==> r[key] == overlay[key]
    ensures forall key :: key in overlay && overlay[key].Obj? && key in base && base[key].Obj? ==>
              r[key] == Obj(Merge(base[key].fields, overlay[key].fields))
    decreases Obj(overlay)
  {
    var r := MergeJson(Obj(base), Obj(overlay)).fields;
    assert forall key :: key in overlay ==> r[key] == MergeJson(Lookup(base, key), overlay[key]);
    r
  }

  /**
   The loop of `update_setting`: one overlay member at a time, recursing into
   a base object where the overlay also holds an object.
   */
  method UpdateSetting(oldSettings: Settings, newSettings: Settings) returns (updated: Settings)
    ensures updated == Merge(oldSettings, newSettings)
    decreases Obj(newSettings)
  {
    updated := oldSettings;
    var todo := newSettings.Keys;
    while todo != {}
      invariant todo <= newSettings.Keys
      invariant forall key :: key in newSettings && key !in todo ==>
                  Entry(updated, key) == Some(MergeJson(Lookup(oldSettings, key), newSettings[key]))
      invariant forall key :: key !in newSettings || key in todo ==> Entry(updated, key) == Entry(oldSettings, key)
      decreases todo
    {
      var key :| key in todo;
      var value := newSettings[key];
      ghost var before := updated;
      assert Entry(updated, key) == Entry(oldSettings, key);
      if value.Obj? {
        if key in updated {
          if updated[key].Obj? {
            var merged := UpdateSetting(updated[key].fields, value.fields);
            updated := updated[key := Obj(merged)];
          } else {
            updated := updated[key := value];
          }
        } else {
          // a deep copy in the source; values have no identity here
          updated := updated[key := value];
        }
      } else {
        updated := updated[key := value];
      }
      assert forall k :: k != key ==> Entry(updated, k) == Entry(before, k);
      todo := todo - {key};
    }
    MergedPointwise(oldSettings, newSettings, updated);
  }

  /** A document that agrees with the merge key by key is the merged document. */
  lemma MergedPointwise(base: Settings, overlay: Settings, merged: Settings)
    requires forall key :: key in overlay ==> Entry(merged, key) == Some(MergeJson(Lookup(base, key), overlay[key]))
    requires forall key :: key !in overlay ==> Entry(merged, key) == Entry(base, key)
    ensures merged == Merge(base, overlay)
  {
    var r := Merge(base, overlay);
    forall key
      ensures key in merged <==> key in r
      ensures key in merged ==> merged[key] == r[key]
    {
      assert Entry(merged, key).Some? <==> key in merged;
    }
  }

  /** A scalar of the overlay ends up at its path; an object of the overlay ends up an object. */
  lemma {:induction false} MergeOverlayWins(base: Json, overlay: Json, path: seq<string>)
    requires At(overlay, path).Some?
    ensures At(MergeJson(base, overlay), path).Some?
    ensures !At(overlay, path).value.Obj? ==> At(MergeJson(base, overlay), path) == At(overlay, path)
    ensures At(overlay, path).value.Obj? ==>
              At(MergeJson(base, overlay), path).value.Obj? &&
              At(overlay, path).value.fields.Keys <= At(MergeJson(base, overlay), path).value.fields.Keys
    decreases path
  {
    if path != [] {
      var key := path[0];
      if base.Obj? {
        MergeOverlayWins(Lookup(base.fields, key), overlay.fields[key], path[1..]);
      } else {
        MergeSelf(overlay);
      }
    } else if overlay.Obj? && base.Obj? {
      assert overlay.fields.Keys <= MergeJson(base, overlay).fields.Keys;
    }
  }

  /** Merging an overlay onto itself changes nothing. */
  lemma {:induction false} MergeSelf(overlay: Json)
    ensures MergeJson(overlay, overlay) == overlay
    decreases overlay
  {
    if overlay.Obj? {
      var m := MergeJson(overlay, overlay).fields;
      forall key | key in overlay.fields
        ensures m[key] == overlay.fields[key]
      {
        MergeSelf(overlay.fields[key]);
      }
      assert m == overlay.fields;
    }
  }

  /** A path of the base that the overlay does not reach keeps its value. */
  lemma {:induction false} MergeKeepsUntouched(base: Json, overlay: Json, path: seq<string>)
    requires Untouched(overlay, path) && At(base, path).Some?
    ensures At(MergeJson(base, overlay), path) == At(base, path)
  {
    var key := path[0];
    if key in overlay.fields {
      MergeKeepsUntouched(base.fields[key], overlay.fields[key], path[1..]);
    }
  }

  /** Every path of the merged document is a path of the base or of the overlay. */
  lemma {:induction false} MergeAddsNoPaths(base: Json, overlay: Json, path: seq<string>)
    requires At(MergeJson(base, overlay), path).Some?
    ensures At(base, path).Some? || At(overlay, path).Some?
    decreases path
  {
    if path != [] && overlay.Obj? && base.Obj? {
      var key := path[0];
      if key in overlay.fields {
        MergeAddsNoPaths(Lookup(base.fields, key), overlay.fields[key], path[1..]);
      }
    }
  }

  /** Installing the same overlay twice gives the document installing it once gives. */
  lemma {:induction false} MergeIdempotent(base: Json, overlay: Json)
    ensures MergeJson(MergeJson(base, overlay), overlay) == MergeJson(base, overlay)
    decreases overlay
  {
    if overlay.Obj? {
      if base.Obj? {
        var once := MergeJson(base, overlay).fields;
        var twice := MergeJson(MergeJson(base, overlay), overlay).fields;
        forall key | key in overlay.fields
          ensures twice[key] == once[key]
        {
          MergeIdempotent(Lookup(base.fields, key), overlay.fields[key]);
        }
        assert twice == once;
      } else {
        MergeSelf(overlay);
      }
    }
  }

  /**
   An overlay that sets every key the base has (and whose objects, where the base
   also has objects, already absorb the base's) is exactly what the merge leaves.
   */
  lemma MergeCovered(base: Settings, overlay: Settings)
    requires base.Keys <= overlay.Keys
    requires forall key :: key in base && base[key].Obj? && overlay[key].Obj? ==>
               Merge(base[key].fields, overlay[key].fields) == overlay[key].fields
    ensures Merge(base, overlay) == overlay
  {
  }
}
