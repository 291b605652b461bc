/**
 Deep revert, `uninstall_setting(current_settings, backup_settings,
 applied_settings)`: every member the overlay names is put back to the backup's
 value, removed, or (where overlay and current both hold objects) reverted one
 level down.  Members the overlay does not name are never looked at.
 */
module DeepRevert {
  import opened Document

  /** The exception the source raises: `.get` called on a backup value that is not a `dict`. */
  datatype RevertError = BackupNotAnObject

  /**
   Reverting `overlay` out of `current` against `backup` raises: some call of
   the recursion has a non-empty overlay (so its loop body runs) but a backup
   that is not an object.
   */
  predicate Crashes(current: Settings, backup: Json, overlay: Settings)
    ensures Crashes(current, backup, overlay) ==> overlay != map[]
    ensures overlay != map[] && !backup.Obj? ==> Crashes(current, backup, overlay)
    decreases Obj(overlay), 1
  {
    overlay != map[] &&
    (!backup.Obj? || exists key :: key in overlay && KeyCrashes(current, backup.fields, overlay, key))
  }

  /** The member `key` of the overlay recurses into a call that raises. */
  predicate KeyCrashes(current: Settings, backup: Settings, overlay: Settings, key: string)
    requires key in overlay
    decreases Obj(overlay), 0
  {
    overlay[key].Obj? && Lookup(current, key).Obj? && Lookup(backup, key) != Null &&
    Crashes(Lookup(current, key).fields, Lookup(backup, key), overlay[key].fields)
  }

  /**
   What the member `key` of `current` becomes when the overlay's member `key`
   is reverted; `None` when it is removed.
   */
  function RevertedAt(current: Settings, backup: Settings, overlay: Settings, key: string): (e: Option<Json>)
    requires key in overlay && !KeyCrashes(current, backup, overlay, key)
    ensures e.None? <==> Lookup(backup, key) == Null && !(overlay[key].Obj? && Lookup(current, key).Obj?)
    ensures e.Some? && !(overlay[key].Obj? && Lookup(current, key).Obj?) ==> e.value == Lookup(backup, key)
    ensures overlay[key].Obj? && Lookup(current, key).Obj? ==> e.Some? && e.value.Obj?
    ensures overlay[key].Obj? && Lookup(current, key).Obj? && Lookup(backup, key) == Null ==>
              e.value.fields.Keys == Lookup(current, key).fields.Keys - overlay[key].fields.Keys
    decreases Obj(overlay), 0
  {
    var applied, now, saved := overlay[key], Lookup(current, key), Lookup(backup, key);
    if applied.Obj? && now.Obj? then
      if saved != Null then Some(Obj(Reverted(now.fields, saved, applied.fields)))
      else Some(Obj(now.fields - applied.fields.Keys))
    else if saved != Null then Some(saved)
    else None
  }

  /** The settings `current` ends with after a revert that does not raise. */
  function Reverted(current: Settings, backup: Json, overlay: Settings): (r: Settings)
    requires !Crashes(current, backup, overlay)
    ensures r.Keys <= current.Keys + overlay.Keys
    ensures forall key :: key in current && key !in overlay ==> key in r && r[key] == current[key]
    decreases Obj(overlay), 1
  {
    map key | key in current.Keys + overlay.Keys &&
              (key in overlay ==> RevertedAt(current, backup.fields, overlay, key).Some?) ::
      if key in overlay then RevertedAt(current, backup.fields, overlay, key).value else current[key]
  }

  /** Reading one member of the reverted document. */
  lemma RevertedMember(current: Settings, backup: Json, overlay: Settings, key: string)
    requires !Crashes(current, backup, overlay)
    ensures key in overlay ==> backup.Obj? && !KeyCrashes(current, backup.fields, overlay, key)
    ensures key in overlay ==>
              (key in Reverted(current, backup, overlay) <==> RevertedAt(current, backup.fields, overlay, key).Some?) &&
              (key in Reverted(current, backup, overlay) ==>
                 Reverted(current, backup, overlay)[key] == RevertedAt(current, backup.fields, overlay, key).value)
    ensures key !in overlay ==>
              (key in Reverted(current, backup, overlay) <==> key in current) &&
              (key in current ==> Reverted(current, backup, overlay)[key] == current[key])
  {
  }

  /** The outcome of `uninstall_setting(current, backup, overlay)`. */
  function Revert(current: Settings, backup: Json, overlay: Settings): (r: Result<Settings, RevertError>)
    ensures r.Failure? <==> Crashes(current, backup, overlay)
    ensures overlay == map[] ==> r == Success(current)
    ensures overlay != map[] && !backup.Obj? ==> r == Failure(BackupNotAnObject)
  {
    if Crashes(current, backup, overlay) then Failure(BackupNotAnObject)
    else
      var reverted := Reverted(current, backup, overlay);
      assert overlay == map[] ==> reverted.Keys == current.Keys && reverted == current;
      Success(reverted)
  }

  /**
   The loop of `uninstall_setting`, one overlay member at a time.  A raised
   exception is the `Failure` outcome: the caller never writes the document
   back, so the partly reverted settings are not returned.
   */
  method UninstallSetting(currentSettings: Settings, backupSettings: Json, appliedSettings: Settings)
    returns (result: Result<Settings, RevertError>)
    ensures result == Revert(currentSettings, backupSettings, appliedSettings)
    decreases Obj(appliedSettings)
  {
    var current := currentSettings;
    var todo := appliedSettings.Keys;
    while todo != {}
      invariant todo <= appliedSettings.Keys
      invariant todo != appliedSettings.Keys ==> backupSettings.Obj?
      invariant forall key :: key in appliedSettings && key !in todo ==>
                  backupSettings.Obj? && !KeyCrashes(currentSettings, backupSettings.fields, appliedSettings, key) &&
                  Entry(current, key) == RevertedAt(currentSettings, backupSettings.fields, appliedSettings, key)
      invariant forall key :: key !in appliedSettings || key in todo ==>
                  Entry(current, key) == Entry(currentSettings, key)
      decreases todo
    {
      var appliedKey :| appliedKey in todo;
      var appliedValue := appliedSettings[appliedKey];
      var currentValue := Lookup(current, appliedKey);
      if !backupSettings.Obj? {
        // `backup_settings.get` on a value that is not a dict
        return Failure(BackupNotAnObject);
      }
      var backupValue := Lookup(backupSettings.fields, appliedKey);
      ghost var before := current;
      assert Entry(current, appliedKey) == Entry(currentSettings, appliedKey);
      assert currentValue == Lookup(currentSettings, appliedKey);
      if appliedValue.Obj? && currentValue.Obj? {
        if backupValue != Null {
          var sub := UninstallSetting(currentValue.fields, backupValue, appliedValue.fields);
          if sub.Failure? {
            assert KeyCrashes(currentSettings, backupSettings.fields, appliedSettings, appliedKey);
            return sub;
          }
          current := current[appliedKey := Obj(sub.value)];
          assert Entry(current, appliedKey) == RevertedAt(currentSettings, backupSettings.fields, appliedSettings, appliedKey);
        } else {
          var remaining := currentValue.fields;
          var keys := appliedValue.fields.Keys;
          while keys != {}
            invariant keys <= appliedValue.fields.Keys
            invariant remaining == currentValue.fields - (appliedValue.fields.Keys - keys)
            decreases keys
          {
            var key :| key in keys;
            remaining := remaining - {key};
            keys := keys - {key};
          }
          assert appliedValue.fields.Keys - keys == appliedValue.fields.Keys;
          current := current[appliedKey := Obj(remaining)];
          assert Entry(current, appliedKey) == RevertedAt(currentSettings, backupSettings.fields, appliedSettings, appliedKey);
        }
      } else {
        if backupValue != Null {
          current := current[appliedKey := backupValue];
        } else {
          current := current - {appliedKey};
        }
      }
      assert Entry(current, appliedKey) == RevertedAt(currentSettings, backupSettings.fields, appliedSettings, appliedKey);
      assert forall key :: key != appliedKey ==> Entry(current, key) == Entry(before, key);
      todo := todo - {appliedKey};
    }
    RevertedPointwise(currentSettings, backupSettings, appliedSettings, current);
    result := Success(current);
  }

  /** A document that agrees with the revert member by member is the reverted document. */
  lemma RevertedPointwise(currentSettings: Settings, backupSettings: Json, appliedSettings: Settings, current: Settings)
    requires appliedSettings != map[] ==> backupSettings.Obj?
    requires forall key :: key in appliedSettings ==>
               backupSettings.Obj? && !KeyCrashes(currentSettings, backupSettings.fields, appliedSettings, key) &&
               Entry(current, key) == RevertedAt(currentSettings, backupSettings.fields, appliedSettings, key)
    requires forall key :: key !in appliedSettings ==> Entry(current, key) == Entry(currentSettings, key)
    ensures !Crashes(currentSettings, backupSettings, appliedSettings)
    ensures current == Reverted(currentSettings, backupSettings, appliedSettings)
  {
  }
  /**
   A member whose overlay value is not an object, or whose current value is not
   an object, gets the backup's value verbatim, whatever the user put there; with
   no backup value (missing or `null`) it is removed.
   */
  lemma RevertRestoresOrRemoves(current: Settings, backup: Settings, overlay: Settings, key: string)
    requires key in overlay && (!overlay[key].Obj? || !Lookup(current, key).Obj?)
    requires Revert(current, Obj(backup), overlay).Success?
    ensures var r := Revert(current, Obj(backup), overlay).value;
            (key in r <==> key in backup && backup[key] != Null) &&
            (key in r ==> r[key] == backup[key])
  {
    RevertedMember(current, Obj(backup), overlay, key);
  }

  /**
   Where overlay and current both hold objects and the backup has no value
   (missing or `null`), only the overlay's own members are removed from the
   current object: the object stays, with whatever else the user put in it.
   */
  lemma RevertStripsOverlayMembers(current: Settings, backup: Settings, overlay: Settings, key: string)
    requires key in overlay && overlay[key].Obj? && key in current && current[key].Obj?
    requires Lookup(backup, key) == Null
    requires Revert(current, Obj(backup), overlay).Success?
    ensures var r := Revert(current, Obj(backup), overlay).value;
            key in r && r[key].Obj? &&
            r[key].fields.Keys == current[key].fields.Keys - overlay[key].fields.Keys &&
            forall k :: k in r[key].fields ==> r[key].fields[k] == current[key].fields[k]
  {
    RevertedMember(current, Obj(backup), overlay, key);
  }

  /**
   Where overlay and current both hold objects and the backup has a value, the
   member is reverted one level down against that value, and an exception one
   level down is an exception here.
   */
  lemma RevertRecurses(current: Settings, backup: Settings, overlay: Settings, key: string)
    requires key in overlay && overlay[key].Obj? && key in current && current[key].Obj?
    requires Lookup(backup, key) != Null
    ensures var inner := Revert(current[key].fields, backup[key], overlay[key].fields);
            var outer := Revert(current, Obj(backup), overlay);
            (inner.Failure? ==> outer.Failure?) &&
            (outer.Success? ==> inner.Success? && key in outer.value && outer.value[key] == Obj(inner.value))
  {
    if Revert(current[key].fields, backup[key], overlay[key].fields).Failure? {
      assert KeyCrashes(current, backup, overlay, key);
    } else if Revert(current, Obj(backup), overlay).Success? {
      RevertedMember(current, Obj(backup), overlay, key);
    }
  }

  /**
   A backup value that is neither `null` nor an object, where the overlay holds a
   non-empty object and current holds an object, makes the revert raise instead
   of restoring it.
   */
  lemma RevertRaisesOnScalarBackup(current: Settings, backup: Settings, overlay: Settings, key: string)
    requires key in overlay && overlay[key].Obj? && overlay[key].fields != map[]
    requires key in current && current[key].Obj?
    requires key in backup && backup[key] != Null && !backup[key].Obj?
    ensures Revert(current, Obj(backup), overlay) == Failure(BackupNotAnObject)
  {
    assert KeyCrashes(current, backup, overlay, key);
  }

  /**
   An empty overlay object meeting a current object leaves that object as it is,
   even over a backup value that is not an object: the recursive call has no key
   to visit, so it neither raises nor restores the backup value.
   */
  lemma RevertEmptyOverlayKeepsObject(current: Settings, backup: Settings, overlay: Settings, key: string)
    requires key in overlay && overlay[key] == Obj(map[])
    requires key in current && current[key].Obj?
    requires Revert(current, Obj(backup), overlay).Success?
    ensures var r := Revert(current, Obj(backup), overlay).value;
            key in r && r[key] == current[key]
  {
    RevertedMember(current, Obj(backup), overlay, key);
  }

  /** Members the overlay does not name are kept as they are, and nothing new appears. */
  lemma RevertFrame(current: Settings, backup: Json, overlay: Settings)
    requires Revert(current, backup, overlay).Success?
    ensures var r := Revert(current, backup, overlay).value;
            r.Keys <= current.Keys + overlay.Keys &&
            forall key :: key in current && key !in overlay ==> key in r && r[key] == current[key]
  {
  }

  /**
   Wherever the revert walks down `path` through an object of the overlay whose
   own object also names the next key of `path`, the backup has a value, so the
   revert recurses there rather than stripping that key.
   */
  predicate BackedAlong(backup: Json, overlay: Json, path: seq<string>)
  {
    |path| >= 2 && overlay.Obj? && path[0] in overlay.fields &&
    overlay.fields[path[0]].Obj? && path[1] in overlay.fields[path[0]].fields ==>
      backup.Obj? && Lookup(backup.fields, path[0]) != Null &&
      BackedAlong(Lookup(backup.fields, path[0]), overlay.fields[path[0]], path[1..])
  }

  /**
   At any depth, a setting the overlay does not reach (the user's own addition)
   survives the revert, provided the backup had the objects on the way to it
   that the revert would otherwise strip it from.
   */
  lemma {:induction false} RevertKeepsUntouched(current: Settings, backup: Json, overlay: Settings, path: seq<string>)
    requires Untouched(Obj(overlay), path) && BackedAlong(backup, Obj(overlay), path)
    requires At(Obj(current), path).Some?
    requires Revert(current, backup, overlay).Success?
    ensures At(Obj(Revert(current, backup, overlay).value), path) == At(Obj(current), path)
    decreases path
  {
    var key := path[0];
    RevertedMember(current, backup, overlay, key);
    if key in overlay {
      var inner := Lookup(backup.fields, key);
      if inner != Null {
        RevertKeepsUntouched(current[key].fields, inner, overlay[key].fields, path[1..]);
      } else {
        assert path[1] !in overlay[key].fields;
        var r := Revert(current, backup, overlay).value;
        assert r[key] == Obj(current[key].fields - overlay[key].fields.Keys);
        assert At(Obj(r), path) == At(current[key].fields[path[1]], path[2..]);
      }
    }
  }
}
