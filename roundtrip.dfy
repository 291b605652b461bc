/**
 Installing an overlay and then uninstalling it against a backup taken just
 before the install.  The round trip gives the backup back exactly when the
 backup has objects wherever the overlay does and no `null` under an overlay
 key; an overlay object the backup lacks leaves an empty object behind.
 */
module RoundTrip {
  import opened Document
  import opened DeepMerge
  import opened DeepRevert

  /**
   The revert of a fresh install does not raise and recurses where the merge
   did: no overlay key holds `null` in the backup, and an overlay object meets
   an object in the backup whenever the backup has that key at all.
   */
  predicate Restorable(backup: Settings, overlay: Settings)
    decreases Obj(overlay)
  {
    forall key :: key in overlay ==>
      (key in backup ==> backup[key] != Null) &&
      (key in backup && overlay[key].Obj? ==>
         backup[key].Obj? && Restorable(backup[key].fields, overlay[key].fields))
  }

  /** Every overlay object meets an object in the backup, and no overlay key holds `null` there. */
  predicate Compatible(backup: Settings, overlay: Settings)
    decreases Obj(overlay)
  {
    forall key :: key in overlay ==>
      (key in backup ==> backup[key] != Null) &&
      (overlay[key].Obj? ==>
         key in backup && backup[key].Obj? && Compatible(backup[key].fields, overlay[key].fields))
  }

  /** The backup with an empty object at every overlay object the backup does not have. */
  function WithEmptyShells(backup: Settings, overlay: Settings): Settings
    decreases Obj(overlay)
  {
    map key | key in backup.Keys + overlay.Keys && (key in backup || overlay[key].Obj?) ::
      if key !in backup then Obj(map[])
      else if key in overlay && overlay[key].Obj? && backup[key].Obj? then
        Obj(WithEmptyShells(backup[key].fields, overlay[key].fields))
      else backup[key]
  }

  /** Install then uninstall, with nothing edited in between. */
  lemma {:induction false} InstallThenUninstall(backup: Settings, overlay: Settings)
    requires Restorable(backup, overlay)
    ensures Revert(Merge(backup, overlay), Obj(backup), overlay) == Success(WithEmptyShells(backup, overlay))
    decreases Obj(overlay)
  {
    var installed := Merge(backup, overlay);
    forall key | key in overlay && overlay[key].Obj? && key in backup
      ensures Revert(Merge(backup[key].fields, overlay[key].fields), backup[key], overlay[key].fields)
              == Success(WithEmptyShells(backup[key].fields, overlay[key].fields))
    {
      InstallThenUninstall(backup[key].fields, overlay[key].fields);
    }
    assert forall key :: key in overlay ==> !KeyCrashes(installed, backup, overlay, key);
    assert !Crashes(installed, Obj(backup), overlay);
    var reverted := Reverted(installed, Obj(backup), overlay);
    var shelled := WithEmptyShells(backup, overlay);
    forall key | key in installed.Keys + overlay.Keys
      ensures key in reverted <==> key in shelled
      ensures key in reverted ==> reverted[key] == shelled[key]
    {
      RevertedMember(installed, Obj(backup), overlay, key);
    }
    assert reverted == shelled;
  }

  /** Compatible backups are restorable and gain no empty objects. */
  lemma {:induction false} CompatibleHasNoShells(backup: Settings, overlay: Settings)
    requires Compatible(backup, overlay)
    ensures Restorable(backup, overlay)
    ensures WithEmptyShells(backup, overlay) == backup
    decreases Obj(overlay)
  {
    forall key | key in overlay && overlay[key].Obj?
      ensures Restorable(backup[key].fields, overlay[key].fields)
      ensures WithEmptyShells(backup[key].fields, overlay[key].fields) == backup[key].fields
    {
      CompatibleHasNoShells(backup[key].fields, overlay[key].fields);
    }
    var shelled := WithEmptyShells(backup, overlay);
    assert shelled.Keys == backup.Keys;
    assert shelled == backup;
  }

  /** For a compatible backup, uninstall undoes install exactly. */
  lemma RoundTripRestoresBackup(backup: Settings, overlay: Settings)
    requires Compatible(backup, overlay)
    ensures Revert(Merge(backup, overlay), Obj(backup), overlay) == Success(backup)
  {
    CompatibleHasNoShells(backup, overlay);
    InstallThenUninstall(backup, overlay);
  }
}
