# Deep merge and deep revert of editor settings

A Dafny model of the two tree transformations at the heart of `setup_vscode.py`,
a script that installs a fixed set of VS Code settings into a user's
`settings.json` and later takes them out again:

- **install** (`update_setting`) merges the tool's overlay into the user's
  settings: a scalar of the overlay always wins (even over a nested object), an
  object of the overlay is merged into an object of the base, replaces any
  other base value, or is inserted when the key is missing;
- **uninstall** (`uninstall_setting`) walks the same overlay against the live
  settings and a backup taken before the install, and for every key the overlay
  names restores the backup's value verbatim, removes the key, recurses into
  nested objects, or (when the backup has nothing there) removes only the
  overlay's own members from a nested object.

Settings are JSON values (section 3 of RFC 8259). `Document.Json` keeps objects
as unordered `map<string, Json>` and every other value as an opaque leaf; `Null`
is its own case because the revert tests `!= None`, and `Document.Lookup`
models `dict.get(key, None)`, under which a missing key and a stored `null`
are the same.

Files:

- `document.dfy`: module `Document`, with the value model, `Lookup`, `Entry`,
  paths (`At`) and `Untouched`, which means "the overlay stops short of this
  path".
- `merge.dfy`: module `DeepMerge`, with the specification `MergeJson` / `Merge`,
  the imperative `UpdateSetting` (the source's loop over the overlay's keys,
  recursing on nested objects) proved equal to it, and the merge properties.
- `revert.dfy`: module `DeepRevert`, with the specification `Crashes` /
  `Reverted` / `Revert`, the imperative `UninstallSetting` proved equal to it
  (including the inner `pop` loop), and the revert properties.
- `roundtrip.dfy`: module `RoundTrip`, about installing and then uninstalling.
- `fixture.dfy`: module `Fixture`, with the scenario of `test_AI.py`.

The source mutates its `dict` argument in place. Here each method takes the
settings as a value and returns the updated settings, and a recursive call
returns the new nested object, which the caller stores back under its key.
Uninstall's exception becomes the `Failure(BackupNotAnObject)` outcome.

## Model

| member | source | states |
|---|---|---|
| `Document.Lookup` | setup_vscode.py:131-132 | `get(key, None)` gives `null` exactly when the key is missing or holds `null`, and otherwise gives the stored value |
| `DeepMerge.MergeJson` | setup_vscode.py:147-159 | the value a member ends with: an object exactly when the overlay's value is one; a non-object overlay value verbatim, even over an object; an overlay object verbatim over a base value that is not an object (or is missing); an overlay object over a base object has the union of their keys |
| `DeepMerge.Merge` | setup_vscode.py:147-159 | the merged keys are base keys ∪ overlay keys; a base-only key keeps its value; a non-object overlay value is stored verbatim, even over an object; an overlay object replaces a non-object or missing base value; an overlay object meeting a base object gives the recursive merge of the two |
| `DeepMerge.UpdateSetting` | setup_vscode.py:147-159 | the loop over the overlay's keys, with its recursive calls, returns exactly `Merge(oldSettings, newSettings)` |
| `DeepMerge.MergeOverlayWins` | setup_vscode.py:149-159 | every path of the overlay exists after the merge; where the overlay holds a non-object there, the merged document holds that same value, and where it holds an object, the merged document holds an object with at least its keys |
| `DeepMerge.MergeSelf` | setup_vscode.py:150-153 | merging an overlay into an equal document changes nothing (the case where the base already holds the overlay's object) |
| `DeepMerge.MergeKeepsUntouched` | setup_vscode.py:149-159 | at any depth, a base value on a path the overlay stops short of keeps its value |
| `DeepMerge.MergeAddsNoPaths` | setup_vscode.py:149-159 | every path of the merged document is a path of the base or of the overlay |
| `DeepMerge.MergeIdempotent` | setup_vscode.py:149-159 | merging the same overlay twice gives the same document as merging it once |
| `DeepMerge.MergeCovered` | setup_vscode.py:149-159 | when the overlay sets every base key and its objects already absorb the base's objects, the merge result is the overlay itself |
| `DeepRevert.Crashes` | setup_vscode.py:129-136 | the `.get` at line 132, reached directly or through the recursive call at lines 135-136: an empty overlay never raises, because the loop body never runs, and a non-empty overlay against a backup that is not an object always raises |
| `DeepRevert.RevertedAt` | setup_vscode.py:131-144 | an overlay member is removed exactly when the backup has no value there (missing or `null`) and overlay and current do not both hold objects; otherwise, unless both hold objects, it becomes the backup value verbatim; where both hold objects it stays an object, stripped of the overlay's direct child keys when the backup has no value |
| `DeepRevert.Reverted` | setup_vscode.py:126-144 | a revert that does not raise adds no key outside current ∪ overlay, and keeps every member the overlay does not name |
| `DeepRevert.Revert` | setup_vscode.py:126-144 | the outcome is a failure exactly when `Crashes` holds; an empty overlay returns the current settings unchanged; a non-empty overlay against a backup that is not an object fails |
| `DeepRevert.UninstallSetting` | setup_vscode.py:126-144 | the loop over the overlay's keys, with its recursive calls and its inner `pop` loop, returns `Failure` exactly when `Crashes` holds, and otherwise the settings `Reverted` describes |
| `DeepRevert.RevertRestoresOrRemoves` | setup_vscode.py:140-144 | for an overlay key whose overlay value or current value is not an object, the key is present afterwards iff the backup has a non-null value there, and it then holds that backup value verbatim, whatever the user had put there |
| `DeepRevert.RevertStripsOverlayMembers` | setup_vscode.py:134-139 | where overlay and current both hold objects and the backup has no value (missing or `null`), the object stays, its keys are the current keys minus the overlay's direct child keys, and the remaining members are unchanged |
| `DeepRevert.RevertRecurses` | setup_vscode.py:134-136 | where overlay and current both hold objects and the backup has a non-null value, a failure one level down is a failure here, and on success the key holds the result of reverting one level down |
| `DeepRevert.RevertRaisesOnScalarBackup` | setup_vscode.py:132-136 | a non-null, non-object backup value under a non-empty overlay object that meets a current object makes the revert fail instead of restoring the value |
| `DeepRevert.RevertFrame` | setup_vscode.py:129-144 | keys the overlay does not name keep their values, and the result has no key outside current keys ∪ overlay keys |
| `DeepRevert.RevertKeepsUntouched` | setup_vscode.py:129-144 | at any depth, a current value on a path the overlay stops short of survives, provided the backup holds a non-null value at every overlay object along the path whose own object names the next key of the path; a key inside an overlay object the backup lacks survives because only that object's direct overlay members are popped |
| `DeepRevert.RevertEmptyOverlayKeepsObject` | setup_vscode.py:134-136 | an empty overlay object meeting a current object leaves that object unchanged, whatever the backup holds there, a non-object value included |
| `RoundTrip.InstallThenUninstall` | setup_vscode.py:126-159 | taking a backup, merging the overlay and reverting with that backup does not fail and gives the backup plus an empty object at each overlay object the backup lacked, provided the backup holds no `null` under overlay keys and holds objects where it meets overlay objects |
| `RoundTrip.RoundTripRestoresBackup` | setup_vscode.py:126-159 | when every overlay object meets an object in the backup and no overlay key holds `null` there, uninstall after install gives back the backup exactly |
| `Fixture.DriverScenario` | test_AI.py:9-96 | the driver's install leaves the overlay; after its edits, the uninstall restores `Default`, `off` and `some.formatter` over the user's changes and `insertMode` `none`, removes keys the backup lacked, leaves `[css]` as `{}`, and keeps `editor.tabSize`, `customUserSetting`, the nested `editor.formatOnSave` and `[test]` |
| `Fixture.ScalarBackupUnderObjectRaises` | setup_vscode.py:132-136 | a backup holding the string `"flat"` where the overlay installs `{"i": {"j": 1}}` makes the uninstall fail |
| `Fixture.EmptyOverlayOverScalarBackupKeepsObject` | setup_vscode.py:132-136 | with an empty overlay object `{}` over the backup string `"flat"`, the uninstall succeeds and leaves the user's object `{"u": 1}` as it was |
| `Fixture.UserKeyInUnbackedObjectSurvives` | setup_vscode.py:134-139 | with overlay `{"[css]": {"f": "p"}}` and an empty backup, the uninstall pops `f` and keeps the user's `user` key inside `[css]` |
| `Fixture.NestedUserKeyDropped` | setup_vscode.py:134-139 | with overlay `{"a": {"b": {"x": 1}}}`, an empty backup and current `{"a": {"b": {"x": 1, "user": 7}}}`, the uninstall pops `b` whole and returns `{"a": {}}`, losing the user's `user` key |
| `Fixture.NullBackupLostByRoundTrip` | setup_vscode.py:140-144 | with backup `{"k": null}` and overlay `{"k": 1}`, install then uninstall returns `{}`, not the backup |

Four behaviours of the code that a reader might not expect, all kept by the
model:

- A backup value that is neither `null` nor an object raises `AttributeError`
  from `.get` whenever the revert is handed it together with a non-empty
  overlay object. That happens one level down when the overlay holds a
  non-empty object and current holds an object (any object, even an empty
  one), and at the top level when the backup document itself is not an
  object. The value is not written back verbatim. Under an empty overlay
  object the recursive call visits no key, so it neither raises nor restores
  the value, and the current object stays as it is (for example `{}` stays
  `{}`).
- An overlay object with no backup counterpart is emptied of the overlay's
  members and left in place, for example `[css]` ending as `{}`. The key is not
  removed.
- A user key nested inside an overlay object's child object is lost when the
  backup lacks the overlay object: lines 137-139 pop each of the overlay's
  direct children whole, with everything the user added inside them (for
  example `{"a": {"b": {"x": 1, "user": 7}}}` ends as `{"a": {}}`). Only
  keys directly inside the overlay object survive.
- A stored `null` in the backup counts as absent. Where the overlay names that
  key, the uninstall removes it, so install followed by uninstall does not
  give such a backup back (`{"k": null}` ends as `{}`).

## Left out

- `install` / `uninstall` (setup_vscode.py:64-123): reading and writing `settings.json` and JSON (de)serialisation are I/O. Both write through an `r+` handle without truncating, which can leave stale trailing bytes; that is not modelled.
- Extension install and removal through `subprocess.run(["code", ...])`, and `wsl_expandvars`: these call external processes.
- `find_settings_json`, `find_backup_settings_json`, `is_wsl`: these are platform and environment lookups. `is_wsl` always answers true.
- `backup_settings_json`: this is a file copy. Its existence checks test bound methods without calling them, and `install` ignores its result, so there is no "abort the install" behaviour to model.
- `parse_args`, `print_header`, `print_end`, `main`: these are the command line and console output.
- Object identity: line 155 stores the overlay's nested `dict` itself, while line 157 stores a deep copy. A value model cannot tell the two apart, so later aliasing between the settings and the overlay constant is not captured.
- Key order and number representation: objects are unordered maps, and numbers are kept as their literal text, which nothing inspects.
- `DeepRevert.UninstallSetting`: on the failure path the source has already reverted some keys in memory when the exception escapes. The model returns only `Failure`, because the caller never writes that partial state back.
- Top-level documents that are not objects: `update_setting` and `uninstall_setting` are typed to take `dict`s, and the model's top-level settings are always objects. This covers `Merge` / `UpdateSetting` on both arguments and the current settings and overlay of `Revert` / `UninstallSetting`. A `settings.json` whose top level is not an object is outside the model. Only the revert's backup may be any value, as in the recursive calls.
- `DeepRevert.RevertKeepsUntouched`: there is no unconditional promise that every key the overlay does not name survives at every level, because the code does not keep it. A user key inside a child of an overlay object the backup lacks is popped with that child (`Fixture.NestedUserKeyDropped`). The lemma therefore holds only under its `BackedAlong` proviso.
