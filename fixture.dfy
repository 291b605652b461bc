/**
 The install / edit / uninstall scenario of the repository's test driver,
 with its overlay, its backup and the user's edits made between the two.
 */
module Fixture {
  import opened Document
  import opened DeepMerge
  import opened DeepRevert

  const Prettier := Str("esbenp.prettier-vscode")

  /** The overlay the driver installs. */
  function WebSettings(): Settings
  {
    map[
      "workbench.colorTheme" := Str("Horizon"),
      "files.autoSave" := Str("afterDelay"),
      "editor.formatOnSave" := Bool(true),
      "terminal.integrated.defaultProfile.windows" := Str("PowerShell"),
      "[typescript]" := Obj(map["editor.defaultFormatter" := Prettier]),
      "[html]" := Obj(map[
        "editor.defaultFormatter" := Prettier,
        "editor.suggest" := Obj(map["insertMode" := Str("replace"), "otherSetting" := Bool(true)])]),
      "[css]" := Obj(map["editor.defaultFormatter" := Prettier])]
  }

  /** The user's settings before the install, and the backup taken of them. */
  function BackupSettings(): Settings
  {
    map[
      "workbench.colorTheme" := Str("Default"),
      "files.autoSave" := Str("off"),
      "[typescript]" := Obj(map["editor.defaultFormatter" := Str("some.formatter")]),
      "[html]" := Obj(map[
        "editor.defaultFormatter" := Str("some.formatter"),
        "editor.suggest" := Obj(map["insertMode" := Str("none")])])]
  }

  /** The install, one object at a time: `[html]` / `editor.suggest`. */
  lemma InstallSuggest()
    ensures Merge(BackupSettings()["[html]"].fields["editor.suggest"].fields,
                  WebSettings()["[html]"].fields["editor.suggest"].fields)
            == WebSettings()["[html]"].fields["editor.suggest"].fields
  {
    MergeCovered(BackupSettings()["[html]"].fields["editor.suggest"].fields,
                 WebSettings()["[html]"].fields["editor.suggest"].fields);
  }

  lemma InstallHtml()
    ensures Merge(BackupSettings()["[html]"].fields, WebSettings()["[html]"].fields) == WebSettings()["[html]"].fields
  {
    InstallSuggest();
    MergeCovered(BackupSettings()["[html]"].fields, WebSettings()["[html]"].fields);
  }

  lemma InstallTypescript()
    ensures Merge(BackupSettings()["[typescript]"].fields, WebSettings()["[typescript]"].fields)
            == WebSettings()["[typescript]"].fields
  {
    MergeCovered(BackupSettings()["[typescript]"].fields, WebSettings()["[typescript]"].fields);
  }

  /** Every setting the user had is one the overlay sets, so the install leaves exactly the overlay. */
  lemma Install()
    ensures Merge(BackupSettings(), WebSettings()) == WebSettings()
  {
    InstallHtml();
    InstallTypescript();
    assert forall key :: key in BackupSettings() && BackupSettings()[key].Obj? ==>
             key == "[typescript]" || key == "[html]";
    MergeCovered(BackupSettings(), WebSettings());
  }

  /** The driver's edits after the install: two overlay keys changed, user keys added at three depths. */
  function UserEdits(installed: Settings): (edited: Settings)
    requires "[html]" in installed && installed["[html]"].Obj?
    requires "editor.suggest" in installed["[html]"].fields && installed["[html]"].fields["editor.suggest"].Obj?
  {
    var html := installed["[html]"].fields;
    var suggest := html["editor.suggest"].fields;
    installed["workbench.colorTheme" := Str("Solarized")]
             ["files.autoSave" := Str("onFocusChange")]
             ["editor.tabSize" := Number("4")]
             ["[html]" := Obj(html["editor.suggest" := Obj(suggest["customUserSetting" := Number("42")])]
                                  ["editor.formatOnSave" := Bool(false)])]
             ["[test]" := Obj(map["test2" := Str("test")])]
  }

  /** The settings the driver expects after the uninstall. */
  function ExpectedSuggest(): Settings
  {
    map["insertMode" := Str("none"), "customUserSetting" := Number("42")]
  }

  function ExpectedHtml(): Settings
  {
    map["editor.defaultFormatter" := Str("some.formatter"),
        "editor.suggest" := Obj(ExpectedSuggest()),
        "editor.formatOnSave" := Bool(false)]
  }

  function ExpectedSettings(): Settings
  {
    map[
      "workbench.colorTheme" := Str("Default"),
      "files.autoSave" := Str("off"),
      "[typescript]" := Obj(map["editor.defaultFormatter" := Str("some.formatter")]),
      "[html]" := Obj(ExpectedHtml()),
      "[css]" := Obj(map[]),
      "editor.tabSize" := Number("4"),
      "[test]" := Obj(map["test2" := Str("test")])]
  }

  /** The driver's settings just before the uninstall. */
  function EditedSettings(): Settings
  {
    map[
      "workbench.colorTheme" := Str("Solarized"),
      "files.autoSave" := Str("onFocusChange"),
      "editor.formatOnSave" := Bool(true),
      "terminal.integrated.defaultProfile.windows" := Str("PowerShell"),
      "[typescript]" := Obj(map["editor.defaultFormatter" := Prettier]),
      "[html]" := Obj(map[
        "editor.defaultFormatter" := Prettier,
        "editor.suggest" := Obj(map["insertMode" := Str("replace"), "otherSetting" := Bool(true),
                                    "customUserSetting" := Number("42")]),
        "editor.formatOnSave" := Bool(false)]),
      "[css]" := Obj(map["editor.defaultFormatter" := Prettier]),
      "editor.tabSize" := Number("4"),
      "[test]" := Obj(map["test2" := Str("test")])]
  }

  /** The install followed by the user's edits gives the settings above. */
  lemma InstallThenEdit()
    ensures UserEdits(Merge(BackupSettings(), WebSettings())) == EditedSettings()
  {
    Install();
    EditInstalled();
  }

  lemma EditInstalledHtml()
    ensures var html := WebSettings()["[html]"].fields;
            var suggest := html["editor.suggest"].fields;
            html["editor.suggest" := Obj(suggest["customUserSetting" := Number("42")])]
                ["editor.formatOnSave" := Bool(false)]
            == EditedSettings()["[html]"].fields
  {
    var suggest := WebSettings()["[html]"].fields["editor.suggest"].fields;
    assert suggest["customUserSetting" := Number("42")]
           == EditedSettings()["[html]"].fields["editor.suggest"].fields;
  }

  /** The driver's edits applied to the installed settings. */
  lemma EditInstalled()
    ensures UserEdits(WebSettings()) == EditedSettings()
  {
    EditInstalledHtml();
    var edited := UserEdits(WebSettings());
    assert edited.Keys == EditedSettings().Keys;
  }

  /** The uninstall, one object at a time: `[html]` / `editor.suggest` keeps the user's `customUserSetting`. */
  lemma UninstallSuggest()
    ensures Revert(EditedSettings()["[html]"].fields["editor.suggest"].fields,
                   BackupSettings()["[html]"].fields["editor.suggest"],
                   WebSettings()["[html]"].fields["editor.suggest"].fields)
            == Success(ExpectedSuggest())
  {
    assert EditedSettings()["[html]"].fields["editor.suggest"].fields
        == map["insertMode" := Str("replace"), "otherSetting" := Bool(true), "customUserSetting" := Number("42")];
    assert BackupSettings()["[html]"].fields["editor.suggest"] == Obj(map["insertMode" := Str("none")]);
    assert WebSettings()["[html]"].fields["editor.suggest"].fields
        == map["insertMode" := Str("replace"), "otherSetting" := Bool(true)];
    RevertSuggest();
  }

  /** `UninstallSuggest` on the literal values it reads. */
  lemma RevertSuggest()
    ensures Revert(map["insertMode" := Str("replace"), "otherSetting" := Bool(true), "customUserSetting" := Number("42")],
                   Obj(map["insertMode" := Str("none")]),
                   map["insertMode" := Str("replace"), "otherSetting" := Bool(true)])
            == Success(ExpectedSuggest())
  {
    var current := map["insertMode" := Str("replace"), "otherSetting" := Bool(true), "customUserSetting" := Number("42")];
    var backup := Obj(map["insertMode" := Str("none")]);
    var overlay := map["insertMode" := Str("replace"), "otherSetting" := Bool(true)];
    assert !Crashes(current, backup, overlay);
    var r := Reverted(current, backup, overlay);
    RevertedMember(current, backup, overlay, "insertMode");
    RevertedMember(current, backup, overlay, "otherSetting");
    RevertedMember(current, backup, overlay, "customUserSetting");
    assert r.Keys == ExpectedSuggest().Keys;
    assert r == ExpectedSuggest();
  }

  lemma UninstallHtml()
    ensures Revert(EditedSettings()["[html]"].fields, BackupSettings()["[html]"], WebSettings()["[html]"].fields)
            == Success(ExpectedHtml())
  {
    assert EditedSettings()["[html]"].fields == map[
      "editor.defaultFormatter" := Prettier,
      "editor.suggest" := Obj(map["insertMode" := Str("replace"), "otherSetting" := Bool(true),
                                  "customUserSetting" := Number("42")]),
      "editor.formatOnSave" := Bool(false)];
    assert BackupSettings()["[html]"] == Obj(map[
      "editor.defaultFormatter" := Str("some.formatter"),
      "editor.suggest" := Obj(map["insertMode" := Str("none")])]);
    assert WebSettings()["[html]"].fields == map[
      "editor.defaultFormatter" := Prettier,
      "editor.suggest" := Obj(map["insertMode" := Str("replace"), "otherSetting" := Bool(true)])];
    RevertHtml();
  }

  /** `UninstallHtml` on the literal values it reads. */
  lemma RevertHtml()
    ensures Revert(
              map[
                "editor.defaultFormatter" := Prettier,
                "editor.suggest" := Obj(map["insertMode" := Str("replace"), "otherSetting" := Bool(true),
                                            "customUserSetting" := Number("42")]),
                "editor.formatOnSave" := Bool(false)],
              Obj(map[
                "editor.defaultFormatter" := Str("some.formatter"),
                "editor.suggest" := Obj(map["insertMode" := Str("none")])]),
              map[
                "editor.defaultFormatter" := Prettier,
                "editor.suggest" := Obj(map["insertMode" := Str("replace"), "otherSetting" := Bool(true)])])
            == Success(ExpectedHtml())
  {
    var current := map[
      "editor.defaultFormatter" := Prettier,
      "editor.suggest" := Obj(map["insertMode" := Str("replace"), "otherSetting" := Bool(true),
                                  "customUserSetting" := Number("42")]),
      "editor.formatOnSave" := Bool(false)];
    var backup := Obj(map[
      "editor.defaultFormatter" := Str("some.formatter"),
      "editor.suggest" := Obj(map["insertMode" := Str("none")])]);
    var overlay := map[
      "editor.defaultFormatter" := Prettier,
      "editor.suggest" := Obj(map["insertMode" := Str("replace"), "otherSetting" := Bool(true)])];
    RevertSuggest();
    assert !KeyCrashes(current, backup.fields, overlay, "editor.suggest");
    assert !Crashes(current, backup, overlay);
    var r := Reverted(current, backup, overlay);
    RevertedMember(current, backup, overlay, "editor.defaultFormatter");
    RevertedMember(current, backup, overlay, "editor.suggest");
    RevertedMember(current, backup, overlay, "editor.formatOnSave");
    assert r.Keys == ExpectedHtml().Keys;
    assert r == ExpectedHtml();
  }

  lemma UninstallTypescript()
    ensures Revert(EditedSettings()["[typescript]"].fields, BackupSettings()["[typescript]"],
                   WebSettings()["[typescript]"].fields)
            == Success(map["editor.defaultFormatter" := Str("some.formatter")])
  {
    var current := EditedSettings()["[typescript]"].fields;
    var backup := BackupSettings()["[typescript]"];
    var overlay := WebSettings()["[typescript]"].fields;
    assert !Crashes(current, backup, overlay);
    var r := Reverted(current, backup, overlay);
    RevertedMember(current, backup, overlay, "editor.defaultFormatter");
    assert r.Keys == {"editor.defaultFormatter"};
    assert r == map["editor.defaultFormatter" := Str("some.formatter")];
  }

  /** No overlay object of the driver meets a backup value that is not an object. */
  lemma HtmlDoesNotRaise()
    ensures !KeyCrashes(EditedSettings(), BackupSettings(), WebSettings(), "[html]")
  {
    UninstallHtml();
  }

  lemma TypescriptDoesNotRaise()
    ensures !KeyCrashes(EditedSettings(), BackupSettings(), WebSettings(), "[typescript]")
  {
    UninstallTypescript();
  }

  lemma CssDoesNotRaise()
    ensures !KeyCrashes(EditedSettings(), BackupSettings(), WebSettings(), "[css]")
  {
    assert "[css]" !in BackupSettings();
  }

  /** The overlay's objects are at `[typescript]`, `[html]` and `[css]`. */
  lemma OverlayObjects()
    ensures forall key :: key in WebSettings() && WebSettings()[key].Obj? ==>
              key == "[typescript]" || key == "[html]" || key == "[css]"
  {
  }

  lemma UninstallDoesNotRaise()
    ensures !Crashes(EditedSettings(), Obj(BackupSettings()), WebSettings())
  {
    HtmlDoesNotRaise();
    TypescriptDoesNotRaise();
    CssDoesNotRaise();
    OverlayObjects();
  }

  /** The uninstall's result, key by key. */
  lemma UninstallMember(key: string)
    requires !Crashes(EditedSettings(), Obj(BackupSettings()), WebSettings())
    ensures var r := Reverted(EditedSettings(), Obj(BackupSettings()), WebSettings());
            (key in r <==> key in ExpectedSettings()) && (key in r ==> r[key] == ExpectedSettings()[key])
  {
    if key == "[html]" {
      HtmlMember();
    } else if key == "[typescript]" {
      TypescriptMember();
    } else if key == "[css]" {
      CssMember();
    } else if key in WebSettings() {
      OverlayScalar(key);
    } else {
      RevertedMember(EditedSettings(), Obj(BackupSettings()), WebSettings(), key);
      UserMember(key);
    }
  }

  lemma HtmlMember()
    requires !Crashes(EditedSettings(), Obj(BackupSettings()), WebSettings())
    ensures var r := Reverted(EditedSettings(), Obj(BackupSettings()), WebSettings());
            "[html]" in r && r["[html]"] == Obj(ExpectedHtml())
  {
    UninstallHtml();
    RevertedMember(EditedSettings(), Obj(BackupSettings()), WebSettings(), "[html]");
  }

  lemma TypescriptMember()
    requires !Crashes(EditedSettings(), Obj(BackupSettings()), WebSettings())
    ensures var r := Reverted(EditedSettings(), Obj(BackupSettings()), WebSettings());
            "[typescript]" in r && r["[typescript]"] == ExpectedSettings()["[typescript]"]
  {
    UninstallTypescript();
    RevertedMember(EditedSettings(), Obj(BackupSettings()), WebSettings(), "[typescript]");
  }

  lemma CssMember()
    requires !Crashes(EditedSettings(), Obj(BackupSettings()), WebSettings())
    ensures var r := Reverted(EditedSettings(), Obj(BackupSettings()), WebSettings());
            "[css]" in r && r["[css]"] == Obj(map[])
  {
    RevertedMember(EditedSettings(), Obj(BackupSettings()), WebSettings(), "[css]");
  }

  lemma UserMember(key: string)
    requires key !in WebSettings()
    ensures (key in EditedSettings() <==> key in ExpectedSettings()) &&
            (key in EditedSettings() ==> EditedSettings()[key] == ExpectedSettings()[key])
  {
    if key in EditedSettings() {
      assert key == "editor.tabSize" || key == "[test]";
    }
  }

  lemma OverlayScalar(key: string)
    requires key in WebSettings() && key != "[html]" && key != "[typescript]" && key != "[css]"
    requires !Crashes(EditedSettings(), Obj(BackupSettings()), WebSettings())
    ensures var r := Reverted(EditedSettings(), Obj(BackupSettings()), WebSettings());
            (key in r <==> key in ExpectedSettings()) && (key in r ==> r[key] == ExpectedSettings()[key])
  {
    RevertedMember(EditedSettings(), Obj(BackupSettings()), WebSettings(), key);
    assert key == "workbench.colorTheme" || key == "files.autoSave" || key == "editor.formatOnSave"
        || key == "terminal.integrated.defaultProfile.windows";
    assert !WebSettings()[key].Obj?;
  }

  /** Uninstalling after the user's edits gives the settings the driver expects. */
  lemma Uninstall()
    ensures Revert(EditedSettings(), Obj(BackupSettings()), WebSettings()) == Success(ExpectedSettings())
  {
    UninstallDoesNotRaise();
    var r := Reverted(EditedSettings(), Obj(BackupSettings()), WebSettings());
    forall key
      ensures key in r <==> key in ExpectedSettings()
      ensures key in r ==> r[key] == ExpectedSettings()[key]
    {
      UninstallMember(key);
    }
    assert r == ExpectedSettings();
  }

  /**
   The driver end to end: the install leaves the overlay, and after the user's
   edits the uninstall puts the overlay's keys back to the backup (over the
   user's own changes to them), removes those the backup lacked, leaves `[css]`
   as an empty object and keeps every key the user added.
   */
  lemma DriverScenario()
    ensures Merge(BackupSettings(), WebSettings()) == WebSettings()
    ensures Revert(UserEdits(Merge(BackupSettings(), WebSettings())), Obj(BackupSettings()), WebSettings())
            == Success(ExpectedSettings())
  {
    Install();
    InstallThenEdit();
    Uninstall();
  }

  /**
   A backup that held a plain string where the overlay installs a nested object:
   the uninstall raises instead of putting the string back.
   */
  lemma ScalarBackupUnderObjectRaises()
    ensures var overlay := map["h" := Obj(map["i" := Obj(map["j" := Number("1")])])];
            var backup := map["h" := Str("flat")];
            Revert(Merge(backup, overlay), Obj(backup), overlay) == Failure(BackupNotAnObject)
  {
    var overlay := map["h" := Obj(map["i" := Obj(map["j" := Number("1")])])];
    var backup := map["h" := Str("flat")];
    assert "i" in overlay["h"].fields;
    RevertRaisesOnScalarBackup(Merge(backup, overlay), backup, overlay, "h");
  }

  /**
   An empty overlay object over a backup that held a plain string: there is no
   member to visit, so the uninstall neither raises nor puts the string back,
   and the user's object stays.
   */
  lemma EmptyOverlayOverScalarBackupKeepsObject()
    ensures var overlay := map["h" := Obj(map[])];
            var backup := map["h" := Str("flat")];
            var current := map["h" := Obj(map["u" := Number("1")])];
            Revert(current, Obj(backup), overlay) == Success(current)
  {
    var overlay := map["h" := Obj(map[])];
    var backup := map["h" := Str("flat")];
    var current := map["h" := Obj(map["u" := Number("1")])];
    assert !KeyCrashes(current, backup, overlay, "h");
    assert !Crashes(current, Obj(backup), overlay);
    RevertedMember(current, Obj(backup), overlay, "h");
    var inner := Reverted(current["h"].fields, Str("flat"), map[]);
    RevertedMember(current["h"].fields, Str("flat"), map[], "u");
    assert inner.Keys == {"u"};
    assert inner == current["h"].fields;
    var r := Reverted(current, Obj(backup), overlay);
    assert r["h"] == Obj(inner);
    assert r.Keys == {"h"};
    assert r == current;
  }

  /**
   A key the user added inside an overlay object the backup lacks survives the
   uninstall: only the overlay's own members are popped from that object.
   */
  lemma UserKeyInUnbackedObjectSurvives()
    ensures var overlay := map["[css]" := Obj(map["f" := Str("p")])];
            var current := map["[css]" := Obj(map["f" := Str("p"), "user" := Number("1")])];
            Revert(current, Obj(map[]), overlay) == Success(map["[css]" := Obj(map["user" := Number("1")])])
  {
    var overlay := map["[css]" := Obj(map["f" := Str("p")])];
    var current := map["[css]" := Obj(map["f" := Str("p"), "user" := Number("1")])];
    assert !KeyCrashes(current, map[], overlay, "[css]");
    assert !Crashes(current, Obj(map[]), overlay);
    RevertedMember(current, Obj(map[]), overlay, "[css]");
    var r := Reverted(current, Obj(map[]), overlay);
    assert r.Keys == {"[css]"};
    assert r["[css]"] == Obj(current["[css]"].fields - {"f"});
    assert current["[css]"].fields - {"f"} == map["user" := Number("1")];
    assert r == map["[css]" := Obj(map["user" := Number("1")])];
  }

  /**
   A key the user added two levels under an overlay object the backup lacks is
   lost: the overlay's child `b` is popped whole, `user` inside it included.
   */
  lemma NestedUserKeyDropped()
    ensures var overlay := map["a" := Obj(map["b" := Obj(map["x" := Number("1")])])];
            var current := map["a" := Obj(map["b" := Obj(map["x" := Number("1"), "user" := Number("7")])])];
            Revert(current, Obj(map[]), overlay) == Success(map["a" := Obj(map[])])
  {
    var overlay := map["a" := Obj(map["b" := Obj(map["x" := Number("1")])])];
    var current := map["a" := Obj(map["b" := Obj(map["x" := Number("1"), "user" := Number("7")])])];
    assert !KeyCrashes(current, map[], overlay, "a");
    assert !Crashes(current, Obj(map[]), overlay);
    RevertedMember(current, Obj(map[]), overlay, "a");
    var r := Reverted(current, Obj(map[]), overlay);
    assert r.Keys == {"a"};
    assert current["a"].fields - {"b"} == map[];
    assert r == map["a" := Obj(map[])];
  }

  /**
   A backup that stored `null` under an overlay key does not come back: the
   revert reads `null` as "no backup value" and removes the key.
   */
  lemma NullBackupLostByRoundTrip()
    ensures var backup := map["k" := Null];
            var overlay := map["k" := Number("1")];
            Revert(Merge(backup, overlay), Obj(backup), overlay) == Success(map[])
  {
    var backup := map["k" := Null];
    var overlay := map["k" := Number("1")];
    var installed := Merge(backup, overlay);
    assert installed == overlay;
    assert !Crashes(installed, Obj(backup), overlay);
    RevertedMember(installed, Obj(backup), overlay, "k");
    var r := Reverted(installed, Obj(backup), overlay);
    assert r.Keys == {};
  }
}
