/** The settings page of client/src/pages/Settings.jsx: the settings record with its
    defaults, the table of controls that edits it, a change of one setting, and the reset
    to defaults after the user confirms. The record lives in the page only; it is not
    saved anywhere and does not drive the theme. */
module SettingsPage {

  /** A setting's value: the option picked in a list, or the state of a switch. */
  datatype SettingValue = Choice(option: string) | Toggle(on: bool)

  /** The control that edits a setting: a list of option values, or a switch. */
  datatype Control = Select(options: seq<string>) | Switch

  datatype Descriptor = Descriptor(id: string, control: Control)

  datatype SettingGroup = SettingGroup(id: string, settings: seq<Descriptor>)

  /** The settings the page keeps, section by section. */
  const AppearanceKeys: set<string> := {"theme", "language", "fontSize", "animations"}
  const NotificationsKeys: set<string> :=
    {"emailNotifications", "pushNotifications", "taskReminders", "weeklyDigest"}
  const PrivacyKeys: set<string> := {"profileVisibility", "dataCollection", "analytics"}
  const TaskManagementKeys: set<string> := {"defaultPriority", "autoArchive", "showCompleted", "sortBy"}
  const AdvancedKeys: set<string> := {"experimentalFeatures", "debugMode", "autoSave"}
  const SettingKeys: set<string> :=
    AppearanceKeys + (NotificationsKeys + (PrivacyKeys + (TaskManagementKeys + AdvancedKeys)))

  /** The record the page starts with. */
  function InitialSettings(): map<string, SettingValue> {
    map[
      "theme" := Choice("dark"),
      "language" := Choice("en"),
      "fontSize" := Choice("medium"),
      "animations" := Toggle(true),
      "emailNotifications" := Toggle(true),
      "pushNotifications" := Toggle(true),
      "taskReminders" := Toggle(true),
      "weeklyDigest" := Toggle(true),
      "profileVisibility" := Choice("private"),
      "dataCollection" := Toggle(false),
      "analytics" := Toggle(true),
      "defaultPriority" := Choice("medium"),
      "autoArchive" := Toggle(true),
      "showCompleted" := Toggle(true),
      "sortBy" := Choice("created"),
      "experimentalFeatures" := Toggle(false),
      "debugMode" := Toggle(false),
      "autoSave" := Toggle(true)]
  }

  /** The record the reset writes, spelled out separately by the page. */
  function ResetSettings(): map<string, SettingValue> {
    map[
      "theme" := Choice("dark"),
      "language" := Choice("en"),
      "fontSize" := Choice("medium"),
      "animations" := Toggle(true),
      "emailNotifications" := Toggle(true),
      "pushNotifications" := Toggle(true),
      "taskReminders" := Toggle(true),
      "weeklyDigest" := Toggle(true),
      "profileVisibility" := Choice("private"),
      "dataCollection" := Toggle(false),
      "analytics" := Toggle(true),
      "defaultPriority" := Choice("medium"),
      "autoArchive" := Toggle(true),
      "showCompleted" := Toggle(true),
      "sortBy" := Choice("created"),
      "experimentalFeatures" := Toggle(false),
      "debugMode" := Toggle(false),
      "autoSave" := Toggle(true)]
  }

  const Appearance := SettingGroup("appearance", [
    Descriptor("theme", Select(["dark", "light", "auto"])),
    Descriptor("language", Select(["en", "es", "fr", "de"])),
    Descriptor("fontSize", Select(["small", "medium", "large"])),
    Descriptor("animations", Switch)])

  const Notifications := SettingGroup("notifications", [
    Descriptor("emailNotifications", Switch),
    Descriptor("pushNotifications", Switch),
    Descriptor("taskReminders", Switch),
    Descriptor("weeklyDigest", Switch)])

  const Privacy := SettingGroup("privacy", [
    Descriptor("profileVisibility", Select(["public", "private"])),
    Descriptor("dataCollection", Switch),
    Descriptor("analytics", Switch)])

  const TaskManagement := SettingGroup("tasks", [
    Descriptor("defaultPriority", Select(["low", "medium", "high"])),
    Descriptor("autoArchive", Switch),
    Descriptor("showCompleted", Switch),
    Descriptor("sortBy", Select(["created", "priority", "due", "alphabetical"]))])

  const Advanced := SettingGroup("advanced", [
    Descriptor("experimentalFeatures", Switch),
    Descriptor("debugMode", Switch),
    Descriptor("autoSave", Switch)])

  /** The page's sections and the control of each setting in them. */
  const SettingSections: seq<SettingGroup> := [Appearance, Notifications, Privacy, TaskManagement, Advanced]

  /** A value its control can show: one of the listed options, or a switch state. */
  predicate Fits(v: SettingValue, c: Control) {
    match c
    case Select(options) => v.Choice? && v.option in options
    case Switch => v.Toggle?
  }

  /** Every control of group `g` finds a value it can show in the record. */
  predicate GroupConforms(g: SettingGroup, settings: map<string, SettingValue>) {
    forall j | 0 <= j < |g.settings| ::
      g.settings[j].id in settings && Fits(settings[g.settings[j].id], g.settings[j].control)
  }

  /** Every control of every section finds a value it can show in the record. */
  predicate Conforms(sections: seq<SettingGroup>, settings: map<string, SettingValue>) {
    forall g | g in sections :: GroupConforms(g, settings)
  }

  /** The setting ids of the controls of group `g`. */
  function GroupIds(g: SettingGroup): set<string> {
    set d | d in g.settings :: d.id
  }

  /** The setting ids of the controls of `sections`. */
  function ControlledIds(sections: seq<SettingGroup>): set<string> {
    if sections == [] then {} else GroupIds(sections[0]) + ControlledIds(sections[1..])
  }

  /** The reset record is the initial one. */
  lemma ResetIsInitial()
    ensures ResetSettings() == InitialSettings()
  {
  }

  /** The defaults of the Appearance section fit its controls. */
  lemma AppearanceDefaults()
    ensures GroupConforms(Appearance, InitialSettings())
  {
    var m := InitialSettings();
    assert m["theme"] == Choice("dark");
    assert m["language"] == Choice("en");
    assert m["fontSize"] == Choice("medium");
    assert m["animations"] == Toggle(true);
  }

  /** The ids of the Appearance section's controls. */
  lemma AppearanceIds()
    ensures GroupIds(Appearance) == AppearanceKeys
  {
    assert Appearance.settings[0] in Appearance.settings;
    assert Appearance.settings[1] in Appearance.settings;
    assert Appearance.settings[2] in Appearance.settings;
    assert Appearance.settings[3] in Appearance.settings;
  }

  /** The defaults of the Notifications section fit its controls. */
  lemma NotificationsDefaults()
    ensures GroupConforms(Notifications, InitialSettings())
  {
    var m := InitialSettings();
    assert m["emailNotifications"] == Toggle(true);
    assert m["pushNotifications"] == Toggle(true);
    assert m["taskReminders"] == Toggle(true);
    assert m["weeklyDigest"] == Toggle(true);
  }

  /** The ids of the Notifications section's controls. */
  lemma NotificationsIds()
    ensures GroupIds(Notifications) == NotificationsKeys
  {
    assert Notifications.settings[0] in Notifications.settings;
    assert Notifications.settings[1] in Notifications.settings;
    assert Notifications.settings[2] in Notifications.settings;
    assert Notifications.settings[3] in Notifications.settings;
  }

  /** The defaults of the Privacy section fit its controls. */
  lemma PrivacyDefaults()
    ensures GroupConforms(Privacy, InitialSettings())
  {
    var m := InitialSettings();
    assert m["profileVisibility"] == Choice("private");
    assert m["dataCollection"] == Toggle(false);
    assert m["analytics"] == Toggle(true);
  }

  /** The ids of the Privacy section's controls. */
  lemma PrivacyIds()
    ensures GroupIds(Privacy) == PrivacyKeys
  {
    assert Privacy.settings[0] in Privacy.settings;
    assert Privacy.settings[1] in Privacy.settings;
    assert Privacy.settings[2] in Privacy.settings;
  }

  /** The defaults of the TaskManagement section fit its controls. */
  lemma TaskManagementDefaults()
    ensures GroupConforms(TaskManagement, InitialSettings())
  {
    var m := InitialSettings();
    assert m["defaultPriority"] == Choice("medium");
    assert m["autoArchive"] == Toggle(true);
    assert m["showCompleted"] == Toggle(true);
    assert m["sortBy"] == Choice("created");
  }

  /** The ids of the TaskManagement section's controls. */
  lemma TaskManagementIds()
    ensures GroupIds(TaskManagement) == TaskManagementKeys
  {
    assert TaskManagement.settings[0] in TaskManagement.settings;
    assert TaskManagement.settings[1] in TaskManagement.settings;
    assert TaskManagement.settings[2] in TaskManagement.settings;
    assert TaskManagement.settings[3] in TaskManagement.settings;
  }

  /** The defaults of the Advanced section fit its controls. */
  lemma AdvancedDefaults()
    ensures GroupConforms(Advanced, InitialSettings())
  {
    var m := InitialSettings();
    assert m["experimentalFeatures"] == Toggle(false);
    assert m["debugMode"] == Toggle(false);
    assert m["autoSave"] == Toggle(true);
  }

  /** The ids of the Advanced section's controls. */
  lemma AdvancedIds()
    ensures GroupIds(Advanced) == AdvancedKeys
  {
    assert Advanced.settings[0] in Advanced.settings;
    assert Advanced.settings[1] in Advanced.settings;
    assert Advanced.settings[2] in Advanced.settings;
  }

  /** Each default is a value its control offers: every list default is among the list's
      options and every switch default is a switch state. */
  lemma DefaultsConform()
    ensures Conforms(SettingSections, InitialSettings())
  {
    AppearanceDefaults();
    NotificationsDefaults();
    PrivacyDefaults();
    TaskManagementDefaults();
    AdvancedDefaults();
  }

  /** The keys of the initial record. */
  lemma InitialKeys()
    ensures InitialSettings().Keys == SettingKeys
  {
  }

  /** The ids of the controls of a list of sections are those of its first section and
      those of the rest. */
  lemma ControlledIdsCons(g: SettingGroup, rest: seq<SettingGroup>)
    ensures ControlledIds([g] + rest) == GroupIds(g) + ControlledIds(rest)
  {
    assert ([g] + rest)[1..] == rest;
  }

  /** The ids of all controls, section by section. */
  lemma ControlledIdsBySection()
    ensures ControlledIds(SettingSections)
         == GroupIds(Appearance) + (GroupIds(Notifications) + (GroupIds(Privacy)
          + (GroupIds(TaskManagement) + GroupIds(Advanced))))
  {
    ControlledIdsCons(Advanced, []);
    assert ControlledIds([Advanced]) == GroupIds(Advanced);
    ControlledIdsCons(TaskManagement, [Advanced]);
    ControlledIdsCons(Privacy, [TaskManagement, Advanced]);
    ControlledIdsCons(Notifications, [Privacy, TaskManagement, Advanced]);
    ControlledIdsCons(Appearance, [Notifications, Privacy, TaskManagement, Advanced]);
  }

  lemma AllControlledIds()
    ensures ControlledIds(SettingSections) == SettingKeys
  {
    ControlledIdsBySection();
    AppearanceIds();
    NotificationsIds();
    PrivacyIds();
    TaskManagementIds();
    AdvancedIds();
  }

  /** The record has exactly one key per control on the page. */
  lemma RecordKeysAreControlled()
    ensures InitialSettings().Keys == ControlledIds(SettingSections)
  {
    InitialKeys();
    AllControlledIds();
  }

  /** A change made through a control keeps the record showable when no other control
      uses the same id with another kind of value. */
  lemma ChangeKeepsConformance(sections: seq<SettingGroup>, settings: map<string, SettingValue>, id: string, v: SettingValue)
    requires Conforms(sections, settings)
    requires forall g, d | g in sections && d in g.settings && d.id == id :: Fits(v, d.control)
    ensures Conforms(sections, settings[id := v])
  {
    forall g | g in sections ensures GroupConforms(g, settings[id := v]) {
      assert GroupConforms(g, settings);
    }
  }

  class SettingsState {
    var settings: map<string, SettingValue>
    var activeSection: string

    constructor()
      ensures settings == InitialSettings() && activeSection == "appearance"
      ensures Conforms(SettingSections, settings)
    {
      settings := InitialSettings();
      activeSection := "appearance";
      DefaultsConform();
    }

    /** `handleSettingChange`: exactly the named setting takes the new value. */
    method HandleSettingChange(setting: string, value: SettingValue)
      modifies this
      ensures settings == old(settings)[setting := value]
      ensures forall k | k in old(settings) && k != setting :: k in settings && settings[k] == old(settings)[k]
      ensures activeSection == old(activeSection)
    {
      settings := settings[setting := value];
    }

    /** `handleResetSettings`, with the answer to the confirmation dialog: on yes the
        record is back to its initial state, on no it is kept. */
    method HandleResetSettings(confirmed: bool)
      modifies this
      ensures confirmed ==> settings == InitialSettings() && Conforms(SettingSections, settings)
      ensures !confirmed ==> settings == old(settings)
      ensures activeSection == old(activeSection)
    {
      if confirmed {
        settings := ResetSettings();
        ResetIsInitial();
        DefaultsConform();
      }
    }

    method SelectSection(id: string)
      modifies this
      ensures activeSection == id && settings == old(settings)
    {
      activeSection := id;
    }
  }
}
