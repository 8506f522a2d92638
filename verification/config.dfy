/** Reading the extension's three boolean settings (src/config.ts). A stored
    value that is not a boolean silently falls back to that setting's default. */
module Config {

  /** A value as the host's configuration store may hold it under a key. */
  datatype Setting =
    | Absent                  // nothing stored under the key (`undefined`)
    | BoolSetting(b: bool)
    | StringSetting(s: string)
    | NumberSetting(n: int)
    | OtherSetting            // null, objects, arrays, non-integral numbers

  /** The `autoMdPreview` configuration section, by key name. */
  type Section = map<string, Setting>

  datatype Key = EnableAutoPreview | ClosePreviewOnNonMarkdown | AlwaysOpenInPrimaryEditor

  function KeyName(k: Key): string {
    match k
    case EnableAutoPreview => "enableAutoPreview"
    case ClosePreviewOnNonMarkdown => "closePreviewOnNonMarkdown"
    case AlwaysOpenInPrimaryEditor => "alwaysOpenInPrimaryEditor"
  }

  datatype AutoMdPreviewConfig = AutoMdPreviewConfig(
    enableAutoPreview: bool,
    closePreviewOnNonMarkdown: bool,
    alwaysOpenInPrimaryEditor: bool)

  const DefaultConfig: AutoMdPreviewConfig := AutoMdPreviewConfig(true, true, true)

  /** The field of a configuration that a key names. */
  function Field(cfg: AutoMdPreviewConfig, k: Key): bool {
    match k
    case EnableAutoPreview => cfg.enableAutoPreview
    case ClosePreviewOnNonMarkdown => cfg.closePreviewOnNonMarkdown
    case AlwaysOpenInPrimaryEditor => cfg.alwaysOpenInPrimaryEditor
  }

  /** `config.get(key)`: the stored value, `Absent` when the key is missing. */
  function Get(section: Section, name: string): Setting {
    if name in section then section[name] else Absent
  }

  function ReadBoolean(section: Section, k: Key, defaultValue: bool): (r: bool)
    ensures Get(section, KeyName(k)).BoolSetting? ==> r == Get(section, KeyName(k)).b
    ensures !Get(section, KeyName(k)).BoolSetting? ==> r == defaultValue
  {
    match Get(section, KeyName(k))
    case BoolSetting(b) => b
    case _ => defaultValue
  }

  /** Each field is the boolean stored under its own key, or its default
      when that key holds anything else. */
  function GetAutoMdPreviewConfig(section: Section): (r: AutoMdPreviewConfig)
    ensures forall k: Key :: Get(section, KeyName(k)).BoolSetting? ==>
              Field(r, k) == Get(section, KeyName(k)).b
    ensures forall k: Key :: !Get(section, KeyName(k)).BoolSetting? ==>
              Field(r, k) == Field(DefaultConfig, k)
  {
    AutoMdPreviewConfig(
      ReadBoolean(section, EnableAutoPreview, DefaultConfig.enableAutoPreview),
      ReadBoolean(section, ClosePreviewOnNonMarkdown, DefaultConfig.closePreviewOnNonMarkdown),
      ReadBoolean(section, AlwaysOpenInPrimaryEditor, DefaultConfig.alwaysOpenInPrimaryEditor))
  }

  /** Every setting is on by default. */
  lemma DefaultsAllTrue(k: Key)
    ensures Field(DefaultConfig, k)
  {
  }

  /** The section that stores each field of `cfg` as a boolean under its key. */
  function Stored(cfg: AutoMdPreviewConfig): Section {
    map[KeyName(EnableAutoPreview) := BoolSetting(cfg.enableAutoPreview),
        KeyName(ClosePreviewOnNonMarkdown) := BoolSetting(cfg.closePreviewOnNonMarkdown),
        KeyName(AlwaysOpenInPrimaryEditor) := BoolSetting(cfg.alwaysOpenInPrimaryEditor)]
  }

  /** Reading back a section that holds booleans under all three keys gives
      exactly those booleans: reading inverts storing. */
  lemma ReadStoredRoundTrip(cfg: AutoMdPreviewConfig)
    ensures GetAutoMdPreviewConfig(Stored(cfg)) == cfg
  {
  }

  /** With nothing configured the result is the default configuration. */
  lemma EmptySectionGivesDefaults()
    ensures GetAutoMdPreviewConfig(map[]) == DefaultConfig
  {
  }

  /** A field depends only on what is stored under its own key. */
  lemma FieldDependsOnlyOnOwnKey(s1: Section, s2: Section, k: Key)
    requires Get(s1, KeyName(k)) == Get(s2, KeyName(k))
    ensures Field(GetAutoMdPreviewConfig(s1), k) == Field(GetAutoMdPreviewConfig(s2), k)
  {
  }

  /** Storing anything, valid or not, under one key leaves the other two
      fields as they were. */
  lemma UpdateIsLocal(section: Section, k: Key, v: Setting, other: Key)
    requires other != k
    ensures Field(GetAutoMdPreviewConfig(section[KeyName(k) := v]), other)
         == Field(GetAutoMdPreviewConfig(section), other)
  {
  }

  /** Strings such as "yes" and "no" are not booleans and fall back to the
      defaults; an untouched key keeps its default too. */
  lemma InvalidValuesFallBack()
    ensures GetAutoMdPreviewConfig(
              map["enableAutoPreview" := StringSetting("yes"),
                  "alwaysOpenInPrimaryEditor" := StringSetting("no")]) == DefaultConfig
  {
  }
}
