/**
 * StandardScanOptions: which unlisted classes and mapping files archive scanning
 * detects. Three flags are derived once, from an optional explicit detection
 * setting (such as `hbm,class`) and the persistence unit's exclude-unlisted-classes
 * value, and never change afterwards.
 */
module ScanOptions {
  import opened Strings

  /** The explicit detection setting: absent (Java null) or a text. */
  datatype Setting = Unset | Explicit(text: string)

  datatype StandardScanOptions = StandardScanOptions(
    detectClassesInRoot: bool,
    detectClassesInNonRoot: bool,
    detectHibernateMappingFiles: bool)
  {
    /** canDetectUnlistedClassesInRoot. */
    function CanDetectUnlistedClassesInRoot(): (r: bool)
      ensures r == detectClassesInRoot
    {
      detectClassesInRoot
    }

    /** canDetectUnlistedClassesInNonRoot. */
    function CanDetectUnlistedClassesInNonRoot(): (r: bool)
      ensures r == detectClassesInNonRoot
    {
      detectClassesInNonRoot
    }

    /** canDetectHibernateMappingFiles. */
    function CanDetectHibernateMappingFiles(): (r: bool)
      ensures r == detectHibernateMappingFiles
    {
      detectHibernateMappingFiles
    }
  }

  /** StandardScanOptions(explicitDetectionSetting, excludeUnlistedClasses). Without a
      setting, mapping files and non-root classes are detected, and root classes
      unless the unit excludes unlisted classes. With one, mapping files are detected
      when it mentions `hbm`, and classes anywhere when it mentions `class`. */
  function NewScanOptions(explicitDetectionSetting: Setting, excludeUnlistedClasses: bool)
    : (r: StandardScanOptions)
    ensures explicitDetectionSetting == Unset ==>
      r.CanDetectHibernateMappingFiles()
      && (r.CanDetectUnlistedClassesInRoot() <==> !excludeUnlistedClasses)
      && r.CanDetectUnlistedClassesInNonRoot()
    ensures explicitDetectionSetting.Explicit? ==>
      var text := explicitDetectionSetting.text;
      && (r.CanDetectHibernateMappingFiles() <==> Contains(text, "hbm"))
      && (r.CanDetectUnlistedClassesInRoot() <==> Contains(text, "class"))
      && r.CanDetectUnlistedClassesInNonRoot() == r.CanDetectUnlistedClassesInRoot()
  {
    match explicitDetectionSetting
    case Unset =>
      StandardScanOptions(!excludeUnlistedClasses, true, true)
    case Explicit(text) =>
      var inRoot := Contains(text, "class");
      StandardScanOptions(inRoot, inRoot, Contains(text, "hbm"))
  }

  /** The setting the no-argument constructor passes on. */
  const DefaultSetting: string := "hbm,class"

  /** StandardScanOptions(): the explicit setting `hbm,class` with unlisted classes
      not excluded, which detects everything. */
  function DefaultScanOptions(): (r: StandardScanOptions)
    ensures r.CanDetectUnlistedClassesInRoot()
    ensures r.CanDetectUnlistedClassesInNonRoot()
    ensures r.CanDetectHibernateMappingFiles()
  {
    assert MatchesAt(DefaultSetting, "hbm", 0);
    assert MatchesAt(DefaultSetting, "class", 4);
    NewScanOptions(Explicit(DefaultSetting), false)
  }

  // ---------------------------------------------------------------------------
  // Properties.

  /** With an explicit setting the exclude-unlisted-classes value has no effect. */
  lemma ExplicitSettingIgnoresExclude(text: string, a: bool, b: bool)
    ensures NewScanOptions(Explicit(text), a) == NewScanOptions(Explicit(text), b)
  {
  }

  /** Without a setting, the unit's exclude value decides root classes alone. */
  lemma UnsetDependsOnlyOnExcludeForRoot(a: bool, b: bool)
    ensures NewScanOptions(Unset, a).detectHibernateMappingFiles
         == NewScanOptions(Unset, b).detectHibernateMappingFiles
    ensures NewScanOptions(Unset, a).detectClassesInNonRoot
         == NewScanOptions(Unset, b).detectClassesInNonRoot
    ensures NewScanOptions(Unset, a).detectClassesInRoot != NewScanOptions(Unset, !a).detectClassesInRoot
  {
  }

  /** An explicit setting that mentions neither `hbm` nor `class` turns everything off,
      even though no setting at all turns everything on. */
  lemma SettingWithoutKeywordsDetectsNothing(text: string)
    requires !Contains(text, "hbm") && !Contains(text, "class")
    ensures var r := NewScanOptions(Explicit(text), false);
      !r.detectClassesInRoot && !r.detectClassesInNonRoot && !r.detectHibernateMappingFiles
    ensures var u := NewScanOptions(Unset, false);
      u.detectClassesInRoot && u.detectClassesInNonRoot && u.detectHibernateMappingFiles
  {
  }

  /** The default options are those of an absent setting on a unit that does not
      exclude unlisted classes. */
  lemma DefaultAgreesWithUnset()
    ensures DefaultScanOptions() == NewScanOptions(Unset, false)
  {
  }
}
