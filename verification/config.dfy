/** Configuration resolution of src/config.ts (`resolveConfig`). Each of
    the three settings is taken from the caller's overrides, else from the
    configuration file, else from the built-in default, with JavaScript's
    `??`: only an absent value falls through, so an empty string given as
    an override is used as it is. The file's contents are a parameter;
    reading and caching it is not part of this model. */
module Config {
  import opened Wrappers

  const DefaultMintUrl := "https://testnut.cashu.space"
  const DefaultDbPath := "./botwallets.db"
  const DefaultUnit := "sat"

  /** A partial configuration: the overrides object or the parsed file. */
  datatype Settings = Settings(mintUrl: Option<string>, dbPath: Option<string>, unit: Option<string>)

  /** A resolved configuration. */
  datatype Resolved = Resolved(mintUrl: string, dbPath: string, unit: string)

  /** `a?.x ?? b?.x ?? d` for one field, with `a` and `b` already projected. */
  function Pick(over: Option<string>, file: Option<string>, default: string): (r: string)
    ensures over.Some? ==> r == over.value
    ensures over.None? && file.Some? ==> r == file.value
    ensures over.None? && file.None? ==> r == default
  {
    over.GetOr(file.GetOr(default))
  }

  function MintUrlOf(s: Option<Settings>): Option<string> { if s.Some? then s.value.mintUrl else None }
  function DbPathOf(s: Option<Settings>): Option<string> { if s.Some? then s.value.dbPath else None }
  function UnitOf(s: Option<Settings>): Option<string> { if s.Some? then s.value.unit else None }

  /** `resolveConfig(overrides)` with `file` standing for what
      `loadFileConfig` returns (`None` for no file or an unreadable one).
      Precedence, field by field: an override beats the file, which beats
      the default; an empty string is a value like any other. */
  function ResolveConfig(overrides: Option<Settings>, file: Option<Settings>): (r: Resolved)
    ensures MintUrlOf(overrides).Some? ==> r.mintUrl == MintUrlOf(overrides).value
    ensures MintUrlOf(overrides).None? && MintUrlOf(file).Some? ==> r.mintUrl == MintUrlOf(file).value
    ensures MintUrlOf(overrides).None? && MintUrlOf(file).None? ==> r.mintUrl == DefaultMintUrl
    ensures DbPathOf(overrides).Some? ==> r.dbPath == DbPathOf(overrides).value
    ensures DbPathOf(overrides).None? && DbPathOf(file).Some? ==> r.dbPath == DbPathOf(file).value
    ensures DbPathOf(overrides).None? && DbPathOf(file).None? ==> r.dbPath == DefaultDbPath
    ensures UnitOf(overrides).Some? ==> r.unit == UnitOf(overrides).value
    ensures UnitOf(overrides).None? && UnitOf(file).Some? ==> r.unit == UnitOf(file).value
    ensures UnitOf(overrides).None? && UnitOf(file).None? ==> r.unit == DefaultUnit
  {
    Resolved(Pick(MintUrlOf(overrides), MintUrlOf(file), DefaultMintUrl),
             Pick(DbPathOf(overrides), DbPathOf(file), DefaultDbPath),
             Pick(UnitOf(overrides), UnitOf(file), DefaultUnit))
  }

  /** The settings a resolved configuration amounts to. */
  function AsSettings(c: Resolved): Settings
  {
    Settings(Some(c.mintUrl), Some(c.dbPath), Some(c.unit))
  }

  /** With neither overrides nor a file, the defaults. */
  lemma Defaults()
    ensures ResolveConfig(None, None) == Resolved("https://testnut.cashu.space", "./botwallets.db", "sat")
  {
  }

  /** Passing a resolved configuration back in as the overrides reproduces
      it, whatever the file says. */
  lemma ResolveIdempotent(overrides: Option<Settings>, file: Option<Settings>, file': Option<Settings>)
    ensures var c := ResolveConfig(overrides, file);
      ResolveConfig(Some(AsSettings(c)), file') == c
  {
  }

  /** Each field is resolved on its own: changing one field of the
      overrides leaves the other two resolved values as they were. */
  lemma FieldsIndependent(o: Settings, file: Option<Settings>, mintUrl: Option<string>)
    ensures var a := ResolveConfig(Some(o), file);
      var b := ResolveConfig(Some(o.(mintUrl := mintUrl)), file);
      a.dbPath == b.dbPath && a.unit == b.unit
  {
  }
}
