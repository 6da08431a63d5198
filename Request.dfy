/**
 * Building the validation request: the caller's options are shallowly
 * merged over the defaults, then `{path, excludes: [], validator}` is built.
 */
module Request {
  import opened Wrappers
  import opened Results

  /** The options a caller may pass; `None` is a field left out (undefined). */
  datatype Options = Options(validator: Option<seq<ValidatorKind>>, prettify: Option<bool>, warning: Option<bool>)

  /** The options after merging, every field present. */
  datatype Settings = Settings(validator: seq<ValidatorKind>, prettify: bool, warning: bool)

  /** The record handed to the analyzer. */
  datatype ValidationRequest = ValidationRequest(path: string, excludes: seq<string>, validator: seq<ValidatorKind>)

  const DefaultValidators: seq<ValidatorKind> := [ThemeMentor, ThemeCheck]
  const Defaults: Settings := Settings(DefaultValidators, false, true)

  /** The options a caller passes when it passes none (`options = {}`). */
  const NoOptions: Options := Options(None, None, None)

  /** One field of the shallow merge: the caller's value if present, else the default. */
  function Override<T>(caller: Option<T>, default: T): T {
    match caller
    case Some(v) => v
    case None => default
  }

  /**
   * `extend(defaults, options)`, field by field: every field the caller gives
   * is taken as it is, and every field left out takes its default.
   */
  function Merge(options: Options): (r: Settings)
    ensures options.validator.Some? ==> r.validator == options.validator.value
    ensures options.validator.None? ==> r.validator == [ThemeMentor, ThemeCheck]
    ensures options.prettify.Some? ==> r.prettify == options.prettify.value
    ensures options.prettify.None? ==> !r.prettify
    ensures options.warning.Some? ==> r.warning == options.warning.value
    ensures options.warning.None? ==> r.warning
  {
    Settings(
      Override(options.validator, Defaults.validator),
      Override(options.prettify, Defaults.prettify),
      Override(options.warning, Defaults.warning))
  }

  /** The request for `dir`: its path, no exclusions and the merged validator list. */
  function BuildRequest(dir: string, options: Options): (r: ValidationRequest)
    ensures r.path == dir && r.excludes == []
    ensures options.validator.Some? ==> r.validator == options.validator.value
    ensures options.validator.None? ==> r.validator == [ThemeMentor, ThemeCheck]
  {
    var settings := Merge(options);
    ValidationRequest(dir, [], settings.validator)
  }

  /** The merged settings written back as caller options. */
  function AsOptions(settings: Settings): Options {
    Options(Some(settings.validator), Some(settings.prettify), Some(settings.warning))
  }

  /** Without options the defaults apply: both validators, no prettify, warnings on. */
  lemma MergeDefaults()
    ensures Merge(NoOptions) == Settings([ThemeMentor, ThemeCheck], false, true)
  {
  }

  /** Fully given options are taken as they are: the merge never unions with the defaults. */
  lemma MergeTakesCallerValues(settings: Settings)
    ensures Merge(AsOptions(settings)) == settings
  {
  }

  /** `prettify` and `warning` have no effect on the request. */
  lemma RequestIgnoresFlags(dir: string, a: Options, b: Options)
    requires a.validator == b.validator
    ensures BuildRequest(dir, a) == BuildRequest(dir, b)
  {
  }

  /** An empty validator list from the caller stays empty: it replaces the default list. */
  lemma EmptyValidatorListKept(dir: string, options: Options)
    requires options.validator == Some([])
    ensures BuildRequest(dir, options).validator == []
  {
  }
}
