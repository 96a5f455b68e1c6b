/**
 * `ServiceSettings` of service/config/settings.py: four fields with
 * defaults, and a validator shared by the two log-level fields.
 *
 * Values arrive already parsed, one `Option` per field (`None` for a key the
 * environment and the `.env` file do not supply).  `ServiceSettings` is a
 * pydantic-settings `BaseSettings`, whose configuration validates defaults
 * too, so a level field passes the validator whether it was supplied or
 * fell back to INFO.  Errors of both level fields are collected, in field
 * order, into one validation error.
 */
module Settings {
  import opened Wrappers

  /** The numeric levels of Python's `logging` module. */
  const NotSet: int := 0
  const Debug: int := 10
  const Info: int := 20
  const Warning: int := 30
  const Error: int := 40
  const Critical: int := 50

  /** `valid_levels`, in the order the validator lists them. */
  const ValidLevels: seq<int> := [Debug, Info, Warning, Error, Critical]

  /** The `ValueError` raised by the validator: the accepted levels and the
      rejected value, from which the message is formatted. */
  datatype LevelError = LevelError(validLevels: seq<int>, got: int)

  /** The two fields the validator is attached to. */
  datatype LevelField = LoggingLevel | ThirdPartyLoggersLevel

  datatype FieldError = FieldError(field: LevelField, error: LevelError)

  datatype ServiceSettings = ServiceSettings(
    environment: string,
    loggingLevel: int,
    thirdPartyLoggersLevel: int,
    serviceName: string)

  const DefaultEnvironment: string := "not defined in the .env file"
  const DefaultServiceName: string := "service_name is not defined in the .env file"
  const DefaultLevel: int := Info

  /** `validate_log_level`: returns its argument when it is a level of
      `logging` from DEBUG up, and raises otherwise. */
  function ValidateLogLevel(v: int): (r: Result<int, LevelError>)
    ensures r.Ok? <==> 10 <= v <= 50 && v % 10 == 0
    ensures r.Ok? ==> r.value == v
    ensures r.Err? ==> r.error.got == v && r.error.validLevels == [10, 20, 30, 40, 50]
  {
    if v !in ValidLevels then Err(LevelError(ValidLevels, v)) else Ok(v)
  }

  /** A level field: the supplied value, or the default when there is none,
      passed through the validator either way. */
  function LevelOrDefault(field: LevelField, supplied: Option<int>): (r: Result<int, FieldError>)
    ensures supplied.None? ==> r == Ok(DefaultLevel)
    ensures supplied.Some? ==> (r.Ok? <==> ValidateLogLevel(supplied.value).Ok?)
    ensures r.Ok? && supplied.Some? ==> r.value == supplied.value
    ensures r.Err? ==> r.error.field == field && supplied.Some? && r.error.error.got == supplied.value
  {
    var v := if supplied.Some? then supplied.value else DefaultLevel;
    match ValidateLogLevel(v)
    case Ok(w) => Ok(w)
    case Err(e) => Err(FieldError(field, e))
  }

  /** The errors of a list of field results, in order. */
  function Errors(rs: seq<Result<int, FieldError>>): seq<FieldError>
  {
    if rs == [] then []
    else (if rs[0].Err? then [rs[0].error] else []) + Errors(rs[1..])
  }

  /** `ServiceSettings()`: defaults for missing fields, the validator on both
      supplied level fields, and a validation error listing every failure. */
  function MakeSettings(environment: Option<string>, loggingLevel: Option<int>,
                        thirdPartyLoggersLevel: Option<int>, serviceName: Option<string>)
    : (r: Result<ServiceSettings, seq<FieldError>>)
    ensures r.Ok? ==> IsNamedLevel(r.value.loggingLevel) && IsNamedLevel(r.value.thirdPartyLoggersLevel)
    ensures r.Err? ==> 1 <= |r.error| <= 2
  {
    var lv := LevelOrDefault(LoggingLevel, loggingLevel);
    var tp := LevelOrDefault(ThirdPartyLoggersLevel, thirdPartyLoggersLevel);
    if lv.Err? || tp.Err? then
      assert Errors([tp]) == (if tp.Err? then [tp.error] else []) + Errors([]);
      assert Errors([lv, tp]) == (if lv.Err? then [lv.error] else []) + Errors([tp]);
      Err(Errors([lv, tp]))
    else Ok(ServiceSettings(
      if environment.Some? then environment.value else DefaultEnvironment,
      lv.value,
      tp.value,
      if serviceName.Some? then serviceName.value else DefaultServiceName))
  }

  /** A supplied level is what `logging` calls a level name other than
      NOTSET: the reference definition the validator is checked against. */
  predicate IsNamedLevel(v: int)
  {
    v == Debug || v == Info || v == Warning || v == Error || v == Critical
  }

  /** The validator accepts exactly the five named levels. */
  lemma ValidatorAcceptsNamedLevels(v: int)
    ensures ValidateLogLevel(v).Ok? <==> IsNamedLevel(v)
  {
  }

  /** NOTSET, a level between two names and one above CRITICAL are rejected,
      not coerced. */
  lemma ValidatorRejectsOthers()
    ensures ValidateLogLevel(NotSet) == Err(LevelError(ValidLevels, 0))
    ensures ValidateLogLevel(15).Err? && ValidateLogLevel(60).Err?
  {
  }

  /** The default level is INFO and passes the validator unchanged, so a
      field left unset always ends up INFO. */
  lemma DefaultLevelIsValid()
    ensures DefaultLevel == 20
    ensures ValidateLogLevel(DefaultLevel) == Ok(DefaultLevel)
  {
  }

  /** Construction succeeds exactly when every supplied level is valid; the
      result then holds the supplied values and the defaults elsewhere. */
  lemma MakeSettingsOk(environment: Option<string>, loggingLevel: Option<int>,
                       thirdPartyLoggersLevel: Option<int>, serviceName: Option<string>)
    ensures var r := MakeSettings(environment, loggingLevel, thirdPartyLoggersLevel, serviceName);
      && (r.Ok? <==> (loggingLevel.Some? ==> IsNamedLevel(loggingLevel.value))
                     && (thirdPartyLoggersLevel.Some? ==> IsNamedLevel(thirdPartyLoggersLevel.value)))
      && (r.Ok? ==>
            && r.value.environment == (if environment.Some? then environment.value else DefaultEnvironment)
            && r.value.serviceName == (if serviceName.Some? then serviceName.value else DefaultServiceName)
            && r.value.loggingLevel == (if loggingLevel.Some? then loggingLevel.value else Info)
            && r.value.thirdPartyLoggersLevel
               == (if thirdPartyLoggersLevel.Some? then thirdPartyLoggersLevel.value else Info)
            && IsNamedLevel(r.value.loggingLevel) && IsNamedLevel(r.value.thirdPartyLoggersLevel))
  {
  }

  /** A failed construction reports each rejected level field once, in
      field order, with the value that was rejected. */
  lemma MakeSettingsErrors(environment: Option<string>, loggingLevel: Option<int>,
                           thirdPartyLoggersLevel: Option<int>, serviceName: Option<string>)
    ensures var r := MakeSettings(environment, loggingLevel, thirdPartyLoggersLevel, serviceName);
      var badL := loggingLevel.Some? && !IsNamedLevel(loggingLevel.value);
      var badT := thirdPartyLoggersLevel.Some? && !IsNamedLevel(thirdPartyLoggersLevel.value);
      r.Err? ==>
        r.error == (if badL then [FieldError(LoggingLevel, LevelError(ValidLevels, loggingLevel.value))] else [])
                   + (if badT then [FieldError(ThirdPartyLoggersLevel,
                                               LevelError(ValidLevels, thirdPartyLoggersLevel.value))] else [])
  {
    if loggingLevel.Some? { ValidatorAcceptsNamedLevels(loggingLevel.value); }
    if thirdPartyLoggersLevel.Some? { ValidatorAcceptsNamedLevels(thirdPartyLoggersLevel.value); }
    var lv := LevelOrDefault(LoggingLevel, loggingLevel);
    var tp := LevelOrDefault(ThirdPartyLoggersLevel, thirdPartyLoggersLevel);
    assert Errors([tp]) == (if tp.Err? then [tp.error] else []) + Errors([]);
    assert Errors([lv, tp]) == (if lv.Err? then [lv.error] else []) + Errors([tp]);
  }

  /** With nothing supplied, every field takes its documented default. */
  lemma DefaultsWhenUnset()
    ensures MakeSettings(None, None, None, None)
            == Ok(ServiceSettings(DefaultEnvironment, Info, Info, DefaultServiceName))
  {
  }
}
