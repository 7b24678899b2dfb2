/** `0x02-i18n/7-app.py`: mock login through `login_as`, a locale selector
    that puts the `locale` parameter first, and a timezone selector. */
module App7 {
  import opened Wrappers
  import opened Preferences

  /** The ValueError `int()` raises on a non-numeric `login_as`; this
      variant does not catch it, so it escapes the request hook. */
  datatype LookupError = InvalidLiteral(text: string)

  /** `get_user`: no user for an absent or empty `login_as`, otherwise
      `users.get(int(login_as))`, with `int()` free to raise. */
  function GetUser(req: Request, parseInt: string -> Option<int>): (r: Result<Option<User>, LookupError>)
    ensures req.args.loginAs.None? || req.args.loginAs == Some("") ==> r == Success(None)
    ensures r.Failure? <==>
              req.args.loginAs.Some? && req.args.loginAs.value != "" && parseInt(req.args.loginAs.value).None?
    ensures r.Failure? ==> r.error == InvalidLiteral(req.args.loginAs.value)
    ensures r.Success? && r.value.Some? ==> r.value.value in Users.Values
    ensures req.args.loginAs.Some? && req.args.loginAs.value != "" && parseInt(req.args.loginAs.value).Some? ==>
              r == Success(LookupUser(parseInt(req.args.loginAs.value).value))
  {
    match req.args.loginAs
    case None => Success(None)
    case Some(text) =>
      if text == "" then Success(None)
      else
        match parseInt(text)
        case None => Failure(InvalidLiteral(text))
        case Some(id) => Success(LookupUser(id))
  }

  /** `get_locale`: a supported `locale` parameter, else the user's locale
      if supported, else `best_match(LANGUAGES)`. */
  function GetLocale(cfg: Config, req: Request, user: Option<User>, bestMatch: Negotiator): (r: Option<string>)
    ensures Supported(cfg, req.args.locale) ==> r == req.args.locale
    ensures Supported(cfg, r) || r == bestMatch(req.acceptLanguages, cfg.languages)
  {
    if Supported(cfg, req.args.locale) then req.args.locale
    else if Supported(cfg, UserLocale(user)) then UserLocale(user)
    else bestMatch(req.acceptLanguages, cfg.languages)
  }

  /** `get_timezone`: a usable `timezone` parameter, else the user's usable
      timezone, else the configured default, which is not re-validated. */
  function GetTimezone(cfg: Config, req: Request, user: Option<User>, isValidTz: string -> bool): (tz: string)
    ensures tz == cfg.defaultTimezone || (tz != "" && isValidTz(tz))
    ensures UsableTimezone(req.args.timezone, isValidTz) ==> tz == req.args.timezone.value
  {
    if UsableTimezone(req.args.timezone, isValidTz) then req.args.timezone.value
    else if UsableTimezone(UserTimezone(user), isValidTz) then UserTimezone(user).value
    else cfg.defaultTimezone
  }

  /** The locale selector is the cascade parameter, then user, then negotiation. */
  lemma GetLocaleIsCascade(cfg: Config, req: Request, user: Option<User>, bestMatch: Negotiator)
    ensures GetLocale(cfg, req, user, bestMatch)
         == FirstAccepted([req.args.locale, UserLocale(user)], InLanguages(cfg))
              .OrElse(bestMatch(req.acceptLanguages, cfg.languages))
  {
  }

  /** The timezone selector is the cascade parameter, then user, then default. */
  lemma GetTimezoneIsCascade(cfg: Config, req: Request, user: Option<User>, isValidTz: string -> bool)
    ensures GetTimezone(cfg, req, user, isValidTz)
         == FirstAccepted([req.args.timezone, UserTimezone(user)], ValidTimezone(isValidTz))
              .GetOr(cfg.defaultTimezone)
  {
  }

  /** A supported `locale` parameter wins whatever the user and the header say. */
  lemma ParameterBeatsUserAndHeader(cfg: Config, req: Request, user1: Option<User>, user2: Option<User>,
                                    ranking: seq<LanguageRange>, bestMatch: Negotiator)
    requires Supported(cfg, req.args.locale)
    ensures GetLocale(cfg, req, user1, bestMatch)
         == GetLocale(cfg, req.(acceptLanguages := ranking), user2, bestMatch)
         == req.args.locale
  {
  }

  /** With the parameter absent or unsupported, a supported user locale is
      returned, whatever the header says. */
  lemma UserLocaleWhenNoParameter(cfg: Config, req: Request, user: Option<User>, bestMatch: Negotiator)
    requires !Supported(cfg, req.args.locale)
    requires Supported(cfg, UserLocale(user))
    ensures GetLocale(cfg, req, user, bestMatch) == UserLocale(user)
  {
  }

  /** When neither the parameter nor the user names a supported locale, the
      result is the negotiation's. */
  lemma NegotiatedOtherwise(cfg: Config, req: Request, user: Option<User>, bestMatch: Negotiator)
    requires !Supported(cfg, req.args.locale)
    requires !Supported(cfg, UserLocale(user))
    ensures GetLocale(cfg, req, user, bestMatch) == bestMatch(req.acceptLanguages, cfg.languages)
  {
  }

  /** The result is always a supported locale or the negotiation's `None`. */
  lemma LocaleIsSupportedOrNone(cfg: Config, req: Request, user: Option<User>, bestMatch: Negotiator)
    requires Negotiates(bestMatch)
    ensures var r := GetLocale(cfg, req, user, bestMatch); r.None? || r.value in cfg.languages
  {
  }

  /** An empty or unknown `timezone` parameter is skipped: the user's
      usable timezone is returned, or else the default. */
  lemma UnusableParameterSkipped(cfg: Config, req: Request, user: Option<User>, isValidTz: string -> bool)
    requires !UsableTimezone(req.args.timezone, isValidTz)
    ensures GetTimezone(cfg, req, user, isValidTz)
         == if UsableTimezone(UserTimezone(user), isValidTz) then UserTimezone(user).value else cfg.defaultTimezone
  {
  }

  /** With no user, or a user without a usable timezone, and no usable
      parameter, the result is the default. */
  lemma DefaultTimezoneOtherwise(cfg: Config, req: Request, user: Option<User>, isValidTz: string -> bool)
    requires !UsableTimezone(req.args.timezone, isValidTz)
    requires !UsableTimezone(UserTimezone(user), isValidTz)
    ensures GetTimezone(cfg, req, user, isValidTz) == cfg.defaultTimezone
  {
  }

  /** Spock (user 3: locale "kg", timezone "Vulcan") with no query values:
      the locale comes from negotiation and, "Vulcan" being unknown, the
      timezone is "UTC". */
  lemma SpockExample(req: Request, parseInt: string -> Option<int>, bestMatch: Negotiator, isValidTz: string -> bool)
    requires req.args == QueryArgs(None, None, Some("3")) && parseInt("3") == Some(3)
    requires !isValidTz("Vulcan")
    ensures GetUser(req, parseInt) == Success(Some(Users[3]))
    ensures GetLocale(AppConfig, req, Some(Users[3]), bestMatch) == bestMatch(req.acceptLanguages, ["en", "fr"])
    ensures GetTimezone(AppConfig, req, Some(Users[3]), isValidTz) == "UTC"
  {
  }

  /** An unknown `timezone` parameter falls through to Balou's (user 1)
      valid "Europe/Paris". */
  lemma InvalidParameterFallsToUserExample(req: Request, isValidTz: string -> bool)
    requires req.args.timezone == Some("Not/AZone") && !isValidTz("Not/AZone")
    requires isValidTz("Europe/Paris")
    ensures GetTimezone(AppConfig, req, LookupUser(1), isValidTz) == "Europe/Paris"
  {
  }

  /** A non-numeric `login_as` is not caught: the lookup fails. */
  lemma NonNumericLoginFailsExample(req: Request, parseInt: string -> Option<int>)
    requires req.args.loginAs == Some("abc") && parseInt("abc").None?
    ensures GetUser(req, parseInt) == Failure(InvalidLiteral("abc"))
  {
  }
}
