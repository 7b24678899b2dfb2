/** `0x02-i18n/5-app.py`: mock login through `login_as`, and a locale
    selector that puts the user's preference first. */
module App5 {
  import opened Wrappers
  import opened Preferences

  /** `get_user`: `users.get(int(login_as))`, where the TypeError of a
      missing `login_as` and the ValueError of a malformed one are both
      caught and give no user. */
  function GetUser(req: Request, parseInt: string -> Option<int>): (r: Option<User>)
    ensures r.Some? ==> r.value in Users.Values
    ensures req.args.loginAs.None? ==> r.None?
    ensures req.args.loginAs.Some? && parseInt(req.args.loginAs.value).None? ==> r.None?
    ensures req.args.loginAs.Some? && parseInt(req.args.loginAs.value).Some? ==>
              (r.Some? <==> parseInt(req.args.loginAs.value).value in Users)
    ensures req.args.loginAs.Some? && parseInt(req.args.loginAs.value).Some? ==>
              r == LookupUser(parseInt(req.args.loginAs.value).value)
  {
    match req.args.loginAs
    case None => None
    case Some(text) =>
      match parseInt(text)
      case None => None
      case Some(id) => LookupUser(id)
  }

  /** `get_locale`: the user's locale if supported, else a supported
      `locale` parameter, else `best_match(LANGUAGES)`. */
  function GetLocale(cfg: Config, req: Request, user: Option<User>, bestMatch: Negotiator): (r: Option<string>)
    ensures Supported(cfg, UserLocale(user)) ==> r == UserLocale(user)
    ensures Supported(cfg, r) || r == bestMatch(req.acceptLanguages, cfg.languages)
  {
    if Supported(cfg, UserLocale(user)) then UserLocale(user)
    else if Supported(cfg, req.args.locale) then req.args.locale
    else bestMatch(req.acceptLanguages, cfg.languages)
  }

  /** The selector is the cascade user, then parameter, then negotiation. */
  lemma GetLocaleIsCascade(cfg: Config, req: Request, user: Option<User>, bestMatch: Negotiator)
    ensures GetLocale(cfg, req, user, bestMatch)
         == FirstAccepted([UserLocale(user), req.args.locale], InLanguages(cfg))
              .OrElse(bestMatch(req.acceptLanguages, cfg.languages))
  {
  }

  /** With no user, or one whose locale is missing or unsupported, a
      supported `locale` parameter is returned. */
  lemma ParameterWhenUserLocaleUnsupported(cfg: Config, req: Request, user: Option<User>, bestMatch: Negotiator)
    requires !Supported(cfg, UserLocale(user))
    requires Supported(cfg, req.args.locale)
    ensures GetLocale(cfg, req, user, bestMatch) == req.args.locale
  {
  }

  /** When neither the user nor the parameter names a supported locale, the
      result is the negotiation's. */
  lemma NegotiatedOtherwise(cfg: Config, req: Request, user: Option<User>, bestMatch: Negotiator)
    requires !Supported(cfg, UserLocale(user))
    requires !Supported(cfg, req.args.locale)
    ensures GetLocale(cfg, req, user, bestMatch) == bestMatch(req.acceptLanguages, cfg.languages)
  {
  }

  /** The result is always a supported locale or the negotiation's `None`. */
  lemma LocaleIsSupportedOrNone(cfg: Config, req: Request, user: Option<User>, bestMatch: Negotiator)
    requires Negotiates(bestMatch)
    ensures var r := GetLocale(cfg, req, user, bestMatch); r.None? || r.value in cfg.languages
  {
  }

  /** A `login_as` that `int()` rejects gives the same locale as no
      `login_as` at all. */
  lemma MalformedLoginIsAnonymous(cfg: Config, malformed: Request, absent: Request,
                                  parseInt: string -> Option<int>, bestMatch: Negotiator)
    requires malformed.args.loginAs.Some? && parseInt(malformed.args.loginAs.value).None?
    requires absent == malformed.(args := malformed.args.(loginAs := None))
    ensures GetLocale(cfg, malformed, GetUser(malformed, parseInt), bestMatch)
         == GetLocale(cfg, absent, GetUser(absent, parseInt), bestMatch)
  {
  }

  /** Balou (user 1, locale "fr") gets French even when asking for `locale=en`. */
  lemma UserBeatsParameterExample(req: Request, parseInt: string -> Option<int>, bestMatch: Negotiator)
    requires req.args.loginAs == Some("1") && parseInt("1") == Some(1)
    requires req.args.locale == Some("en")
    ensures GetLocale(AppConfig, req, GetUser(req, parseInt), bestMatch) == Some("fr")
  {
  }

  /** Spock (user 3, locale "kg") and Teletubby (user 4, no locale) fall
      back to the `locale` parameter. */
  lemma UnsupportedUserLocaleExample(req: Request, id: int, bestMatch: Negotiator)
    requires id == 3 || id == 4
    requires req.args.locale == Some("fr")
    ensures GetLocale(AppConfig, req, LookupUser(id), bestMatch) == Some("fr")
  {
  }
}
