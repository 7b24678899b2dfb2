/** `0x02-i18n/4-app.py`: the locale selector that honours a `locale` query
    value and otherwise negotiates with the Accept-Language header. */
module App4 {
  import opened Wrappers
  import opened Preferences

  /** `get_locale`: a supported `locale` parameter, else `best_match(LANGUAGES)`. */
  function GetLocale(cfg: Config, req: Request, bestMatch: Negotiator): (r: Option<string>)
    ensures Supported(cfg, req.args.locale) ==> r == req.args.locale
    ensures !Supported(cfg, req.args.locale) ==> r == bestMatch(req.acceptLanguages, cfg.languages)
  {
    if Supported(cfg, req.args.locale) then req.args.locale
    else bestMatch(req.acceptLanguages, cfg.languages)
  }

  /** The selector is the one-step cascade over the `locale` parameter, with
      negotiation as the fallback. */
  lemma GetLocaleIsCascade(cfg: Config, req: Request, bestMatch: Negotiator)
    ensures GetLocale(cfg, req, bestMatch)
         == FirstAccepted([req.args.locale], InLanguages(cfg)).OrElse(bestMatch(req.acceptLanguages, cfg.languages))
  {
  }

  /** Whatever happens, the result is a supported locale or the
      negotiation's `None`: never any other string. */
  lemma LocaleIsSupportedOrNone(cfg: Config, req: Request, bestMatch: Negotiator)
    requires Negotiates(bestMatch)
    ensures var r := GetLocale(cfg, req, bestMatch); r.None? || r.value in cfg.languages
  {
  }

  /** Only the `locale` parameter and the Accept-Language ranking matter:
      the other query values have no effect. */
  lemma DependsOnlyOnLocaleAndHeader(cfg: Config, req1: Request, req2: Request, bestMatch: Negotiator)
    requires req1.args.locale == req2.args.locale
    requires req1.acceptLanguages == req2.acceptLanguages
    ensures GetLocale(cfg, req1, bestMatch) == GetLocale(cfg, req2, bestMatch)
  {
  }
}
