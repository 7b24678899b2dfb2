/** The data shared by the locale and timezone selectors of the i18n apps:
    the request, the mock user directory, the configuration, and the
    library calls they rely on, which stay abstract. */
module Preferences {
  import opened Wrappers

  /** One entry of the client's Accept-Language header: a language range and
      its weight in thousandths (`q=0.8` is 800), as in section 12.4.2 of
      RFC 9110. */
  datatype LanguageRange = LanguageRange(tag: string, weight: nat)

  /** The query values a selector reads (`request.args.get(...)`, which is
      `None` when the key is missing) and the client's language ranking. */
  datatype QueryArgs = QueryArgs(locale: Option<string>, timezone: Option<string>, loginAs: Option<string>)
  datatype Request = Request(args: QueryArgs, acceptLanguages: seq<LanguageRange>)

  /** A record of the mock directory; `locale` and `timezone` may be `None`
      and are not checked when the record is stored. */
  datatype User = User(name: string, locale: Option<string>, timezone: Option<string>)

  /** The `Config` class: supported locales in declaration order, and the
      Babel defaults. */
  datatype Config = Config(languages: seq<string>, defaultLocale: string, defaultTimezone: string)

  const AppConfig: Config := Config(["en", "fr"], "en", "UTC")

  /** The mock `users` table, keyed by integer id. */
  const Users: map<int, User> := map[
    1 := User("Balou", Some("fr"), Some("Europe/Paris")),
    2 := User("Beyonce", Some("en"), Some("US/Central")),
    3 := User("Spock", Some("kg"), Some("Vulcan")),
    4 := User("Teletubby", None, Some("Europe/London"))
  ]

  /** `users.get(id)`. */
  function LookupUser(id: int): (u: Option<User>)
    ensures u.Some? <==> id in Users
    ensures u.Some? ==> u.value == Users[id]
  {
    if id in Users then Some(Users[id]) else None
  }

  /** `request.accept_languages.best_match(candidates)`: Accept-Language
      negotiation (section 12.5.4 of RFC 9110), left abstract. */
  type Negotiator = (seq<LanguageRange>, seq<string>) -> Option<string>

  /** The one promise of the negotiation: whatever it picks is a candidate. */
  ghost predicate Negotiates(bestMatch: Negotiator) {
    forall ranking, candidates ::
      bestMatch(ranking, candidates).Some? ==> bestMatch(ranking, candidates).value in candidates
  }

  /** Python's `int(s)` on a string: `None` where it raises ValueError.
      Python rejects the empty string. */
  ghost predicate ParsesLikeInt(parseInt: string -> Option<int>) {
    parseInt("") == None
  }

  /** `x in LANGUAGES` for a value that may be `None`. */
  predicate Supported(cfg: Config, locale: Option<string>) {
    locale.Some? && locale.value in cfg.languages
  }

  /** `g.user and g.user['locale']` */
  function UserLocale(user: Option<User>): (locale: Option<string>) {
    if user.Some? then user.value.locale else None
  }

  /** `g.user and g.user['timezone']` */
  function UserTimezone(user: Option<User>): (tz: Option<string>) {
    if user.Some? then user.value.timezone else None
  }

  /** A timezone candidate the selector keeps: present, non-empty, and one
      for which `pytz.timezone` does not raise UnknownTimeZoneError. */
  predicate UsableTimezone(tz: Option<string>, isValidTz: string -> bool) {
    tz.Some? && tz.value != "" && isValidTz(tz.value)
  }

  /** A candidate that is present and that `accept` keeps. */
  predicate Accepted(candidate: Option<string>, accept: string -> bool) {
    candidate.Some? && accept(candidate.value)
  }

  /** Position `i` holds the first accepted candidate. */
  predicate FirstAcceptedAt(candidates: seq<Option<string>>, i: int, accept: string -> bool) {
    && 0 <= i < |candidates|
    && Accepted(candidates[i], accept)
    && forall j :: 0 <= j < i ==> !Accepted(candidates[j], accept)
  }

  /** Reference definition of a priority cascade: scan the candidates from
      highest to lowest priority and keep the first one `accept` admits. */
  function FirstAccepted(candidates: seq<Option<string>>, accept: string -> bool): (r: Option<string>)
    ensures r.Some? ==> r in candidates && accept(r.value)
    ensures r.None? ==> forall i :: 0 <= i < |candidates| ==> !Accepted(candidates[i], accept)
    ensures forall i :: FirstAcceptedAt(candidates, i, accept) ==> r == candidates[i]
  {
    if |candidates| == 0 then None
    else if Accepted(candidates[0], accept) then candidates[0]
    else
      var rest := FirstAccepted(candidates[1..], accept);
      assert forall i :: FirstAcceptedAt(candidates, i, accept) ==> FirstAcceptedAt(candidates[1..], i - 1, accept);
      rest
  }

  /** The predicate `x in languages`, as a value. */
  function InLanguages(cfg: Config): (supported: string -> bool) {
    s => s in cfg.languages
  }

  /** The validity test of the timezone selector, as a value. */
  function ValidTimezone(isValidTz: string -> bool): (valid: string -> bool) {
    s => s != "" && isValidTz(s)
  }
}
