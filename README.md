# alx-backend: preference selectors and pagination arithmetic, in Dafny

This project models the two pieces of decision logic in the alx-backend
exercises.

- **The request preference selectors of the i18n apps.** Three versions of
  the Flask-Babel locale selector (`get_locale` in `4-app.py`, `5-app.py` and
  `7-app.py`), the timezone selector (`get_timezone` in `7-app.py`) and the
  two mock logins (`get_user` in `5-app.py` and `7-app.py`). Each is a pure
  function over an explicit request value:
  - the `locale`, `timezone` and `login_as` query values, each `Option<string>`;
  - the client's Accept-Language ranking;
  - the current user, `Option<User>`;
  - the `Config` values, kept as a `Config` datatype, with `AppConfig` holding
    the source's `["en", "fr"]`, `"en"` and `"UTC"`;
  - the mock `users` table, kept as the constant map `Users`.
- **The pagination helper** `index_range`. It is integer arithmetic on
  unbounded integers, as in Python.

The selectors depend on three library calls whose code is not part of this
model. Each one is passed in as a function-valued parameter:

- `bestMatch: Negotiator` stands for `request.accept_languages.best_match`.
  This is Accept-Language negotiation, section 12.5.4 of RFC 9110. Its only
  promise, the predicate `Negotiates`, is that a chosen value is one of the
  candidates.
- `isValidTz: string -> bool` stands for `pytz.timezone` not raising
  `UnknownTimeZoneError`.
- `parseInt: string -> Option<int>` stands for Python's `int()` on a string.
  `None` means it raises `ValueError`. The predicate `ParsesLikeInt` records
  that `int("")` raises.

`Preferences.FirstAccepted` is an independent reference definition of a
priority cascade: it picks the first candidate that passes a test. Every
selector is proved equal to a `FirstAccepted` over its candidates in its own
order, followed by its fallback.

Three behaviours of the code worth knowing:

- The locale selectors can return `None`, when the negotiation finds nothing.
  Falling back to `BABEL_DEFAULT_LOCALE` is done by Flask-Babel, not by this
  code.
- `5-app.py` consults the user's locale before the `locale` parameter,
  whatever its docstring says. `Variants.App5DiffersFromApp7Iff` states
  exactly when that makes a difference.
- In `7-app.py`, a non-numeric `login_as` makes `int()` raise, and nothing
  catches it. `App7.GetUser` returns `Failure(InvalidLiteral(text))`. Only
  `5-app.py` turns a malformed id into "no user".

## Model

| member | source | states |
|---|---|---|
| `Preferences.FirstAccepted` | 0x02-i18n/7-app.py:53-71 | The result is a candidate the test accepts. It is `None` only if no candidate is accepted. When one is, it is the first accepted candidate. |
| `Preferences.LookupUser` | 0x02-i18n/7-app.py:20-31 | `users.get(id)` finds a user exactly when the id is a key of the table, and the user found is `users[id]`. |
| `App4.GetLocale` | 0x02-i18n/4-app.py:36-39 | A supported `locale` parameter is returned unchanged. Otherwise the result is `best_match(LANGUAGES)`. |
| `App4.GetLocaleIsCascade` | 0x02-i18n/4-app.py:36-39 | The selector is the one-step cascade over the `locale` parameter, with negotiation as the fallback. |
| `App4.LocaleIsSupportedOrNone` | 0x02-i18n/4-app.py:36-39 | If the negotiation keeps its promise, the result is a member of `LANGUAGES` or `None`. It is never another string. |
| `App4.DependsOnlyOnLocaleAndHeader` | 0x02-i18n/4-app.py:29-39 | Two requests that agree on the `locale` parameter and the Accept-Language ranking get the same locale. |
| `App5.GetUser` | 0x02-i18n/5-app.py:41-45 | It never raises. An absent `login_as` (TypeError) gives no user, and so does one `int()` rejects (ValueError). A parsed id gives `users.get(id)`: the record `users[id]` when the id is a key, no user otherwise. |
| `App5.GetLocale` | 0x02-i18n/5-app.py:65-70 | A supported user locale wins over everything else. Any other result is either a supported locale or the negotiation's result. |
| `App5.GetLocaleIsCascade` | 0x02-i18n/5-app.py:65-70 | The selector is the cascade user locale, then parameter, then negotiation. |
| `App5.ParameterWhenUserLocaleUnsupported` | 0x02-i18n/5-app.py:65-69 | With no user, or a user whose locale is `None` or unsupported, a supported `locale` parameter is returned. |
| `App5.NegotiatedOtherwise` | 0x02-i18n/5-app.py:65-70 | When neither the user nor the parameter names a supported locale, the result is `best_match(LANGUAGES)`. |
| `App5.LocaleIsSupportedOrNone` | 0x02-i18n/5-app.py:65-70 | If the negotiation keeps its promise, the result is a member of `LANGUAGES` or `None`. |
| `App5.MalformedLoginIsAnonymous` | 0x02-i18n/5-app.py:41-45 | A `login_as` that `int()` rejects gives the same locale as no `login_as` at all. |
| `App5.UserBeatsParameterExample` | 0x02-i18n/5-app.py:65-66 | `login_as=1` (Balou, "fr") together with `locale=en` gives "fr". |
| `App5.UnsupportedUserLocaleExample` | 0x02-i18n/5-app.py:14-69 | Users 3 ("kg") and 4 (`None`) together with `locale=fr` give "fr". |
| `App7.GetUser` | 0x02-i18n/7-app.py:28-32 | An absent or empty `login_as` gives no user. The lookup fails with the ValueError exactly when `login_as` is non-empty and `int()` rejects it. A non-empty `login_as` that parses gives `users.get(id)`: `users[id]` when the id is a key, no user otherwise. |
| `App7.GetLocale` | 0x02-i18n/7-app.py:41-49 | A supported `locale` parameter wins over everything else. Any other result is either a supported locale or the negotiation's result. |
| `App7.GetTimezone` | 0x02-i18n/7-app.py:53-71 | The result is the default or a non-empty string that passed validation. A usable `timezone` parameter is returned unchanged and takes priority. |
| `App7.GetLocaleIsCascade` | 0x02-i18n/7-app.py:41-49 | The selector is the cascade parameter, then user locale, then negotiation. |
| `App7.GetTimezoneIsCascade` | 0x02-i18n/7-app.py:53-71 | The selector is the cascade parameter, then user timezone, each validated on its own, then `BABEL_DEFAULT_TIMEZONE`. |
| `App7.ParameterBeatsUserAndHeader` | 0x02-i18n/7-app.py:42-44 | A supported `locale` parameter is returned whatever the user record and the Accept-Language ranking are. |
| `App7.UserLocaleWhenNoParameter` | 0x02-i18n/7-app.py:46-47 | If the parameter is absent or unsupported and the user's locale is supported, the user's locale is returned. |
| `App7.NegotiatedOtherwise` | 0x02-i18n/7-app.py:42-49 | When neither the parameter nor the user names a supported locale, the result is `best_match(LANGUAGES)`. |
| `App7.LocaleIsSupportedOrNone` | 0x02-i18n/7-app.py:42-49 | If the negotiation keeps its promise, the result is a member of `LANGUAGES` or `None`. |
| `App7.UnusableParameterSkipped` | 0x02-i18n/7-app.py:55-68 | An empty, absent or unknown `timezone` parameter is skipped without error. The user's timezone is then returned if it exists, is non-empty and validates. Otherwise the default is returned. |
| `App7.DefaultTimezoneOtherwise` | 0x02-i18n/7-app.py:63-71 | If neither candidate validates, the result is `BABEL_DEFAULT_TIMEZONE`, and it is not re-validated. |
| `App7.SpockExample` | 0x02-i18n/7-app.py:23-71 | `login_as=3` with no other query values finds Spock. The locale is then the negotiated one and, since "Vulcan" is unknown, the timezone is "UTC". |
| `App7.InvalidParameterFallsToUserExample` | 0x02-i18n/7-app.py:56-66 | An unknown `timezone` parameter falls through to Balou's valid "Europe/Paris". |
| `App7.NonNumericLoginFailsExample` | 0x02-i18n/7-app.py:29-31 | `login_as=abc` makes the lookup fail with the uncaught ValueError. |
| `Variants.App4IsApp7WithoutUser` | 0x02-i18n/4-app.py:36-39 | The 4-app selector equals the 7-app selector on a request with no user. |
| `Variants.App5DiffersFromApp7Iff` | 0x02-i18n/5-app.py:65-70 | The 5-app and 7-app selectors disagree if and only if the parameter and the user's locale are both supported and differ. |
| `Variants.GetUserVariantsAgree` | 0x02-i18n/5-app.py:41-45 | Whenever the 7-app lookup does not raise, both lookups return the same user. Where it raises, the 5-app lookup returns no user. |
| `Pagination.IndexRange` | 0x00-pagination/0-simple_helper_function.py:23-25 | The width `end - start` is exactly the page size. Page 1 is `(0, page_size)`. For `page >= 1` and `page_size >= 0`, `0 <= start <= end`. |
| `Pagination.StartIsItemsBefore` | 0x00-pagination/0-simple_helper_function.py:23-24 | For a 1-indexed page, `start` is the number of items on the pages before it (by repeated addition), and `end` adds one page more. |
| `Pagination.Contiguous` | 0x00-pagination/0-simple_helper_function.py:23-24 | The start of page `p + 1` is the end of page `p`. |
| `Pagination.LaterPagesStartAfter` | 0x00-pagination/0-simple_helper_function.py:23-24 | For a non-negative page size, a page ends no later than any later page starts. |
| `Pagination.PagesDisjoint` | 0x00-pagination/0-simple_helper_function.py:23-24 | For a non-negative page size, no index lies on two different pages. |
| `Pagination.IndexOnItsPage` | 0x00-pagination/0-simple_helper_function.py:13-24 | For a positive page size, index `i` lies on page `i / page_size + 1`. |
| `Pagination.PagesCover` | 0x00-pagination/0-simple_helper_function.py:13-24 | Pages `1..n` together cover exactly the indexes `[0, n * page_size)`. |

## Left out

- Flask application setup, route handlers, `render_template` and `app.run` are not modelled. They are HTTP and template plumbing.
- The `before_request` hook that stores the looked-up user in `g.user` is not modelled. The selectors take the user as an explicit parameter instead.
- `App7.GetUser`: the model does not capture what happens after the lookup fails. The uncaught ValueError escapes the request hook, and Flask then answers with an error page.
- The internals of `accept_languages.best_match`, that is, quality parsing and tag matching, are not modelled. They belong to the werkzeug library, so only its "result is a candidate or `None`" promise is used.
- The pytz timezone database is not modelled. Validity is an abstract predicate. pytz also looks up names without regard to case, and the selector returns the caller's spelling unchanged. Both are covered only because the predicate is abstract.
- The details of Python's `int()` are not modelled: surrounding whitespace, signs, `_` separators and Unicode digits. The parser is an abstract parameter.
- `BABEL_DEFAULT_LOCALE` is carried in `Config` but is never read. Using it when the selector returns `None` is Flask-Babel's behaviour, not this code's.
- The `gettext`/`_` lookups in `index()` are not modelled. They are translation lookups with no decision logic.
- `0x02-i18n/3-app.py`, `0-app.py` and `1-app.py` are not part of this model. The first only forwards to `best_match`, and the other two hold only route boilerplate.
- The pagination lemmas about disjoint and covering pages assume a non-negative page size. `index_range` itself is total, and its width and contiguity properties hold for every integer input.
