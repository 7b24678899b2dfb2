/** How the three versions of the selectors relate to one another. */
module Variants {
  import opened Wrappers
  import opened Preferences
  import App4
  import App5
  import App7

  /** The 4-app selector is the 7-app selector for a request without a user. */
  lemma App4IsApp7WithoutUser(cfg: Config, req: Request, bestMatch: Negotiator)
    ensures App4.GetLocale(cfg, req, bestMatch) == App7.GetLocale(cfg, req, None, bestMatch)
  {
  }

  /** The 5-app and 7-app selectors disagree exactly when the `locale`
      parameter and the user's locale are both supported and differ: only
      then does the swapped precedence show. */
  lemma App5DiffersFromApp7Iff(cfg: Config, req: Request, user: Option<User>, bestMatch: Negotiator)
    ensures App5.GetLocale(cfg, req, user, bestMatch) != App7.GetLocale(cfg, req, user, bestMatch)
        <==> Supported(cfg, req.args.locale) && Supported(cfg, UserLocale(user))
             && req.args.locale != UserLocale(user)
  {
  }

  /** The two user lookups agree whenever the 7-app one does not raise, and
      where it raises the 5-app one gives no user. */
  lemma GetUserVariantsAgree(req: Request, parseInt: string -> Option<int>)
    requires ParsesLikeInt(parseInt)
    ensures App7.GetUser(req, parseInt).Success? ==>
              App5.GetUser(req, parseInt) == App7.GetUser(req, parseInt).value
    ensures App7.GetUser(req, parseInt).Failure? ==> App5.GetUser(req, parseInt).None?
  {
  }
}
