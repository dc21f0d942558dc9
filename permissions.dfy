/**
 * Who may view, create, update or delete a website. Each rule is an
 * early-return chain over the caller's user and share token and the website
 * record that getWebsite looks up, which is passed in (None when it does not
 * exist). Reading a property of an absent user throws a TypeError, modelled as
 * `Err`.
 */
module Permissions {
  import opened Wrappers

  datatype User = User(id: string, isAdmin: bool, role: string)

  /** A share token grants access to the website whose id it carries. */
  datatype ShareToken = ShareToken(websiteId: Option<string>)

  /** The caller: a signed-in user, a share token, both or neither. */
  datatype Auth = Auth(user: Option<User>, shareToken: Option<ShareToken>)

  /** The looked-up website; `userId` is its owner, absent for a team website. */
  datatype Website = Website(userId: Option<string>)

  const TypeError: string := "TypeError"

  /** `user?.isAdmin`. */
  predicate IsAdmin(auth: Auth) {
    auth.user.Some? && auth.user.value.isAdmin
  }

  /** `shareToken?.websiteId === websiteId`. */
  predicate SharesWebsite(auth: Auth, websiteId: string) {
    auth.shareToken.Some? && auth.shareToken.value.websiteId == Some(websiteId)
  }

  /** `website.userId` is truthy. */
  predicate Owned(w: Website) {
    w.userId.Some? && w.userId.value != ""
  }

  /** The signed-in user owns the website. */
  predicate IsOwner(auth: Auth, w: Website) {
    Owned(w) && auth.user.Some? && auth.user.value.id == w.userId.value
  }

  /** The ownership test both rules end with, after the user was found not to be an admin. */
  function OwnerCheck(auth: Auth, website: Option<Website>): (r: Result<bool>)
    ensures r == Ok(true) <==> website.Some? && IsOwner(auth, website.value)
    ensures r.Err? <==> website.Some? && Owned(website.value) && auth.user.None?
  {
    if website.None? then Ok(false)
    else if Owned(website.value) then
      if auth.user.Some? then Ok(auth.user.value.id == website.value.userId.value) else Err(TypeError)
    else Ok(false)
  }

  /** canViewWebsite. */
  function CanViewWebsite(auth: Auth, websiteId: string, website: Option<Website>): (r: Result<bool>)
    ensures r == Ok(true) <==>
      IsAdmin(auth) || SharesWebsite(auth, websiteId) || (website.Some? && IsOwner(auth, website.value))
    ensures r.Err? <==>
      !SharesWebsite(auth, websiteId) && auth.user.None? && website.Some? && Owned(website.value)
  {
    if IsAdmin(auth) then Ok(true)
    else if SharesWebsite(auth, websiteId) then Ok(true)
    else OwnerCheck(auth, website)
  }

  /** canViewAllWebsites: `user.isAdmin`. */
  function CanViewAllWebsites(auth: Auth): (r: Result<bool>)
    ensures r.Ok? <==> auth.user.Some?
    ensures r == Ok(true) <==> IsAdmin(auth)
  {
    if auth.user.Some? then Ok(auth.user.value.isAdmin) else Err(TypeError)
  }

  /**
   * canCreateWebsite; `hasPermission` and the websiteCreate permission name
   * are not part of this model and are passed in.
   */
  function CanCreateWebsite(auth: Auth, hasPermission: (string, string) -> bool, websiteCreate: string): (r: Result<bool>)
    ensures r.Ok? <==> auth.user.Some?
    ensures r == Ok(true) <==> IsAdmin(auth) || (auth.user.Some? && hasPermission(auth.user.value.role, websiteCreate))
  {
    if auth.user.None? then Err(TypeError)
    else if auth.user.value.isAdmin then Ok(true)
    else Ok(hasPermission(auth.user.value.role, websiteCreate))
  }

  /** canUpdateWebsite: the view rule without the share-token path, on a user that must exist. */
  function CanUpdateWebsite(auth: Auth, websiteId: string, website: Option<Website>): (r: Result<bool>)
    ensures r == Ok(true) <==> IsAdmin(auth) || (website.Some? && IsOwner(auth, website.value))
    ensures auth.user.None? ==> r.Err?
  {
    if auth.user.None? then Err(TypeError)
    else if auth.user.value.isAdmin then Ok(true)
    else OwnerCheck(auth, website)
  }

  /** canDeleteWebsite: the same chain as canUpdateWebsite. */
  function CanDeleteWebsite(auth: Auth, websiteId: string, website: Option<Website>): (r: Result<bool>)
    ensures r == Ok(true) <==> IsAdmin(auth) || (website.Some? && IsOwner(auth, website.value))
    ensures auth.user.None? ==> r.Err?
  {
    if auth.user.None? then Err(TypeError)
    else if auth.user.value.isAdmin then Ok(true)
    else OwnerCheck(auth, website)
  }

  /** A share token never grants update or delete: the result does not depend on it. */
  lemma ShareTokenIgnoredForChanges(auth: Auth, token: Option<ShareToken>, websiteId: string, website: Option<Website>)
    ensures CanUpdateWebsite(auth.(shareToken := token), websiteId, website) == CanUpdateWebsite(auth, websiteId, website)
    ensures CanDeleteWebsite(auth.(shareToken := token), websiteId, website) == CanDeleteWebsite(auth, websiteId, website)
    ensures auth.user.None? ==> (CanUpdateWebsite(auth, websiteId, website) != Ok(true) &&
      CanDeleteWebsite(auth, websiteId, website) != Ok(true))
  {
  }

  /** Whoever may update or delete a website may also view it. */
  lemma ChangeImpliesView(auth: Auth, websiteId: string, website: Option<Website>)
    ensures CanUpdateWebsite(auth, websiteId, website) == Ok(true) ==> CanViewWebsite(auth, websiteId, website) == Ok(true)
    ensures CanDeleteWebsite(auth, websiteId, website) == CanUpdateWebsite(auth, websiteId, website)
  {
  }

  /**
   * For a signed-in user without a matching share token, view, update and
   * delete agree; an admin is allowed whatever the lookup returns, a missing or
   * unowned website is refused.
   */
  lemma SameRuleForSignedInUsers(auth: Auth, websiteId: string, website: Option<Website>)
    requires auth.user.Some? && !SharesWebsite(auth, websiteId)
    ensures CanViewWebsite(auth, websiteId, website) == CanUpdateWebsite(auth, websiteId, website)
    ensures IsAdmin(auth) ==> CanViewWebsite(auth, websiteId, website) == Ok(true)
    ensures !IsAdmin(auth) && (website.None? || !Owned(website.value)) ==>
      CanViewWebsite(auth, websiteId, website) == Ok(false)
  {
  }
}
