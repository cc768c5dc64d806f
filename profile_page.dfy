/**
 * The signed-in member's own profile page: redirect and loading rules, the
 * header, the two information cards and the "Complete Your Profile" prompt.
 */
module ProfilePage {
  import opened Wrappers
  import opened Text
  import opened Profiles
  import opened EditProfile

  datatype EffectAction =
    | RedirectToLanding          // `navigate('/')`
    | FetchOwnProfile(userId: string)
    | NoAction

  /** What the page shows once the session and the profile are loaded. */
  datatype PageContent = PageContent(
    initials: string,
    heading: string,
    headerEmail: Option<string>,
    physicalCondition: Option<string>,
    cardEmail: Option<string>,
    phoneNumber: Option<string>,
    gender: Option<string>,
    address: Option<string>,
    qualification: Option<string>,
    disabilitiesDisorders: Option<seq<string>>,
    completeProfilePrompt: bool)

  datatype ProfileView =
    | Spinner
    | Nothing
    | Page(content: PageContent)

  /** The effect: redirect a settled, signed-out visitor; fetch the caller's own row otherwise. */
  function Effect(loading: bool, user: Option<User>): (a: EffectAction)
    ensures a == RedirectToLanding <==> !loading && user.None?
    ensures a.FetchOwnProfile? <==> user.Some?
    ensures a.FetchOwnProfile? ==> a.userId == user.value.id
  {
    if !loading && user.None? then RedirectToLanding
    else if user.Some? then FetchOwnProfile(user.value.id)
    else NoAction
  }

  /** `getInitials` of this page: `'U'` for a missing or empty name. */
  function GetInitials(name: Option<string>): (r: string)
    ensures !Truthy(name) ==> r == "U"
    ensures Truthy(name) ==> r == Upper(WordStarts(name.value, true))
  {
    if Truthy(name) then InitialsOf(name.value) else "U"
  }

  /** `profile?.column`: `undefined` when there is no profile. */
  function Column(profile: Option<ProfileRow>, column: Field): (r: Option<string>)
    ensures profile.None? ==> r.None?
    ensures profile.Some? ==> r == ColumnOf(Editable(profile.value), column)
  {
    if profile.Some? then ColumnOf(Editable(profile.value), column) else None
  }

  /** `profile?.email || user.email`: the profile's email when set, else the account's. */
  function DisplayedEmail(profile: Option<ProfileRow>, user: User): (r: Option<string>)
    ensures profile.Some? && Truthy(profile.value.email) ==> r == profile.value.email
    ensures !(profile.Some? && Truthy(profile.value.email)) ==> r == user.email
  {
    var e := Column(profile, Email);
    if Truthy(e) then e else user.email
  }

  /** The tag section: shown for a present, non-empty list, every tag in order. */
  function TagSection(profile: Option<ProfileRow>): (r: Option<seq<string>>)
    ensures r.Some? <==> profile.Some? && profile.value.disabilitiesDisorders.Some? && profile.value.disabilitiesDisorders.value != []
    ensures r.Some? ==> r == profile.value.disabilitiesDisorders
  {
    match profile
    case None => None
    case Some(p) =>
      if p.disabilitiesDisorders.Some? && |p.disabilitiesDisorders.value| > 0 then p.disabilitiesDisorders else None
  }

  function Content(profile: Option<ProfileRow>, user: User): (c: PageContent)
    ensures c.initials == GetInitials(Column(profile, Name))
    ensures c.heading == OrElse(Column(profile, Name), "Welcome!")
    ensures c.headerEmail == c.cardEmail == DisplayedEmail(profile, user)
    ensures c.physicalCondition == RowIf(Column(profile, PhysicalCondition))
    ensures c.phoneNumber == RowIf(Column(profile, PhoneNumber))
    ensures c.gender == RowIf(Column(profile, Gender))
    ensures c.address == RowIf(Column(profile, Address))
    ensures c.qualification == RowIf(Column(profile, Qualification))
    ensures c.disabilitiesDisorders == TagSection(profile)
    ensures c.completeProfilePrompt <==> profile.None?
  {
    var email := DisplayedEmail(profile, user);
    PageContent(
      GetInitials(Column(profile, Name)),
      OrElse(Column(profile, Name), "Welcome!"),
      email,
      RowIf(Column(profile, PhysicalCondition)),
      email,
      RowIf(Column(profile, PhoneNumber)),
      RowIf(Column(profile, Gender)),
      RowIf(Column(profile, Address)),
      RowIf(Column(profile, Qualification)),
      TagSection(profile),
      profile.None?)
  }

  /** The rendered page: a spinner while loading, nothing without a user, else the content. */
  function View(loading: bool, user: Option<User>, profileLoading: bool, profile: Option<ProfileRow>): (v: ProfileView)
    ensures v == Spinner <==> loading || profileLoading
    ensures v == Nothing <==> !loading && !profileLoading && user.None?
    ensures v.Page? ==> user.Some? && v.content == Content(profile, user.value)
  {
    if loading || profileLoading then Spinner
    else if user.None? then Nothing
    else Page(Content(profile, user.value))
  }

  /** A visitor who is being redirected never sees the page content. */
  lemma RedirectShowsNoContent(loading: bool, user: Option<User>, profileLoading: bool, profile: Option<ProfileRow>)
    requires Effect(loading, user) == RedirectToLanding
    ensures !View(loading, user, profileLoading, profile).Page?
  {
  }

  /** The heading is never empty: a missing or empty name shows `Welcome!`. */
  lemma HeadingNeverEmpty(profile: Option<ProfileRow>, user: User)
    ensures Content(profile, user).heading != ""
  {
  }

  /**
   * The page passes its profile to the editor as `currentProfile`, so the
   * "Complete Your Profile" prompt is shown exactly when saving the editor
   * inserts a new row instead of updating the stored one.
   */
  lemma PromptIffEditorInserts(profile: Option<ProfileRow>, user: User, form: FormData)
    ensures Content(profile, user).completeProfilePrompt <==>
            SaveRequestFor(form, Some(user), profile).value.Insert?
  {
  }
}
