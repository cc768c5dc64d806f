/**
 * The community directory page: which view it shows, when it redirects, and what
 * each member card displays.
 */
module Home {
  import opened Wrappers
  import opened Text
  import opened Profiles

  /** What the page's effect does on `[user, loading]`. */
  datatype EffectAction =
    | RedirectToLanding          // `navigate('/')`
    | FetchProfiles(excludeUserId: string)
    | NoAction

  /** The support-needs badges of a card: the first tags, then a `+N` badge for the rest. */
  datatype TagBadges = TagBadges(shown: seq<string>, overflow: Option<nat>)

  /** Everything a member card shows. `None` in an optional row means the row is not rendered. */
  datatype ProfileCard = ProfileCard(
    avatarSrc: string,
    initials: string,
    displayName: string,
    usernameBadge: string,
    idLine: string,
    physicalCondition: Option<string>,
    gender: Option<string>,
    address: Option<string>,
    qualification: Option<string>,
    phoneNumber: Option<string>,
    supportNeeds: Option<TagBadges>)

  datatype HomeView =
    | Spinner
    | Nothing
    | NoProfilesFound
    | Directory(cards: seq<ProfileCard>)

  /** How many tags a card shows before the overflow badge. */
  const MaxShownTags: nat := 3
  /** How many characters of a user id the card shows. */
  const ShortIdLength: nat := 8

  /** The effect: redirect a settled, signed-out visitor; fetch the others' profiles for a signed-in one. */
  function Effect(loading: bool, user: Option<User>): (a: EffectAction)
    ensures a == RedirectToLanding <==> !loading && user.None?
    ensures a.FetchProfiles? <==> user.Some?
    ensures a.FetchProfiles? ==> a.excludeUserId == user.value.id
  {
    if !loading && user.None? then RedirectToLanding
    else if user.Some? then FetchProfiles(user.value.id)
    else NoAction
  }

  /** `getInitials` of this page: `'?'` for a missing or empty name. */
  function GetInitials(name: Option<string>): (r: string)
    ensures !Truthy(name) ==> r == "?"
    ensures Truthy(name) ==> r == Upper(WordStarts(name.value, true))
  {
    if Truthy(name) then InitialsOf(name.value) else "?"
  }

  /** `user_id.substring(0, 8)`. */
  function ShortId(userId: string): (r: string)
    ensures r <= userId
    ensures |r| == if |userId| < ShortIdLength then |userId| else ShortIdLength
  {
    Prefix(userId, ShortIdLength)
  }

  /** The handle after `@`: the username when set, otherwise `user_` and the short id. */
  function Handle(p: ProfileRow): (r: string)
    ensures Truthy(p.username) ==> r == p.username.value
    ensures !Truthy(p.username) ==> r == "user_" + ShortId(p.userId)
    ensures r != ""
  {
    OrElse(p.username, "user_" + ShortId(p.userId))
  }

  /**
   * The support-needs section: absent for a `NULL` or empty list; otherwise the first
   * three tags in order and, when there are more, a badge with how many were left out.
   */
  function SupportNeeds(tags: Option<seq<string>>): (r: Option<TagBadges>)
    ensures r.Some? <==> tags.Some? && tags.value != []
    ensures r.Some? ==> r.value.shown <= tags.value
    ensures r.Some? ==> |r.value.shown| == if |tags.value| < MaxShownTags then |tags.value| else MaxShownTags
    ensures r.Some? ==> (r.value.overflow.Some? <==> |tags.value| > MaxShownTags)
    ensures r.Some? ==> |r.value.shown| + r.value.overflow.GetOr(0) == |tags.value|
    ensures r.Some? && r.value.overflow.Some? ==> r.value.shown + tags.value[MaxShownTags..] == tags.value
  {
    match tags
    case None => None
    case Some(list) =>
      if |list| == 0 then None
      else
        var shown := Prefix(list, MaxShownTags);
        var overflow := if |list| > MaxShownTags then Some(|list| - MaxShownTags) else None;
        Some(TagBadges(shown, overflow))
  }

  /** One member card. */
  function Card(p: ProfileRow): (c: ProfileCard)
    ensures c.avatarSrc == OrElse(p.avatarUrl, "")
    ensures c.initials == GetInitials(p.name)
    ensures c.displayName == OrElse(p.name, "Anonymous")
    ensures c.usernameBadge == "@" + Handle(p)
    ensures c.idLine == "ID: " + ShortId(p.userId) + "..."
    ensures c.physicalCondition == RowIf(p.physicalCondition)
    ensures c.gender == RowIf(p.gender) && c.address == RowIf(p.address)
    ensures c.qualification == RowIf(p.qualification) && c.phoneNumber == RowIf(p.phoneNumber)
    ensures c.supportNeeds == SupportNeeds(p.disabilitiesDisorders)
  {
    ProfileCard(
      OrElse(p.avatarUrl, ""),
      GetInitials(p.name),
      OrElse(p.name, "Anonymous"),
      "@" + Handle(p),
      "ID: " + ShortId(p.userId) + "...",
      RowIf(p.physicalCondition),
      RowIf(p.gender), RowIf(p.address), RowIf(p.qualification), RowIf(p.phoneNumber),
      SupportNeeds(p.disabilitiesDisorders))
  }

  function Cards(profiles: seq<ProfileRow>): (cards: seq<ProfileCard>)
    ensures |cards| == |profiles|
    ensures forall i :: 0 <= i < |profiles| ==> cards[i] == Card(profiles[i])
  {
    if profiles == [] then [] else [Card(profiles[0])] + Cards(profiles[1..])
  }

  /**
   * The rendered page: a spinner while the session or the list is loading, nothing
   * without a user, the empty state for an empty list, else one card per profile in
   * the order fetched.
   */
  function View(loading: bool, user: Option<User>, profilesLoading: bool, profiles: seq<ProfileRow>): (v: HomeView)
    ensures v == Spinner <==> loading || profilesLoading
    ensures v == Nothing <==> !loading && !profilesLoading && user.None?
    ensures v == NoProfilesFound <==> !loading && !profilesLoading && user.Some? && profiles == []
    ensures v.Directory? ==> |v.cards| == |profiles| > 0
    ensures v.Directory? ==> forall i :: 0 <= i < |profiles| ==> v.cards[i] == Card(profiles[i])
  {
    if loading || profilesLoading then Spinner
    else if user.None? then Nothing
    else if |profiles| == 0 then NoProfilesFound
    else Directory(Cards(profiles))
  }

  /** A visitor who is being redirected never sees a card. */
  lemma RedirectShowsNoCards(loading: bool, user: Option<User>, profilesLoading: bool, profiles: seq<ProfileRow>)
    requires Effect(loading, user) == RedirectToLanding
    ensures View(loading, user, profilesLoading, profiles) in {Spinner, Nothing}
  {
  }

  /** The handle is never empty and, without a username, starts with `user_` followed by a prefix of the id. */
  lemma {:induction false} HandleFallbackShape(p: ProfileRow)
    requires !Truthy(p.username)
    ensures Handle(p)[..5] == "user_"
    ensures Handle(p)[5..] <= p.userId
    ensures |Handle(p)| == 5 + (if |p.userId| < ShortIdLength then |p.userId| else ShortIdLength)
  {
    var h := Handle(p);
    assert h == "user_" + ShortId(p.userId);
    assert h[5..] == ShortId(p.userId);
  }
}
