/** The signed-in header bar: welcome name, avatar and its initials fallback. */
module ProfileHeader {
  import opened Wrappers
  import opened Text
  import opened Profiles
  import BottomNavigation

  /** The two columns the header selects: `select('name, avatar_url')`. */
  datatype HeaderProfile = HeaderProfile(name: Option<string>, avatarUrl: Option<string>)

  datatype Header = Header(welcomeName: string, avatarSrc: string, initials: string)

  /** Where the logo and the "My Profile" menu entry lead. */
  const LogoTarget := "/home"
  const MyProfileTarget := "/profile"
  /** Where logging out leads, after the session is signed out. */
  const LogoutTarget := "/"

  /** `getInitials` of the header: `'U'` for a missing or empty name. */
  function GetInitials(name: Option<string>): (r: string)
    ensures !Truthy(name) ==> r == "U"
    ensures Truthy(name) ==> r == Upper(WordStarts(name.value, true))
  {
    if Truthy(name) then InitialsOf(name.value) else "U"
  }

  /** `profile?.column`. */
  function NameOf(profile: Option<HeaderProfile>): Option<string> {
    if profile.Some? then profile.value.name else None
  }

  function AvatarOf(profile: Option<HeaderProfile>): Option<string> {
    if profile.Some? then profile.value.avatarUrl else None
  }

  /** Whether the header fetches the profile: exactly when someone is signed in. */
  function FetchesProfile(user: Option<User>): (b: bool)
    ensures b <==> user.Some?
  {
    user.Some?
  }

  /**
   * The header: nothing without a user; otherwise the profile's name or `Friend`,
   * the avatar address or `''`, and the initials fallback.
   */
  function Render(user: Option<User>, profile: Option<HeaderProfile>): (r: Option<Header>)
    ensures r.None? <==> user.None?
    ensures r.Some? ==> r.value.welcomeName == OrElse(NameOf(profile), "Friend")
    ensures r.Some? ==> r.value.avatarSrc == OrElse(AvatarOf(profile), "")
    ensures r.Some? ==> r.value.initials == GetInitials(NameOf(profile))
    ensures r.Some? ==> r.value.welcomeName != ""
  {
    if user.None? then None
    else
      var name := NameOf(profile);
      Some(Header(OrElse(name, "Friend"), OrElse(AvatarOf(profile), ""), GetInitials(name)))
  }

  /** The header fetches a profile exactly when it renders, whichever profile it currently holds. */
  lemma FetchesIffRenders(user: Option<User>, profile: Option<HeaderProfile>)
    ensures FetchesProfile(user) <==> Render(user, profile).Some?
  {
  }

  /**
   * The avatar fallback is empty for a name made only of spaces: such a name is
   * truthy, so `'U'` is not used, and every segment of its split is empty.
   */
  lemma BlankNameHasNoInitials(user: User, name: string, avatarUrl: Option<string>)
    requires name != "" && forall i :: 0 <= i < |name| ==> name[i] == ' '
    ensures Render(Some(user), Some(HeaderProfile(Some(name), avatarUrl))).value.initials == ""
    ensures Render(Some(user), Some(HeaderProfile(Some(name), avatarUrl))).value.welcomeName == name
  {
    SpacesHaveNoInitials(name, true);
  }

  /** A name that starts with a letter other than a space has a non-empty fallback. */
  lemma InitialsPresentForWord(user: User, name: string, avatarUrl: Option<string>)
    requires name != "" && name[0] != ' '
    ensures Render(Some(user), Some(HeaderProfile(Some(name), avatarUrl))).value.initials[0] == UpperChar(name[0])
  {
    assert WordStarts(name, true)[0] == name[0];
  }

  /**
   * The logo and "My Profile" targets are the Home and Profile tab paths;
   * `NavItems` has exactly one active item at each of them and none at `/`,
   * the logout target.
   */
  lemma TargetsMatchTabs()
    ensures LogoTarget == BottomNavigation.Paths[0]
    ensures MyProfileTarget == BottomNavigation.Paths[4]
    ensures BottomNavigation.ActiveCount(BottomNavigation.NavItems(LogoTarget)) == 1
    ensures BottomNavigation.ActiveCount(BottomNavigation.NavItems(MyProfileTarget)) == 1
    ensures BottomNavigation.ActiveCount(BottomNavigation.NavItems(LogoutTarget)) == 0
  {
    BottomNavigation.ActiveItems(LogoTarget);
    BottomNavigation.ActiveItems(MyProfileTarget);
    BottomNavigation.ActiveItems(LogoutTarget);
    assert LogoutTarget !in BottomNavigation.Paths;
  }
}
