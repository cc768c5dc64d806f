/**
 * The profile editor dialog: its form state (`formData`, `newDisability`,
 * `loading`), the disabilities/disorders tag editor, the per-field update, the
 * load-from-profile effect and the row built on submit.
 */
module EditProfile {
  import opened Wrappers
  import opened Text
  import opened Profiles

  // ---------------------------------------------------------------------------
  // Form data and the row it is saved as
  // ---------------------------------------------------------------------------

  /** The eight text inputs, as `handleInputChange` names them. */
  datatype Field = Name | Username | Email | PhoneNumber | Gender | Qualification | Address | PhysicalCondition

  /** `formData`: every text input is a string (never null), the tags a list (never null). */
  datatype FormData = FormData(
    name: string,
    username: string,
    email: string,
    phoneNumber: string,
    gender: string,
    qualification: string,
    address: string,
    physicalCondition: string,
    disabilitiesDisorders: seq<string>)

  const EmptyForm: FormData := FormData("", "", "", "", "", "", "", "", [])

  /** The nine columns the form writes, plus the owner: `profileData` in `handleSubmit`. */
  datatype ProfileData = ProfileData(
    userId: string,
    name: Option<string>,
    username: Option<string>,
    email: Option<string>,
    phoneNumber: Option<string>,
    gender: Option<string>,
    qualification: Option<string>,
    address: Option<string>,
    physicalCondition: Option<string>,
    disabilitiesDisorders: Option<seq<string>>)

  /** What `handleSubmit` asks the store to do. */
  datatype SaveRequest =
    | Update(data: ProfileData, whereUserId: string)
    | Insert(data: ProfileData)

  function Get(f: FormData, field: Field): string {
    match field
    case Name => f.name
    case Username => f.username
    case Email => f.email
    case PhoneNumber => f.phoneNumber
    case Gender => f.gender
    case Qualification => f.qualification
    case Address => f.address
    case PhysicalCondition => f.physicalCondition
  }

  /** `{ ...prev, [field]: value }`: that field becomes `value`, nothing else changes. */
  function SetField(f: FormData, field: Field, value: string): (r: FormData)
    ensures Get(r, field) == value
    ensures forall other :: other != field ==> Get(r, other) == Get(f, other)
    ensures r.disabilitiesDisorders == f.disabilitiesDisorders
  {
    match field
    case Name => f.(name := value)
    case Username => f.(username := value)
    case Email => f.(email := value)
    case PhoneNumber => f.(phoneNumber := value)
    case Gender => f.(gender := value)
    case Qualification => f.(qualification := value)
    case Address => f.(address := value)
    case PhysicalCondition => f.(physicalCondition := value)
  }

  /** Two forms that agree on every text field and on the tags are the same form. */
  lemma {:induction false} FormExtensionality(f: FormData, g: FormData)
    requires forall field :: Get(f, field) == Get(g, field)
    requires f.disabilitiesDisorders == g.disabilitiesDisorders
    ensures f == g
  {
    assert Get(f, Name) == Get(g, Name);
    assert Get(f, Username) == Get(g, Username);
    assert Get(f, Email) == Get(g, Email);
    assert Get(f, PhoneNumber) == Get(g, PhoneNumber);
    assert Get(f, Gender) == Get(g, Gender);
    assert Get(f, Qualification) == Get(g, Qualification);
    assert Get(f, Address) == Get(g, Address);
    assert Get(f, PhysicalCondition) == Get(g, PhysicalCondition);
  }

  /** Setting a field to the value it already holds changes nothing; setting it twice keeps the last value. */
  lemma SetFieldLaws(f: FormData, field: Field, v: string, w: string)
    ensures SetField(f, field, Get(f, field)) == f
    ensures SetField(SetField(f, field, v), field, w) == SetField(f, field, w)
  {
    FormExtensionality(SetField(f, field, Get(f, field)), f);
    FormExtensionality(SetField(SetField(f, field, v), field, w), SetField(f, field, w));
  }

  /** Updates of two different fields commute. */
  lemma SetFieldCommutes(f: FormData, a: Field, b: Field, v: string, w: string)
    requires a != b
    ensures SetField(SetField(f, a, v), b, w) == SetField(SetField(f, b, w), a, v)
  {
    FormExtensionality(SetField(SetField(f, a, v), b, w), SetField(SetField(f, b, w), a, v));
  }

  /** The effect's mapping from a stored row to the form: `NULL` becomes `''` or `[]`. */
  function LoadForm(d: ProfileData): (f: FormData)
    ensures forall field :: Get(f, field) == OrElse(ColumnOf(d, field), "")
    ensures f.disabilitiesDisorders == d.disabilitiesDisorders.GetOr([])
  {
    FormData(
      OrElse(d.name, ""), OrElse(d.username, ""), OrElse(d.email, ""),
      OrElse(d.phoneNumber, ""), OrElse(d.gender, ""), OrElse(d.qualification, ""),
      OrElse(d.address, ""), OrElse(d.physicalCondition, ""),
      d.disabilitiesDisorders.GetOr([]))
  }

  function ColumnOf(d: ProfileData, field: Field): Option<string> {
    match field
    case Name => d.name
    case Username => d.username
    case Email => d.email
    case PhoneNumber => d.phoneNumber
    case Gender => d.gender
    case Qualification => d.qualification
    case Address => d.address
    case PhysicalCondition => d.physicalCondition
  }

  /** The columns of a stored row that the form edits. */
  function Editable(p: ProfileRow): ProfileData {
    ProfileData(p.userId, p.name, p.username, p.email, p.phoneNumber, p.gender,
                p.qualification, p.address, p.physicalCondition, p.disabilitiesDisorders)
  }

  /**
   * A row is in the form's normal shape when it never stores `''` in a text column
   * and never stores an empty tag list: `NULL` stands for "not given".
   */
  predicate Normalised(d: ProfileData) {
    && (forall field :: ColumnOf(d, field) != Some(""))
    && d.disabilitiesDisorders != Some([])
  }

  /**
   * `profileData` on submit: the caller's id, every `''` as `NULL`, an empty tag list
   * as `NULL`. The row is always normalised, and loading it back gives the form.
   */
  function BuildProfileData(f: FormData, userId: string): (d: ProfileData)
    ensures d.userId == userId
    ensures Normalised(d)
    ensures forall field :: ColumnOf(d, field).Some? <==> Get(f, field) != ""
    ensures d.disabilitiesDisorders.Some? <==> f.disabilitiesDisorders != []
    ensures LoadForm(d) == f
  {
    var d := ProfileData(
      userId,
      NullIfEmpty(f.name), NullIfEmpty(f.username), NullIfEmpty(f.email),
      NullIfEmpty(f.phoneNumber), NullIfEmpty(f.gender), NullIfEmpty(f.qualification),
      NullIfEmpty(f.address), NullIfEmpty(f.physicalCondition),
      if |f.disabilitiesDisorders| > 0 then Some(f.disabilitiesDisorders) else None);
    FormExtensionality(LoadForm(d), f);
    d
  }

  /**
   * Loading a stored row into the form and submitting it unchanged writes back the
   * same row exactly when the row was normalised; otherwise an `''` column or an
   * empty tag list comes back as `NULL`.
   */
  lemma LoadThenSubmit(d: ProfileData)
    ensures BuildProfileData(LoadForm(d), d.userId) == d <==> Normalised(d)
  {
    var e := BuildProfileData(LoadForm(d), d.userId);
    if Normalised(d) {
      forall field ensures ColumnOf(e, field) == ColumnOf(d, field) {
        NullIfEmptyOfOrElse(ColumnOf(d, field));
      }
      assert ColumnOf(e, Name) == ColumnOf(d, Name);
      assert ColumnOf(e, Username) == ColumnOf(d, Username);
      assert ColumnOf(e, Email) == ColumnOf(d, Email);
      assert ColumnOf(e, PhoneNumber) == ColumnOf(d, PhoneNumber);
      assert ColumnOf(e, Gender) == ColumnOf(d, Gender);
      assert ColumnOf(e, Qualification) == ColumnOf(d, Qualification);
      assert ColumnOf(e, Address) == ColumnOf(d, Address);
      assert ColumnOf(e, PhysicalCondition) == ColumnOf(d, PhysicalCondition);
    }
  }

  /**
   * The store call `handleSubmit` makes: none without a user; with one, the form's row
   * for that user, as an update matched on the user's id when a profile is already
   * stored and as an insert when none is.
   */
  function SaveRequestFor(f: FormData, user: Option<User>, currentProfile: Option<ProfileRow>): (r: Option<SaveRequest>)
    ensures r.None? <==> user.None?
    ensures r.Some? ==> r.value.data == BuildProfileData(f, user.value.id)
    ensures r.Some? ==> (r.value.Update? <==> currentProfile.Some?)
    ensures r.Some? && r.value.Update? ==> r.value.whereUserId == r.value.data.userId == user.value.id
  {
    match user
    case None => None
    case Some(u) =>
      var profileData := BuildProfileData(f, u.id);
      if currentProfile.Some? then Some(Update(profileData, u.id)) else Some(Insert(profileData))
  }

  /** The dialog's title: editing a stored profile, or completing a first one. */
  function DialogTitle(currentProfile: Option<ProfileRow>): (title: string)
    ensures currentProfile.Some? ==> title == "Edit Profile"
    ensures currentProfile.None? ==> title == "Complete Profile"
  {
    if currentProfile.Some? then "Edit Profile" else "Complete Profile"
  }

  /** The title says "Edit Profile" exactly when saving updates the stored row rather than inserting one. */
  lemma TitleMatchesSave(f: FormData, user: User, currentProfile: Option<ProfileRow>)
    ensures DialogTitle(currentProfile) == "Edit Profile" <==> SaveRequestFor(f, Some(user), currentProfile).value.Update?
  {
  }

  // ---------------------------------------------------------------------------
  // The disabilities/disorders tag list
  // ---------------------------------------------------------------------------

  predicate NoDuplicates(s: seq<string>) {
    forall i, j :: 0 <= i < j < |s| ==> s[i] != s[j]
  }

  /** `addDisability`'s guard: the trimmed input is non-empty and not yet in the list. */
  predicate Accepts(tags: seq<string>, input: string) {
    Trim(input) != "" && Trim(input) !in tags
  }

  /** The list after `addDisability` with pending input `input`. */
  function AddTag(tags: seq<string>, input: string): (r: seq<string>)
    ensures Accepts(tags, input) ==> r == tags + [Trim(input)]
    ensures !Accepts(tags, input) ==> r == tags
    ensures NoDuplicates(tags) ==> NoDuplicates(r)
    ensures forall x :: x in r ==> x in tags || (x == Trim(input) && x != "")
  {
    if Accepts(tags, input) then tags + [Trim(input)] else tags
  }

  /**
   * A tag accepted by `addDisability` cannot be added again by re-typing it with
   * surrounding whitespace: the trimmed input is found by `includes`.
   */
  lemma RetypedTagRefused(tags: seq<string>, input: string, w1: string, w2: string)
    requires Accepts(tags, input)
    requires AllWhitespace(w1) && AllWhitespace(w2)
    ensures !Accepts(AddTag(tags, input), w1 + Trim(input) + w2)
    ensures AddTag(AddTag(tags, input), w1 + Trim(input) + w2) == AddTag(tags, input)
  {
    TrimIdempotent(input);
    TrimSurrounded(w1, Trim(input), w2);
  }

  /** `filter(item => item !== d)`: every entry equal to `d` dropped, the rest in order. */
  function RemoveAll(tags: seq<string>, d: string): (r: seq<string>)
    ensures d !in r
    ensures forall x :: x in r ==> x in tags
  {
    if tags == [] then []
    else (if tags[0] == d then [] else [tags[0]]) + RemoveAll(tags[1..], d)
  }

  /** Removing a value that is not in the list changes nothing. */
  lemma {:induction false} RemoveAbsent(tags: seq<string>, d: string)
    requires d !in tags
    ensures RemoveAll(tags, d) == tags
  {
    if tags != [] {
      RemoveAbsent(tags[1..], d);
      assert tags == [tags[0]] + tags[1..];
    }
  }

  /** Exactly the copies of `d` go: every other value keeps its number of occurrences. */
  lemma {:induction false} RemoveAllCounts(tags: seq<string>, d: string)
    ensures multiset(RemoveAll(tags, d)) == multiset(tags)[d := 0]
    ensures |RemoveAll(tags, d)| == |tags| - multiset(tags)[d]
  {
    if tags != [] {
      assert tags == [tags[0]] + tags[1..];
      RemoveAllCounts(tags[1..], d);
    }
  }

  /** Filtering distributes over concatenation, so the kept entries keep their relative order. */
  lemma {:induction false} RemoveAllConcat(a: seq<string>, b: seq<string>, d: string)
    ensures RemoveAll(a + b, d) == RemoveAll(a, d) + RemoveAll(b, d)
  {
    if a == [] {
      assert a + b == b;
    } else {
      var ab := a + b;
      var head := if a[0] == d then [] else [a[0]];
      assert ab[0] == a[0];
      assert ab[1..] == a[1..] + b;
      var tail := RemoveAll(a[1..] + b, d);
      assert RemoveAll(ab, d) == head + tail;
      RemoveAllConcat(a[1..], b, d);
      assert tail == RemoveAll(a[1..], d) + RemoveAll(b, d);
      assert RemoveAll(a, d) == head + RemoveAll(a[1..], d);
      assert head + (RemoveAll(a[1..], d) + RemoveAll(b, d)) == (head + RemoveAll(a[1..], d)) + RemoveAll(b, d);
    }
  }

  /** Removing keeps the list duplicate-free. */
  lemma {:induction false} RemoveAllKeepsNoDuplicates(tags: seq<string>, d: string)
    requires NoDuplicates(tags)
    ensures NoDuplicates(RemoveAll(tags, d))
  {
    if tags != [] {
      var t0, rest := tags[0], tags[1..];
      assert NoDuplicates(rest);
      RemoveAllKeepsNoDuplicates(rest, d);
      var r := RemoveAll(rest, d);
      if t0 != d {
        assert t0 !in rest;
        NoDuplicatesCons(t0, r);
      }
    }
  }

  lemma NoDuplicatesCons(x: string, s: seq<string>)
    requires NoDuplicates(s) && x !in s
    ensures NoDuplicates([x] + s)
  {
    var t := [x] + s;
    forall i, j | 0 <= i < j < |t| ensures t[i] != t[j] {
      if i == 0 { assert t[j] == s[j - 1]; } else { assert t[i] == s[i - 1] && t[j] == s[j - 1]; }
    }
  }

  /** An accepted add followed by removing the same tag restores the list. */
  lemma RemoveUndoesAdd(tags: seq<string>, input: string)
    requires Accepts(tags, input)
    ensures RemoveAll(AddTag(tags, input), Trim(input)) == tags
  {
    var t := Trim(input);
    RemoveAllConcat(tags, [t], t);
    RemoveAbsent(tags, t);
    assert RemoveAll([t], t) == [];
  }

  // ---------------------------------------------------------------------------
  // The component's state
  // ---------------------------------------------------------------------------

  class EditProfileModal {
    var formData: FormData
    var newDisability: string
    var loading: bool

    /** The initial `useState` values. */
    constructor ()
      ensures formData == EmptyForm && newDisability == "" && !loading
    {
      formData := EmptyForm;
      newDisability := "";
      loading := false;
    }

    /** The submit button: disabled and labelled "Saving..." exactly while a save is in flight. */
    function SaveButtonLabel(): (caption: string)
      reads this
      ensures caption == "Saving..." <==> loading
      ensures !loading ==> caption == "Save Profile"
    {
      if loading then "Saving..." else "Save Profile"
    }

    /** The tag input's `onChange`. */
    method SetNewDisability(value: string)
      modifies this`newDisability
      ensures newDisability == value
    {
      newDisability := value;
    }

    /** `handleInputChange(field, value)`. */
    method HandleInputChange(field: Field, value: string)
      modifies this`formData
      ensures Get(formData, field) == value
      ensures forall other :: other != field ==> Get(formData, other) == Get(old(formData), other)
      ensures formData.disabilitiesDisorders == old(formData.disabilitiesDisorders)
    {
      formData := SetField(formData, field, value);
    }

    /**
     * `addDisability()`: appends the trimmed pending input and clears it when the
     * input is accepted; otherwise the list and the pending input stay as they were.
     */
    method AddDisability()
      modifies this`formData, this`newDisability
      ensures Accepts(old(formData.disabilitiesDisorders), old(newDisability)) ==>
        && formData == old(formData).(disabilitiesDisorders := old(formData.disabilitiesDisorders) + [Trim(old(newDisability))])
        && newDisability == ""
      ensures !Accepts(old(formData.disabilitiesDisorders), old(newDisability)) ==>
        formData == old(formData) && newDisability == old(newDisability)
      ensures NoDuplicates(old(formData.disabilitiesDisorders)) ==> NoDuplicates(formData.disabilitiesDisorders)
    {
      var trimmed := Trim(newDisability);
      if trimmed != "" && trimmed !in formData.disabilitiesDisorders {
        formData := formData.(disabilitiesDisorders := AddTag(formData.disabilitiesDisorders, newDisability));
        newDisability := "";
      }
    }

    /** `removeDisability(d)`: drops every entry equal to `d`; the text fields are untouched. */
    method RemoveDisability(d: string)
      modifies this`formData
      ensures formData == old(formData).(disabilitiesDisorders := RemoveAll(old(formData.disabilitiesDisorders), d))
      ensures d !in formData.disabilitiesDisorders
      ensures d !in old(formData.disabilitiesDisorders) ==> formData == old(formData)
      ensures NoDuplicates(old(formData.disabilitiesDisorders)) ==> NoDuplicates(formData.disabilitiesDisorders)
    {
      if d !in formData.disabilitiesDisorders {
        RemoveAbsent(formData.disabilitiesDisorders, d);
      }
      if NoDuplicates(formData.disabilitiesDisorders) {
        RemoveAllKeepsNoDuplicates(formData.disabilitiesDisorders, d);
      }
      formData := formData.(disabilitiesDisorders := RemoveAll(formData.disabilitiesDisorders, d));
    }

    /**
     * The effect on `[currentProfile, user]`: a stored row replaces the whole form;
     * without one, a signed-in user's email (or `''`) fills only the email field.
     */
    method LoadProfile(currentProfile: Option<ProfileRow>, user: Option<User>)
      modifies this`formData
      ensures currentProfile.Some? ==> formData == LoadForm(Editable(currentProfile.value))
      ensures currentProfile.None? && user.Some? ==>
        formData == SetField(old(formData), Email, user.value.email.GetOr(""))
      ensures currentProfile.None? && user.None? ==> formData == old(formData)
    {
      if currentProfile.Some? {
        formData := LoadForm(Editable(currentProfile.value));
      } else if user.Some? {
        formData := formData.(email := user.value.email.GetOr(""));
      }
    }

    /**
     * `handleSubmit` up to the store call: nothing without a user; otherwise `loading`
     * is set and the row built from the form is sent as an update of the caller's row
     * when a profile exists, or as an insert when none does.
     */
    method BeginSubmit(user: Option<User>, currentProfile: Option<ProfileRow>) returns (request: Option<SaveRequest>)
      modifies this`loading
      ensures request == SaveRequestFor(formData, user, currentProfile)
      ensures loading == (user.Some? || old(loading))
      ensures user.Some? ==> SaveButtonLabel() == "Saving..."
    {
      if user.None? {
        return None;
      }
      loading := true;
      var profileData := BuildProfileData(formData, user.value.id);
      if currentProfile.Some? {
        request := Some(Update(profileData, user.value.id));
      } else {
        request := Some(Insert(profileData));
      }
    }

    /**
     * `handleSubmit` after the store answered: `loading` is cleared in every case, and
     * the parent's `onProfileUpdate` is called only when the save succeeded.
     */
    method EndSubmit(saved: bool) returns (notifyParent: bool)
      modifies this`loading
      ensures !loading
      ensures SaveButtonLabel() == "Save Profile"
      ensures notifyParent == saved
    {
      notifyParent := saved;
      loading := false;
    }
  }
}
