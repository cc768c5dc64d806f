/**
 * The `profiles` table row as the pages receive it, the signed-in user, and the
 * two `||` conversions between nullable columns and form strings.
 */
module Profiles {
  import opened Wrappers

  /** The authenticated identity from the session: its id and its (possibly absent) email. */
  datatype User = User(id: string, email: Option<string>)

  /** A row of `profiles` as `select('*')` returns it; `None` is SQL `NULL`. */
  datatype ProfileRow = ProfileRow(
    id: string,
    userId: string,
    name: Option<string>,
    username: Option<string>,
    email: Option<string>,
    phoneNumber: Option<string>,
    gender: Option<string>,
    qualification: Option<string>,
    address: Option<string>,
    physicalCondition: Option<string>,
    disabilitiesDisorders: Option<seq<string>>,
    avatarUrl: Option<string>)

  /** A nullable string is truthy in JavaScript when it is present and not `''`. */
  predicate Truthy(o: Option<string>) {
    o.Some? && o.value != ""
  }

  /** `o || fallback` for a nullable string. */
  function OrElse(o: Option<string>, fallback: string): (r: string)
    ensures Truthy(o) ==> r == o.value
    ensures !Truthy(o) ==> r == fallback
  {
    if Truthy(o) then o.value else fallback
  }

  /** `{column && <row/>}`: a row rendered exactly when its column is truthy. */
  function RowIf(column: Option<string>): (r: Option<string>)
    ensures r.Some? <==> Truthy(column)
    ensures r.Some? ==> r == column
  {
    if Truthy(column) then column else None
  }

  /** `s || null`: the empty string becomes `NULL`. */
  function NullIfEmpty(s: string): (o: Option<string>)
    ensures o == None <==> s == ""
    ensures OrElse(o, "") == s
  {
    if s == "" then None else Some(s)
  }

  /** `NULL` and `''` are the two nullable values that `|| ''` maps to `''`; every other one survives the round trip. */
  lemma NullIfEmptyOfOrElse(o: Option<string>)
    ensures NullIfEmpty(OrElse(o, "")) == o <==> o != Some("")
  {
  }
}
