/**
 * Profile lookups by user id (`from('profiles').select('role').eq('id', uid).single()`)
 * as the route guard and the login hook see them, and the role normalisation both apply.
 */
module Roles {
  import opened Common
  import opened JsString

  /** A profiles row; `role` is None when the column is null. */
  datatype Profile = Profile(role: Option<string>)

  /** The `{ data, error }` pair a lookup resolves to. */
  datatype ProfileAnswer = ProfileAnswer(data: Option<Profile>, error: bool)

  /** `profile.role ? String(profile.role).trim().toLowerCase() : null` */
  function NormalizeRole(role: Option<string>): Option<string>
  {
    if role.None? || role.value == "" then None else Some(ToLower(Trim(role.value)))
  }

  /** Surrounding white space does not change the normalised role. */
  lemma NormalizeIgnoresPadding(role: string)
    requires role != ""
    ensures NormalizeRole(Some(" " + role + " ")) == NormalizeRole(Some(role))
  {
    TrimPadded(role);
  }

  /** Case does not matter: a role lower-cased before it is stored normalises the same. */
  lemma NormalizeIgnoresCase(role: string)
    ensures NormalizeRole(Some(ToLower(role))) == NormalizeRole(Some(role))
  {
    TrimLower(role);
    ToLowerIdempotent(Trim(role));
  }

  /** Upper-case letters are folded: a stored "ADMIN" normalises to "admin". */
  lemma NormalizeFoldsCase()
    ensures NormalizeRole(Some("ADMIN")) == Some("admin")
    ensures NormalizeRole(Some("")).None?
  {
    TrimUnchanged("ADMIN");
    assert ToLower("ADMIN") == "admin";
  }
}
