/**
 * The `User` record (Models/User.cs) and the constraints its data annotations
 * declare.
 */
module Models {
  import opened Wrappers
  import opened Text

  /** A user record. The string properties are nullable at run time (a request
      body may carry `null`), hence `Option<string>`. */
  datatype User = User(id: int, name: Option<string>, email: Option<string>, role: Option<string>)

  /** `[Required]` on a string: not null, not empty, not white space only. */
  predicate Required(s: Option<string>)
  {
    !IsNullOrWhiteSpace(s)
  }

  /** `[StringLength(max)]`: a null value passes; otherwise at most `max` characters. */
  predicate WithinLength(s: Option<string>, max: nat)
  {
    s.None? || |s.value| <= max
  }

  /** `[EmailAddress]`: a null value passes; otherwise the email predicate decides. */
  predicate EmailAddress(s: Option<string>, isEmail: string -> bool)
  {
    s.None? || isEmail(s.value)
  }

  /** All annotations of the record hold: Name required and at most 50
      characters, Email required and an email address, Role required and at
      most 20 characters. */
  predicate ValidUser(u: User, isEmail: string -> bool)
    ensures ValidUser(u, isEmail) ==>
      && u.name.Some? && 0 < |u.name.value| <= 50
      && u.email.Some? && isEmail(u.email.value)
      && u.role.Some? && 0 < |u.role.value| <= 20
  {
    && Required(u.name) && WithinLength(u.name, 50)
    && Required(u.email) && EmailAddress(u.email, isEmail)
    && Required(u.role) && WithinLength(u.role, 20)
  }

  /** What the annotations mean, spelled out field by field. */
  lemma ValidUserMeans(u: User, isEmail: string -> bool)
    ensures ValidUser(u, isEmail) <==>
      && u.name.Some? && 0 < |u.name.value| <= 50
      && (exists i :: 0 <= i < |u.name.value| && !IsWhiteSpace(u.name.value[i]))
      && u.email.Some? && isEmail(u.email.value)
      && (exists i :: 0 <= i < |u.email.value| && !IsWhiteSpace(u.email.value[i]))
      && u.role.Some? && 0 < |u.role.value| <= 20
      && (exists i :: 0 <= i < |u.role.value| && !IsWhiteSpace(u.role.value[i]))
  {
  }
}
