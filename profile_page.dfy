/**
 * The customer's profile page of app/perfil/page.tsx: loading the personal data form, saving
 * it, and changing the password after checking that the two entries agree and are long enough.
 * The profile service calls are inputs: the profile row read (None when there is none) and
 * whether each update succeeds.
 */
module ProfilePage {
  import opened Common

  /** The columns of `profiles` the form shows; None for null. */
  datatype ProfileRow = ProfileRow(fullName: Option<string>, phone: Option<string>)

  datatype Kind = Success | Error

  /** The banner above the form. */
  datatype Message = Message(kind: Kind, text: string)

  const Mismatch := Message(Error, "Las contrase\U{F1}as no coinciden")
  const TooShort := Message(Error, "La contrase\U{F1}a debe tener al menos 6 caracteres")
  const PasswordChanged := Message(Success, "Contrase\U{F1}a actualizada correctamente")
  const PasswordFailed := Message(Error, "Error al actualizar la contrase\U{F1}a")
  const ProfileSaved := Message(Success, "Perfil actualizado correctamente")
  const ProfileFailed := Message(Error, "Error al actualizar el perfil")

  /** The least number of UTF-16 code units a new password must have. */
  const MinPasswordLength := 6

  /** JavaScript's `length`: characters outside the Basic Multilingual Plane count twice. */
  function Utf16Length(s: string): (n: nat)
    ensures |s| <= n <= 2 * |s|
  {
    if s == [] then 0 else (if s[0] as int > 0xFFFF then 2 else 1) + Utf16Length(s[1..])
  }

  /** On text made of BMP characters `length` is the number of characters. */
  lemma {:induction false} Utf16LengthBmp(s: string)
    requires forall i | 0 <= i < |s| :: s[i] as int <= 0xFFFF
    ensures Utf16Length(s) == |s|
  {
    if s != [] {
      Utf16LengthBmp(s[1..]);
    }
  }

  /** The checks of `handlePasswordUpdate`, in their order: None when the change may go ahead. */
  function PasswordProblem(newPassword: string, confirmPassword: string): Option<Message> {
    if newPassword != confirmPassword then Some(Mismatch)
    else if Utf16Length(newPassword) < MinPasswordLength then Some(TooShort)
    else None
  }

  /**
   * Two different entries are always reported as a mismatch, whatever their length; equal
   * entries shorter than six are too short; the rest pass.
   */
  lemma PasswordRules(newPassword: string, confirmPassword: string)
    ensures PasswordProblem(newPassword, confirmPassword) == Some(Mismatch) <==> newPassword != confirmPassword
    ensures PasswordProblem(newPassword, confirmPassword) == Some(TooShort) <==>
      newPassword == confirmPassword && Utf16Length(newPassword) < 6
    ensures PasswordProblem(newPassword, confirmPassword).None? <==>
      newPassword == confirmPassword && Utf16Length(newPassword) >= 6
  {
    assert Mismatch != TooShort by {
      assert Mismatch.text[9] != TooShort.text[9];
    }
  }

  /** A short mismatched pair is reported as a mismatch, not as too short. */
  lemma MismatchBeforeLength()
    ensures PasswordProblem("abc", "abd") == Some(Mismatch)
    ensures PasswordProblem("", "x") == Some(Mismatch)
  {
  }

  class ProfileForm {
    var fullName: string
    var phone: string
    var newPassword: string
    var confirmPassword: string
    var message: Option<Message>
    var saving: bool

    constructor()
      ensures fullName == "" && phone == "" && newPassword == "" && confirmPassword == ""
      ensures message.None? && !saving
    {
      fullName := "";
      phone := "";
      newPassword := "";
      confirmPassword := "";
      message := None;
      saving := false;
    }

    /** `loadProfile()`: fill the form from the profile; without one, leave the fields as they are. */
    method Load(data: Option<ProfileRow>)
      modifies this
      ensures data.Some? ==> fullName == data.value.fullName.GetOr("") && phone == data.value.phone.GetOr("")
      ensures data.None? ==> fullName == old(fullName) && phone == old(phone)
      ensures newPassword == old(newPassword) && confirmPassword == old(confirmPassword)
      ensures message == old(message) && saving == old(saving)
    {
      if data.Some? {
        fullName := data.value.fullName.GetOr("");
        phone := data.value.phone.GetOr("");
      }
    }

    /** Typing the two password entries. */
    method EditPasswords(p: string, c: string)
      modifies this
      ensures newPassword == p && confirmPassword == c
      ensures fullName == old(fullName) && phone == old(phone) && message == old(message) && saving == old(saving)
    {
      newPassword := p;
      confirmPassword := c;
    }

    /**
     * `handlePasswordUpdate()`: report the first failed check, or call `updatePassword` with
     * the new password (returned here) and clear both entries when it succeeds.
     */
    method ChangePassword(updateOk: bool) returns (called: Option<string>)
      modifies this
      ensures called.Some? <==> PasswordProblem(old(newPassword), old(confirmPassword)).None?
      ensures called.Some? ==> called.value == old(newPassword) && Utf16Length(called.value) >= MinPasswordLength
      ensures called.None? ==>
        message == PasswordProblem(old(newPassword), old(confirmPassword)) && newPassword == old(newPassword) && confirmPassword == old(confirmPassword)
      ensures called.Some? && updateOk ==> message == Some(PasswordChanged) && newPassword == "" && confirmPassword == ""
      ensures called.Some? && !updateOk ==>
        message == Some(PasswordFailed) && newPassword == old(newPassword) && confirmPassword == old(confirmPassword)
      ensures called.None? ==> saving == old(saving)
      ensures called.Some? ==> !saving
      ensures fullName == old(fullName) && phone == old(phone)
    {
      message := None;
      var problem := PasswordProblem(newPassword, confirmPassword);
      if problem.Some? {
        message := problem;
        return None;
      }
      saving := true;
      called := Some(newPassword);
      if updateOk {
        message := Some(PasswordChanged);
        newPassword := "";
        confirmPassword := "";
      } else {
        message := Some(PasswordFailed);
      }
      saving := false;
    }

    /** `handleProfileUpdate()`: without a signed-in user nothing happens. */
    method SaveProfile(hasUserId: bool, updateOk: bool) returns (sent: Option<ProfileRow>)
      modifies this
      ensures !hasUserId ==> sent.None? && unchanged(this)
      ensures hasUserId ==>
        sent == Some(ProfileRow(Some(old(fullName)), Some(old(phone)))) && message == Some(if updateOk then ProfileSaved else ProfileFailed) && !saving
      ensures fullName == old(fullName) && phone == old(phone)
      ensures newPassword == old(newPassword) && confirmPassword == old(confirmPassword)
    {
      if !hasUserId {
        return None;
      }
      saving := true;
      message := None;
      sent := Some(ProfileRow(Some(fullName), Some(phone)));
      message := Some(if updateOk then ProfileSaved else ProfileFailed);
      saving := false;
    }
  }
}
