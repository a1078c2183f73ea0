/**
 * customuser/forms.py: the password-change rules of `CustomUserUpdateForm`.
 * `clean` checks the two new passwords against each other before it checks
 * the old one; `save` sets a new password only when one was typed.
 *
 * `check_password` is a parameter: whatever the stored hash accepts. The
 * password column holds what `set_password` was given; hashing is not part
 * of this model.
 */
module ProfileForm {
  import opened Common
  import opened Text

  /** The two form-wide errors `clean` can raise. */
  datatype ProfileError = PasswordMismatch | InvalidOldPassword

  const MISMATCH_MESSAGE: string := "The new passwords do not match. Please try again."
  const INVALID_OLD_MESSAGE: string := "Invalid old password. Please try again."

  function Message(e: ProfileError): (m: string)
    ensures m != ""
  {
    match e
    case PasswordMismatch => MISMATCH_MESSAGE
    case InvalidOldPassword => INVALID_OLD_MESSAGE
  }

  /**
   * `clean()` over the cleaned password fields (each "" when left empty).
   * The first check that fails raises; `None` means the form is valid.
   */
  function Clean(oldPassword: string, newPassword1: string, newPassword2: string, checkPassword: string -> bool)
    : (r: Option<ProfileError>)
  {
    if newPassword1 != "" && newPassword1 != newPassword2 then Some(PasswordMismatch)
    else if oldPassword != "" && !checkPassword(oldPassword) then Some(InvalidOldPassword)
    else None
  }

  /** The mismatch error is raised exactly when a first new password is typed and the confirmation differs. */
  lemma MismatchIff(oldPassword: string, newPassword1: string, newPassword2: string, checkPassword: string -> bool)
    ensures Clean(oldPassword, newPassword1, newPassword2, checkPassword) == Some(PasswordMismatch)
      <==> newPassword1 != "" && newPassword1 != newPassword2
  {
  }

  /** An empty first new password never mismatches, whatever the confirmation holds. */
  lemma EmptyNewPasswordNeverMismatches(oldPassword: string, newPassword2: string, checkPassword: string -> bool)
    ensures Clean(oldPassword, "", newPassword2, checkPassword) != Some(PasswordMismatch)
  {
  }

  /** A typed old password that the check refuses is rejected (unless the mismatch fires first). */
  lemma WrongOldPasswordRejected(oldPassword: string, newPassword1: string, newPassword2: string, checkPassword: string -> bool)
    requires oldPassword != "" && !checkPassword(oldPassword)
    ensures Clean(oldPassword, newPassword1, newPassword2, checkPassword) != None
  {
  }

  /** An empty old password is never checked: the outcome does not depend on `check_password` at all. */
  lemma EmptyOldPasswordSkipsCheck(newPassword1: string, newPassword2: string, check1: string -> bool, check2: string -> bool)
    ensures Clean("", newPassword1, newPassword2, check1) == Clean("", newPassword1, newPassword2, check2)
    ensures Clean("", newPassword1, newPassword2, check1) != Some(InvalidOldPassword)
  {
  }

  /** When both checks would fail, the mismatch is the error reported. */
  lemma MismatchReportedFirst(oldPassword: string, newPassword1: string, newPassword2: string, checkPassword: string -> bool)
    requires newPassword1 != "" && newPassword1 != newPassword2
    requires oldPassword != "" && !checkPassword(oldPassword)
    ensures Clean(oldPassword, newPassword1, newPassword2, checkPassword) == Some(PasswordMismatch)
  {
  }

  /** The form is valid exactly when neither check fails. */
  lemma CleanValidIff(oldPassword: string, newPassword1: string, newPassword2: string, checkPassword: string -> bool)
    ensures Clean(oldPassword, newPassword1, newPassword2, checkPassword) == None <==>
      (newPassword1 == "" || newPassword1 == newPassword2)
      && (oldPassword == "" || checkPassword(oldPassword))
  {
  }

  /** The profile columns `CustomUserUpdateForm` edits, and the password. */
  class CustomUser {
    var email: string
    var aboutMe: string
    var favoriteFood: string
    var pic: string
    var password: string

    constructor (email: string, aboutMe: string, favoriteFood: string, pic: string, password: string)
      ensures this.email == email && this.aboutMe == aboutMe && this.favoriteFood == favoriteFood
      ensures this.pic == pic && this.password == password
    {
      this.email, this.aboutMe, this.favoriteFood, this.pic, this.password := email, aboutMe, favoriteFood, pic, password;
    }

    /**
     * `save()` after a successful `is_valid()`: the new password is set only
     * when `new_password1` is non-empty (and then it equals the confirmation,
     * since `clean` passed), and the four profile columns take the submitted
     * values.
     */
    method Save(
      email: string, aboutMe: string, favoriteFood: string, pic: string,
      oldPassword: string, newPassword1: string, newPassword2: string, checkPassword: string -> bool)
      requires Clean(oldPassword, newPassword1, newPassword2, checkPassword) == None
      modifies this
      ensures this.email == email && this.aboutMe == aboutMe && this.favoriteFood == favoriteFood && this.pic == pic
      ensures newPassword1 == "" ==> password == old(password)
      ensures newPassword1 != "" ==> password == newPassword1 && password == newPassword2
    {
      if newPassword1 != "" {
        password := newPassword1;
      }
      this.email, this.aboutMe, this.favoriteFood, this.pic := email, aboutMe, favoriteFood, pic;
    }
  }
}
