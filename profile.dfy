/**
 * The profile form of the frontend: the ordered password checks of
 * `handleSubmit`, the update payload it sends, and the resets after a
 * successful update and on cancel. The `api.put` call is a parameter: the
 * user data it answers with, or the error it throws.
 */
module ProfileForm {
  import opened Wrappers
  import opened JsStrings

  /** The `formData` state. */
  datatype FormData = FormData(name: string, profilePic: string, password: string, confirmPassword: string)

  /** The signed-in user as the auth context holds it; a missing field is `""`. */
  datatype User = User(name: string, profilePic: string)

  /** The body of `PUT /auth/profile`: `password` is present only when one was typed. */
  datatype UpdateData = UpdateData(name: string, profilePic: string, password: Option<string>)

  /** The user fields of the answer to `PUT /auth/profile`; a field the answer lacks is `None`. */
  datatype UserPatch = UserPatch(name: Option<string>, profilePic: Option<string>)

  /** What `api.put` does: answer with user data, or throw, possibly with a server message. */
  datatype PutOutcome = Saved(data: UserPatch) | Rejected(serverMessage: Option<string>)

  const MismatchError := "Passwords do not match"
  const ShortPasswordError := "Password must be at least 6 characters"
  const FallbackError := "Failed to update profile"
  const SuccessMessage := "Profile updated successfully!"

  /**
   * The two early returns of `handleSubmit`, in order: a non-empty password
   * must equal its confirmation, then be at least 6 code units long. An
   * empty password passes both, whatever the confirmation holds.
   */
  function Validate(f: FormData): (r: Option<string>)
    ensures f.password != "" && f.password != f.confirmPassword ==> r == Some(MismatchError)
    ensures f.password != "" && f.password == f.confirmPassword && Length(f.password) < 6
            ==> r == Some(ShortPasswordError)
    ensures r.None? <==> f.password == "" || (f.password == f.confirmPassword && Length(f.password) >= 6)
  {
    if f.password != "" && f.password != f.confirmPassword then Some(MismatchError)
    else if f.password != "" && Length(f.password) < 6 then Some(ShortPasswordError)
    else None
  }

  /** The update payload: always `name` and `profilePic`, and `password` exactly when it is non-empty. */
  function UpdatePayload(f: FormData): (r: UpdateData)
    ensures r.name == f.name && r.profilePic == f.profilePic
    ensures r.password.Some? <==> f.password != ""
    ensures r.password.Some? ==> r.password.value == f.password
  {
    UpdateData(f.name, f.profilePic, if f.password != "" then Some(f.password) else None)
  }

  /** A password that is sent was confirmed and is at least 6 code units long. */
  lemma SentPasswordIsValid(f: FormData)
    requires Validate(f).None? && UpdatePayload(f).password.Some?
    ensures UpdatePayload(f).password.value == f.confirmPassword
    ensures Length(UpdatePayload(f).password.value) >= 6
  {
  }

  /** The mismatch check comes first: a short mismatched pair reports the mismatch. */
  lemma MismatchReportedBeforeLength(f: FormData)
    requires f.password != "" && f.password != f.confirmPassword && Length(f.password) < 6
    ensures Validate(f) == Some(MismatchError)
  {
  }

  /** `err.response?.data?.message || 'Failed to update profile'`. */
  function ErrorText(serverMessage: Option<string>): (r: string)
    ensures r != ""
    ensures serverMessage.Some? && serverMessage.value != "" ==> r == serverMessage.value
    ensures !(serverMessage.Some? && serverMessage.value != "") ==> r == FallbackError
  {
    match serverMessage
    case Some(m) => if m != "" then m else FallbackError
    case None => FallbackError
  }

  /**
   * The auth context's `updateUser`: `{ ...user, ...updatedData }`. A field
   * the answer carries replaces the old one; a field it lacks keeps the old
   * value, or stays missing when there was no user.
   */
  function MergeUser(user: Option<User>, data: UserPatch): (r: User)
    ensures data.name.Some? ==> r.name == data.name.value
    ensures data.profilePic.Some? ==> r.profilePic == data.profilePic.value
    ensures data.name.None? ==> r.name == (if user.Some? then user.value.name else "")
    ensures data.profilePic.None? ==> r.profilePic == (if user.Some? then user.value.profilePic else "")
  {
    var base := if user.Some? then user.value else User("", "");
    User(if data.name.Some? then data.name.value else base.name,
         if data.profilePic.Some? then data.profilePic.value else base.profilePic)
  }

  /** Applying the same answer twice changes nothing more. */
  lemma MergeIdempotent(user: Option<User>, data: UserPatch)
    ensures MergeUser(Some(MergeUser(user, data)), data) == MergeUser(user, data)
  {
  }

  /** An answer carrying both fields replaces the user, whatever it was before. */
  lemma MergeFullAnswer(user: Option<User>, name: string, profilePic: string)
    ensures MergeUser(user, UserPatch(Some(name), Some(profilePic))) == User(name, profilePic)
  {
  }

  /** An empty answer keeps the user as it was. */
  lemma MergeEmptyAnswer(u: User)
    ensures MergeUser(Some(u), UserPatch(None, None)) == u
  {
  }

  /** The form filled from the user, with empty password fields (`user?.name || ''`, ...). */
  function FormFromUser(user: Option<User>): (f: FormData)
    ensures f.password == "" && f.confirmPassword == ""
    ensures user.Some? ==> f.name == user.value.name && f.profilePic == user.value.profilePic
    ensures user.None? ==> f.name == "" && f.profilePic == ""
  {
    match user
    case Some(u) => FormData(u.name, u.profilePic, "", "")
    case None => FormData("", "", "", "")
  }

  /** The inputs of the form, by their `name` attribute. */
  datatype Field = Name | ProfilePic | Password | ConfirmPassword

  /** The state of the profile page, with the auth context's `user`. */
  class Profile {
    var user: Option<User>
    var formData: FormData
    var isEditing: bool
    var error: string
    var success: string
    var loading: bool
    /** The `PUT /auth/profile` requests made so far. */
    var requests: seq<UpdateData>

    constructor (user: Option<User>)
      ensures this.user == user
      ensures formData == FormFromUser(user) && !isEditing && error == "" && success == "" && !loading
      ensures requests == []
    {
      this.user := user;
      formData := FormFromUser(user);
      isEditing, error, success, loading := false, "", "", false;
      requests := [];
    }

    /** `handleChange`: one input's new value replaces that field, the others are kept. */
    method HandleChange(field: Field, value: string)
      modifies this
      ensures formData == match field
                          case Name => old(formData).(name := value)
                          case ProfilePic => old(formData).(profilePic := value)
                          case Password => old(formData).(password := value)
                          case ConfirmPassword => old(formData).(confirmPassword := value)
      ensures user == old(user) && isEditing == old(isEditing) && error == old(error)
      ensures success == old(success) && loading == old(loading) && requests == old(requests)
    {
      match field {
        case Name => formData := formData.(name := value);
        case ProfilePic => formData := formData.(profilePic := value);
        case Password => formData := formData.(password := value);
        case ConfirmPassword => formData := formData.(confirmPassword := value);
      }
    }

    /**
     * `handleSubmit`: a failed check sets its message and sends nothing;
     * otherwise the payload is sent, and on success the answer becomes the
     * signed-in user and the password fields are cleared while the other
     * fields are kept; on failure the form is kept and the error shown.
     */
    method HandleSubmit(response: PutOutcome)
      modifies this
      ensures Validate(old(formData)).Some? ==>
                && error == Validate(old(formData)).value && success == ""
                && formData == old(formData) && isEditing == old(isEditing)
                && loading == old(loading) && requests == old(requests) && user == old(user)
      ensures Validate(old(formData)).None? ==>
                && requests == old(requests) + [UpdatePayload(old(formData))]
                && !loading
                && match response
                   case Saved(d) =>
                     && user == Some(MergeUser(old(user), d))
                     && success == SuccessMessage && error == "" && !isEditing
                     && formData == old(formData).(password := "", confirmPassword := "")
                   case Rejected(m) =>
                     && error == ErrorText(m) && success == ""
                     && formData == old(formData) && isEditing == old(isEditing)
                     && user == old(user)
    {
      error := "";
      success := "";
      if formData.password != "" && formData.password != formData.confirmPassword {
        error := MismatchError;
        return;
      }
      if formData.password != "" && Length(formData.password) < 6 {
        error := ShortPasswordError;
        return;
      }
      loading := true;
      var updateData := UpdateData(formData.name, formData.profilePic, None);
      if formData.password != "" {
        updateData := updateData.(password := Some(formData.password));
      }
      requests := requests + [updateData];
      match response {
        case Saved(d) =>
          user := Some(MergeUser(user, d));
          success := SuccessMessage;
          isEditing := false;
          formData := formData.(password := "", confirmPassword := "");
        case Rejected(m) =>
          error := ErrorText(m);
      }
      loading := false;
    }

    /** `handleCancel`: leave edit mode and refill the form from the current user, with empty passwords. */
    method HandleCancel()
      modifies this
      ensures !isEditing && formData == FormFromUser(user) && error == "" && success == ""
      ensures user == old(user) && loading == old(loading) && requests == old(requests)
    {
      isEditing := false;
      formData := FormFromUser(user);
      error := "";
      success := "";
    }
  }
}
