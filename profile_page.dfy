/** The profile editor of frontend/src/pages/Profile.tsx.

    The component's state variables are the fields of `ProfilePage`, and
    `handleSave` and `handleCancel` are methods on it. `handleSave` awaits
    one `PUT /api/user`; the server's answer (the updated user, or a failed
    request) is the parameter `response`, and the method returns the body
    it would send, if it sends one. The shown `@handle` is a pure function
    of the display name. */
module ProfilePage {
  import opened Types
  import opened Text

  const SAVE_FAILED := "Failed to update profile. Please try again."
  const SAVE_DONE := "Profile updated successfully"

  /** `Partial<User>` as the editor fills it: only the two editable fields,
      each one absent (`undefined`) or set. */
  datatype Edits = Edits(displayName: Option<string>, email: Option<string>)

  const NO_EDITS := Edits(None, None)

  /** `profile?.displayName`: absent when there is no profile. */
  function ShownDisplayName(profile: Option<User>): Option<string> {
    if profile.None? then None else profile.value.displayName
  }

  /** `profile?.email`. */
  function ShownEmail(profile: Option<User>): Option<string> {
    if profile.None? then None else Some(profile.value.email)
  }

  /** `changedFields`: the edited fields whose value differs from the
      profile's. */
  function ChangedFields(edited: Edits, profile: Option<User>): (changed: Edits)
    ensures changed.displayName.Some? <==>
              edited.displayName.Some? && edited.displayName != ShownDisplayName(profile)
    ensures changed.email.Some? <==>
              edited.email.Some? && edited.email != ShownEmail(profile)
    ensures changed.displayName.Some? ==> changed.displayName == edited.displayName
    ensures changed.email.Some? ==> changed.email == edited.email
  {
    Edits(
      if edited.displayName.Some? && edited.displayName != ShownDisplayName(profile) then edited.displayName else None,
      if edited.email.Some? && edited.email != ShownEmail(profile) then edited.email else None)
  }

  /** A user record with the set fields of `e` written over it. */
  function ApplyEdits(u: User, e: Edits): (r: User)
    ensures r.displayName == (if e.displayName.Some? then e.displayName else u.displayName)
    ensures r.email == (if e.email.Some? then e.email.value else u.email)
    ensures r.(displayName := u.displayName, email := u.email) == u
  {
    u.(displayName := if e.displayName.Some? then e.displayName else u.displayName,
       email := if e.email.Some? then e.email.value else u.email)
  }

  /** Sending only the changed fields updates the profile exactly as
      sending every edited field would. */
  lemma ChangedFieldsSuffice(edited: Edits, u: User)
    ensures ApplyEdits(u, ChangedFields(edited, Some(u))) == ApplyEdits(u, edited)
  {
    var changed := ChangedFields(edited, Some(u));
    assert ApplyEdits(u, changed).displayName == ApplyEdits(u, edited).displayName;
    assert ApplyEdits(u, changed).email == ApplyEdits(u, edited).email;
  }

  /** Once the edits are in the profile, saving them again sends nothing. */
  lemma NothingChangedAfterApply(edited: Edits, u: User)
    ensures ChangedFields(edited, Some(ApplyEdits(u, edited))) == NO_EDITS
  {
  }

  /** `profile.displayName?.toLowerCase().replace(/\s+/g, "")`; an absent
      name renders as nothing. */
  function Handle(displayName: Option<string>): (h: string)
    ensures forall i :: 0 <= i < |h| ==> !IsWhitespace(h[i]) && !('A' <= h[i] <= 'Z')
  {
    if displayName.None? then ""
    else
      StripWhitespaceKeeps(Lowercase(displayName.value));
      StripWhitespace(Lowercase(displayName.value))
  }

  /** A handle is its own handle. */
  lemma HandleIdempotent(displayName: Option<string>)
    ensures Handle(Some(Handle(displayName))) == Handle(displayName)
  {
    var h := Handle(displayName);
    LowercaseOfLower(h);
    StripWhitespaceOfStripped(h);
  }

  /** White space anywhere in the name does not show in the handle. */
  lemma HandleIgnoresWhitespace(a: string, w: string, b: string)
    requires forall i :: 0 <= i < |w| ==> IsWhitespace(w[i])
    ensures Handle(Some(a + w + b)) == Handle(Some(a + b))
  {
    var la, lb := Lowercase(a), Lowercase(b);
    StripAllWhitespace(w);
    LowercaseAppend(a + w, b);
    LowercaseAppend(a, w);
    LowercaseAppend(a, b);
    StripWhitespaceAppend(la + w, lb);
    StripWhitespaceAppend(la, w);
    StripWhitespaceAppend(la, lb);
    calc {
      Handle(Some(a + w + b));
      StripWhitespace(la + w + lb);
      StripWhitespace(la) + StripWhitespace(w) + StripWhitespace(lb);
      { assert StripWhitespace(la) + [] == StripWhitespace(la); }
      StripWhitespace(la) + StripWhitespace(lb);
      Handle(Some(a + b));
    }
  }

  class ProfilePage {
    var isEditing: bool
    var profile: Option<User>
    var editedProfile: Edits
    var error: Option<string>
    var successMessage: Option<string>

    /** `handleSave`. Returns the body of the `PUT` request, or `None` when
        no request is made. */
    method HandleSave(response: Result<User>) returns (request: Option<Edits>)
      modifies this
      ensures var changed := ChangedFields(old(editedProfile), old(profile));
        request == (if changed == NO_EDITS then None else Some(changed))
      ensures request.None? ==>
        && !isEditing && error.None?
        && profile == old(profile) && editedProfile == old(editedProfile)
        && successMessage == old(successMessage)
      ensures request.Some? && response.Ok? ==>
        && profile == Some(response.value) && !isEditing && editedProfile == NO_EDITS
        && successMessage == Some(SAVE_DONE) && error.None?
      ensures request.Some? && response.Err? ==>
        && error == Some(SAVE_FAILED)
        && isEditing == old(isEditing) && profile == old(profile) && editedProfile == old(editedProfile)
        && successMessage == old(successMessage)
    {
      error := None;
      var changedFields := ChangedFields(editedProfile, profile);
      if changedFields == NO_EDITS {
        isEditing := false;
        return None;
      }
      request := Some(changedFields);
      if response.Err? {
        error := Some(SAVE_FAILED);
        return;
      }
      profile := Some(response.value);
      isEditing := false;
      editedProfile := NO_EDITS;
      successMessage := Some(SAVE_DONE);
    }

    /** `handleCancel`: drop the edits and leave edit mode. */
    method HandleCancel()
      modifies this
      ensures editedProfile == NO_EDITS && !isEditing
      ensures profile == old(profile) && error == old(error) && successMessage == old(successMessage)
    {
      editedProfile := NO_EDITS;
      isEditing := false;
    }
  }
}
