/** The profile editor: the avatar picker, the capped category toggle, the
    validity gate and the save handler with its `saving`/`error`/`success`
    flags. The avatar upload and the profile update are supplied outcomes. */
module EditProfile {
  import opened Base
  import Seqs
  import Text
  import ProfileTypes
  import Avatar
  import Onboarding

  const AVATAR_TOO_LARGE: string := "La imagen supera " + Text.NatToString(ProfileTypes.AVATAR_MAX_SIZE_MB) + "MB"
  const SAVE_ERROR: string := "Error al guardar"

  /** `text || null`: the empty string is stored as null. */
  function OrNull(text: string): (r: Option<string>)
    ensures r.None? <==> text == ""
    ensures r.Some? ==> r.value == text
  {
    if text == "" then None else Some(text)
  }

  /** `isValid`: a name of two UTF-16 code units or more once trimmed, a bio within
      bounds (untrimmed) and one or two categories. School and career year are
      not consulted. */
  predicate IsValid(fullName: string, bio: string, categories: seq<string>) {
    Text.Utf16Length(Text.Trim(fullName)) >= 2
    && ProfileTypes.BIO_MIN <= Text.Utf16Length(bio) <= ProfileTypes.BIO_MAX
    && ProfileTypes.CATEGORIES_MIN <= |categories| <= ProfileTypes.CATEGORIES_MAX
  }

  /** Whatever passed the onboarding gates also passes the editor's gate: the
      editor asks for less (no school, no career year). */
  lemma OnboardedIsValid(fullName: string, username: string, bio: string, school: string,
                         careerYear: string, categories: seq<string>)
    requires Onboarding.IdentityFilled(fullName, username)
    requires Onboarding.CanStep3(bio, school, careerYear)
    requires Onboarding.CanSubmit(categories)
    ensures IsValid(fullName, bio, categories)
  {
  }

  /** The converse fails: a profile whose name, bio and categories pass the
      onboarding gates but whose school is empty is accepted by the editor and
      refused by onboarding's step-2 gate. */
  lemma EditorAcceptsNoSchool(fullName: string, username: string, bio: string,
                              categories: seq<string>, careerYear: string)
    requires Onboarding.IdentityFilled(fullName, username) && Onboarding.CanSubmit(categories)
    requires ProfileTypes.BIO_MIN <= Text.Utf16Length(bio) <= ProfileTypes.BIO_MAX
    ensures IsValid(fullName, bio, categories)
    ensures !Onboarding.CanStep3(bio, "", careerYear)
  {
    Text.TrimEmpty("");
  }

  /** The update sent to `profiles`; `rowId` is the id the update is
      restricted to (`.eq("id", profile.id)`). */
  datatype ProfileEdit = ProfileEdit(rowId: string, fullName: string, avatarUrl: Option<string>, bio: string,
                                     school: Option<string>, careerYear: Option<string>,
                                     categories: seq<string>)

  class Editor {
    const profileId: string
    /** `profile.avatar_url`, kept unless a new picture is uploaded. */
    const profileAvatarUrl: Option<string>
    var fullName: string
    var avatarFile: Option<File>
    var bio: string
    var school: string
    var careerYear: string
    var categories: seq<string>
    var saving: bool
    var error: string
    var success: bool

    /** The form is seeded from the stored profile; absent texts start empty. */
    constructor (id: string, name: string, avatarUrl: Option<string>, storedBio: Option<string>,
                 storedSchool: Option<string>, storedYear: Option<string>, storedCategories: Option<seq<string>>)
      ensures profileId == id && profileAvatarUrl == avatarUrl && fullName == name && avatarFile == None
      ensures bio == storedBio.GetOr("") && school == storedSchool.GetOr("")
      ensures careerYear == storedYear.GetOr("") && categories == storedCategories.GetOr([])
      ensures !saving && error == "" && !success
    {
      profileId, profileAvatarUrl, fullName, avatarFile := id, avatarUrl, name, None;
      bio, school, careerYear := storedBio.GetOr(""), storedSchool.GetOr(""), storedYear.GetOr("");
      categories := storedCategories.GetOr([]);
      saving, error, success := false, "", false;
    }

    /** `handleAvatarChange`: no file does nothing; an oversize file sets the
        error and the previous choice stays; any other file is taken. */
    method HandleAvatarChange(file: Option<File>)
      modifies this`avatarFile, this`error
      ensures file.None? ==> avatarFile == old(avatarFile) && error == old(error)
      ensures file.Some? && file.value.size > ProfileTypes.AVATAR_MAX_SIZE_BYTES ==>
        avatarFile == old(avatarFile) && error == AVATAR_TOO_LARGE
      ensures file.Some? && file.value.size <= ProfileTypes.AVATAR_MAX_SIZE_BYTES ==>
        avatarFile == file && error == old(error)
    {
      if file.None? {
        return;
      }
      if file.value.size > ProfileTypes.AVATAR_MAX_SIZE_BYTES {
        error := AVATAR_TOO_LARGE;
        return;
      }
      avatarFile := file;
    }

    /** `toggleCategory(cat)`, capped at `CATEGORIES_MAX` exactly as in
        onboarding; a list within the cap stays within it, without repeats. */
    method ToggleCategory(cat: string)
      modifies this`categories
      ensures categories == Onboarding.ToggleBounded(old(categories), cat, ProfileTypes.CATEGORIES_MAX)
      ensures Seqs.NoDuplicates(old(categories)) && |old(categories)| <= ProfileTypes.CATEGORIES_MAX ==>
        Seqs.NoDuplicates(categories) && |categories| <= ProfileTypes.CATEGORIES_MAX
    {
      if Seqs.NoDuplicates(categories) && |categories| <= ProfileTypes.CATEGORIES_MAX {
        Onboarding.ToggleBoundedKeepsBounds(categories, cat, ProfileTypes.CATEGORIES_MAX);
      }
      categories := Onboarding.ToggleBounded(categories, cat, ProfileTypes.CATEGORIES_MAX);
    }

    /** `handleSave()`. Nothing happens when the form is invalid or a save is
        under way. Otherwise the flags are cleared, a chosen picture is
        uploaded first (its failure stops the save), the trimmed texts are
        sent, and `saving` ends false on every path. `avatarPath` is the path
        handed to the bucket and `update` what was sent, if anything. */
    method HandleSave(now: nat, uploadError: Option<Thrown>, publicUrl: string -> string,
                      updateError: Option<Thrown>)
      returns (avatarPath: Option<string>, update: Option<ProfileEdit>)
      modifies this`saving, this`error, this`success
      ensures !IsValid(fullName, bio, categories) || old(saving) ==>
        saving == old(saving) && error == old(error) && success == old(success)
        && avatarPath.None? && update.None?
      ensures IsValid(fullName, bio, categories) && !old(saving) ==> !saving
      ensures avatarPath.Some? ==> avatarFile.Some?
      ensures avatarFile.Some? && IsValid(fullName, bio, categories) && !old(saving) ==>
        var out := Avatar.UploadAvatar(avatarFile.value, profileId, now, uploadError, publicUrl);
        avatarPath == out.1
        && (Truthy(out.0.error) ==> update.None? && error == out.0.error.value && !success)
      ensures update.Some? <==>
        IsValid(fullName, bio, categories) && !old(saving)
        && (avatarFile.None? || !Truthy(Avatar.UploadAvatar(avatarFile.value, profileId, now, uploadError, publicUrl).0.error))
      ensures update.Some? ==>
        update.value == ProfileEdit(profileId, Text.Trim(fullName),
          if avatarFile.Some?
          then Avatar.UploadAvatar(avatarFile.value, profileId, now, uploadError, publicUrl).0.url
          else profileAvatarUrl,
          Text.Trim(bio), OrNull(Text.Trim(school)), OrNull(careerYear), categories)
      ensures update.Some? && updateError.Some? ==>
        error == MessageOr(updateError.value, SAVE_ERROR) && !success
      ensures update.Some? && updateError.None? ==> error == "" && success
      ensures success && !old(success) ==> update.Some? && updateError.None?
    {
      avatarPath, update := None, None;
      if !IsValid(fullName, bio, categories) || saving {
        return;
      }
      saving, error, success := true, "", false;
      var avatarUrl := profileAvatarUrl;
      if avatarFile.Some? {
        var out := Avatar.UploadAvatar(avatarFile.value, profileId, now, uploadError, publicUrl);
        avatarPath := out.1;
        if Truthy(out.0.error) {
          error := out.0.error.value;
          saving := false;
          return;
        }
        avatarUrl := out.0.url;
      }
      update := Some(ProfileEdit(profileId, Text.Trim(fullName), avatarUrl, Text.Trim(bio),
                                 OrNull(Text.Trim(school)), OrNull(careerYear), categories));
      if updateError.Some? {
        error := MessageOr(updateError.value, SAVE_ERROR);
        saving := false;
        return;
      }
      success := true;
      saving := false;
    }

    /** The two-second timer a successful save schedules: it refreshes the
        route, then hides the notice. */
    method SuccessExpires() returns (refreshed: bool)
      modifies this`success
      ensures refreshed && !success
    {
      refreshed := true;
      success := false;
    }
  }
}
