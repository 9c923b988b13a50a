/** Uploading a profile picture: size and type checks, the storage path and the
    call to the avatar bucket (a supplied outcome). */
module Avatar {
  import opened Base
  import Text
  import ProfileTypes
  import Storage

  /** `{ url, error }`: the public url with a null error, or a null url with a message. */
  datatype AvatarResult = AvatarResult(url: Option<string>, error: Option<string>)

  const SIZE_ERROR: string := "La imagen supera " + Text.NatToString(ProfileTypes.AVATAR_MAX_SIZE_MB) + "MB"
  const TYPE_ERROR: string := "Formato no soportado. Usa JPG, PNG o WebP"
  const UPLOAD_ERROR: string := "Error al subir el avatar"

  predicate ValidType(mime: string) {
    mime in ["image/jpeg", "image/png", "image/webp"]
  }

  /** Size first, then type. */
  function Validate(f: File): (e: Option<string>)
    ensures f.size > ProfileTypes.AVATAR_MAX_SIZE_BYTES ==> e == Some(SIZE_ERROR)
    ensures f.size <= ProfileTypes.AVATAR_MAX_SIZE_BYTES && !ValidType(f.mime) ==> e == Some(TYPE_ERROR)
    ensures e.None? <==> f.size <= ProfileTypes.AVATAR_MAX_SIZE_BYTES && ValidType(f.mime)
  {
    if f.size > ProfileTypes.AVATAR_MAX_SIZE_BYTES then Some(SIZE_ERROR)
    else if !ValidType(f.mime) then Some(TYPE_ERROR)
    else None
  }

  /** A GIF is refused as an avatar although it is accepted as a work image. */
  lemma GifOnlyForWorks(name: string, size: nat)
    requires size <= ProfileTypes.AVATAR_MAX_SIZE_BYTES
    ensures Validate(File(name, "image/gif", size)) == Some(TYPE_ERROR)
    ensures Storage.Validate(File(name, "image/gif", size)).None?
  {
  }

  /** `${userId}/avatar-${timestamp}.${ext}`, with the same extension rule as work images. */
  function AvatarPath(userId: string, timestamp: nat, name: string): string {
    userId + "/avatar-" + Text.NatToString(timestamp) + "." + Storage.Extension(name)
  }

  /** The path is one folder per user, and its extension reads back. */
  lemma AvatarPathParts(userId: string, timestamp: nat, name: string)
    requires '/' !in userId && '/' !in Storage.Extension(name)
    ensures Text.Split(AvatarPath(userId, timestamp, name), '/')
      == [userId, "avatar-" + Text.NatToString(timestamp) + "." + Storage.Extension(name)]
    ensures Text.AfterLast(AvatarPath(userId, timestamp, name), '.') == Storage.Extension(name)
  {
    var ext := Storage.Extension(name);
    var t := Text.NatToString(timestamp);
    Text.DigitsOnly(timestamp, '/');
    var file := "avatar-" + t + "." + ext;
    assert '/' !in file by {
      assert file == "avatar-" + t + "." + ext;
      assert forall i :: 0 <= i < |"avatar-"| ==> "avatar-"[i] != '/';
    }
    assert AvatarPath(userId, timestamp, name) == userId + ['/'] + file;
    Text.SplitCons(userId, file, '/');
    Text.SplitNoSeparator(file, '/');
    assert AvatarPath(userId, timestamp, name) == (userId + "/avatar-" + t) + ['.'] + ext;
    Text.AfterLastSuffix(userId + "/avatar-" + t, ext, '.');
  }

  /** `uploadAvatar(file, userId)`. A validation failure makes no storage call;
      success gives the public url and no error; every failure gives no url.
      The second component is the path handed to the bucket, if any. */
  function UploadAvatar(f: File, userId: string, now: nat, uploadError: Option<Thrown>,
                        publicUrl: string -> string): (out: (AvatarResult, Option<string>))
    ensures Validate(f).Some? ==> out.0 == AvatarResult(None, Validate(f)) && out.1.None?
    ensures out.1.Some? <==> Validate(f).None?
    ensures out.1.Some? ==> out.1.value == AvatarPath(userId, now, f.name)
    ensures out.0.url.Some? <==> out.0.error.None?
    ensures out.0.url.Some? <==> Validate(f).None? && uploadError.None?
    ensures out.0.url.Some? ==> out.0.url.value == publicUrl(out.1.value)
    ensures out.1.Some? && uploadError.Some? ==> out.0.error == Some(MessageOr(uploadError.value, UPLOAD_ERROR))
  {
    match Validate(f)
    case Some(e) => (AvatarResult(None, Some(e)), None)
    case None =>
      var path := AvatarPath(userId, now, f.name);
      match uploadError
      case Some(t) => (AvatarResult(None, Some(MessageOr(t, UPLOAD_ERROR))), Some(path))
      case None => (AvatarResult(Some(publicUrl(path)), None), Some(path))
  }
}
