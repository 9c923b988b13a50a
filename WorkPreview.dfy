/** One work in the moderation queue: the approve button, the reject form with
    its ten-character note rule, and the relative creation time. */
module WorkPreview {
  import opened Base
  import Text
  import TimeAgo

  const NOTE_MIN: nat := 10
  const NOTE_TOO_SHORT: string := "La nota debe tener al menos 10 caracteres"

  /** `getTimeAgo` of the preview for a bucket: "Ahora", "Hace {m}min",
      "Hace {h}h" or "Hace {d}d". */
  function Label(a: TimeAgo.Ago): string {
    match a
    case Now => "Ahora"
    case Minutes(m) => "Hace " + Text.NatToString(m) + "min"
    case Hours(h) => "Hace " + Text.NatToString(h) + "h"
    case Days(d) => "Hace " + Text.NatToString(d) + "d"
  }

  /** `getTimeAgo(created_at)` for an age of `diff` milliseconds. */
  function GetTimeAgo(diff: int): string {
    Label(TimeAgo.Bucket(diff))
  }

  /** Different buckets read differently: the unit is the last character and
      the number reads back. */
  lemma LabelInjective(a: TimeAgo.Ago, b: TimeAgo.Ago)
    requires Label(a) == Label(b)
    ensures a == b
  {
    var s := Label(a);
    assert s[|s| - 1] == Label(b)[|Label(b)| - 1];
    match a
    case Now =>
    case Minutes(m) =>
      Text.AffixCancel("Hace ", Text.NatToString(m), Text.NatToString(b.m), "min");
      Text.NatToStringInjective(m, b.m);
    case Hours(h) =>
      Text.AffixCancel("Hace ", Text.NatToString(h), Text.NatToString(b.h), "h");
      Text.NatToStringInjective(h, b.h);
    case Days(d) =>
      Text.AffixCancel("Hace ", Text.NatToString(d), Text.NatToString(b.d), "d");
      Text.NatToStringInjective(d, b.d);
  }

  /** Two ages get the same label exactly when they fall in the same bucket. */
  lemma SameLabelSameBucket(d1: int, d2: int)
    ensures GetTimeAgo(d1) == GetTimeAgo(d2) <==> TimeAgo.Bucket(d1) == TimeAgo.Bucket(d2)
  {
    if GetTimeAgo(d1) == GetTimeAgo(d2) {
      LabelInjective(TimeAgo.Bucket(d1), TimeAgo.Bucket(d2));
    }
  }

  /** The note rule: a trimmed note of at least ten UTF-16 code units is sent. */
  predicate NoteAccepted(note: string) {
    Text.Utf16Length(Text.Trim(note)) >= NOTE_MIN
  }

  /** Blank padding never helps a note pass. */
  lemma PaddingDoesNotCount(note: string)
    ensures NoteAccepted(note) <==> NoteAccepted(Text.Trim(note))
  {
    Text.TrimIdempotent(note);
  }

  class Preview {
    var showReject: bool
    var rejectNote: string
    var rejectError: string

    constructor ()
      ensures !showReject && rejectNote == "" && rejectError == ""
    {
      showReject, rejectNote, rejectError := false, "", "";
    }

    /** The approve button: disabled while this work is being processed. */
    method Approve(loading: bool) returns (approved: bool)
      ensures approved <==> !showReject && !loading
    {
      approved := !showReject && !loading;
    }

    /** The reject button opens the form; disabled while loading. */
    method OpenReject(loading: bool)
      modifies this`showReject
      ensures showReject == (old(showReject) || !loading)
    {
      if !loading {
        showReject := true;
      }
    }

    method SetNote(note: string)
      modifies this`rejectNote
      ensures rejectNote == if showReject then note else old(rejectNote)
    {
      if showReject {
        rejectNote := note;
      }
    }

    /** `handleReject()` behind the confirm button (disabled while loading): a
        short note sets the error and sends nothing; otherwise the error is
        cleared and the trimmed note is sent. */
    method ConfirmReject(loading: bool) returns (sent: Option<string>)
      modifies this`rejectError
      ensures !showReject || loading ==> sent.None? && rejectError == old(rejectError)
      ensures showReject && !loading && !NoteAccepted(rejectNote) ==>
        sent.None? && rejectError == NOTE_TOO_SHORT
      ensures showReject && !loading && NoteAccepted(rejectNote) ==>
        sent == Some(Text.Trim(rejectNote)) && rejectError == ""
      ensures sent.Some? ==> Text.Utf16Length(sent.value) >= NOTE_MIN && Text.Trimmed(sent.value)
    {
      sent := None;
      if !showReject || loading {
        return;
      }
      if Text.Utf16Length(Text.Trim(rejectNote)) < NOTE_MIN {
        rejectError := NOTE_TOO_SHORT;
        return;
      }
      rejectError := "";
      sent := Some(Text.Trim(rejectNote));
    }

    /** Cancel (disabled while loading) hides the form and clears note and error. */
    method Cancel(loading: bool)
      modifies this
      ensures loading ==>
        showReject == old(showReject) && rejectNote == old(rejectNote) && rejectError == old(rejectError)
      ensures !loading ==> !showReject && rejectNote == "" && rejectError == ""
    {
      if !loading {
        showReject, rejectNote, rejectError := false, "", "";
      }
    }
  }
}
