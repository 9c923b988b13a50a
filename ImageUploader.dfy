/** The selected-file list of the work upload form: adding dropped or picked
    files, removing one, moving one, and whether more may be added. */
module ImageUploader {
  import opened Base
  import Seqs
  import WorkTypes

  /** The MIME types the picker keeps. */
  predicate AcceptedType(mime: string) {
    mime in ["image/jpeg", "image/png", "image/webp", "image/gif"]
  }

  /** A new file is kept when its type is accepted and it is within the size limit. */
  predicate Accepted(f: File) {
    AcceptedType(f.mime) && f.size <= WorkTypes.IMAGE_MAX_SIZE_BYTES
  }

  /** `handleFiles(newFiles)`: no list leaves the selection as it is; otherwise
      the accepted new files are appended, in their order, and the whole list is
      cut to `IMAGES_MAX`. */
  function HandleFiles(files: seq<File>, newFiles: Option<seq<File>>): (r: seq<File>)
    ensures newFiles.None? ==> r == files
    ensures newFiles.Some? ==> |r| <= WorkTypes.IMAGES_MAX
    ensures newFiles.Some? && |files| <= WorkTypes.IMAGES_MAX ==>
      |files| <= |r| && r[..|files|] == files
    ensures newFiles.Some? ==> forall i :: |files| <= i < |r| ==> Accepted(r[i])
    ensures newFiles.Some? ==>
      |r| == if |files| + |Seqs.Filter(newFiles.value, Accepted)| < WorkTypes.IMAGES_MAX
             then |files| + |Seqs.Filter(newFiles.value, Accepted)|
             else WorkTypes.IMAGES_MAX
  {
    match newFiles
    case None => files
    case Some(incoming) =>
      var accepted := Seqs.Filter(incoming, Accepted);
      var combined := files + accepted;
      assert forall i :: |files| <= i < |combined| ==> combined[i] == accepted[i - |files|];
      Seqs.Take(combined, WorkTypes.IMAGES_MAX)
  }

  /** The accepted files that made it into the list keep their relative order
      from the input: they form a subsequence of it. */
  lemma HandleFilesKeepsOrder(files: seq<File>, incoming: seq<File>)
    requires |files| <= WorkTypes.IMAGES_MAX
    ensures Seqs.SubsequenceOf(HandleFiles(files, Some(incoming))[|files|..], incoming)
  {
    var accepted := Seqs.Filter(incoming, Accepted);
    var r := HandleFiles(files, Some(incoming));
    assert r == (files + accepted)[..|r|];
    assert r[|files|..] == accepted[..|r| - |files|];
    Seqs.FilterIsSubsequence(incoming, Accepted);
    PrefixOfSubsequence(accepted, incoming, |r| - |files|);
  }

  /** With room left, the survivors are exactly the first accepted new files,
      as many as fit under `IMAGES_MAX`. */
  lemma HandleFilesSurvivors(files: seq<File>, incoming: seq<File>)
    requires |files| <= WorkTypes.IMAGES_MAX
    ensures HandleFiles(files, Some(incoming))[|files|..]
      == Seqs.Take(Seqs.Filter(incoming, Accepted), WorkTypes.IMAGES_MAX - |files|)
  {
    var accepted := Seqs.Filter(incoming, Accepted);
    var r := HandleFiles(files, Some(incoming));
    assert r == (files + accepted)[..|r|];
    assert r[|files|..] == accepted[..|r| - |files|];
  }

  lemma {:induction false} PrefixOfSubsequence<T>(a: seq<T>, b: seq<T>, k: nat)
    requires k <= |a| && Seqs.SubsequenceOf(a, b)
    ensures Seqs.SubsequenceOf(a[..k], b)
    decreases |b|
  {
    if k > 0 && b != [] {
      if a[0] == b[0] {
        PrefixOfSubsequence(a[1..], b[1..], k - 1);
        assert a[..k][1..] == a[1..][..k - 1];
      } else {
        PrefixOfSubsequence(a, b[1..], k);
      }
    }
  }

  /** While there is room, every accepted new file is added, and nothing else. */
  lemma HandleFilesWithRoom(files: seq<File>, incoming: seq<File>)
    requires |files| + |Seqs.Filter(incoming, Accepted)| <= WorkTypes.IMAGES_MAX
    ensures HandleFiles(files, Some(incoming)) == files + Seqs.Filter(incoming, Accepted)
  {
  }

  /** The elements of `s` whose position (counted from `start`) is not `index`:
      `s.filter((_, i) => i !== index)`. */
  function DropIndex(s: seq<File>, index: int, start: int): (r: seq<File>)
    ensures start <= index < start + |s| ==>
      r == s[..index - start] + s[index - start + 1..]
    ensures !(start <= index < start + |s|) ==> r == s
  {
    if s == [] then []
    else (if start == index then [] else [s[0]]) + DropIndex(s[1..], index, start + 1)
  }

  /** `removeFile(index)`: only that position goes; an index outside the list
      removes nothing. */
  function RemoveFile(files: seq<File>, index: int): (r: seq<File>)
    ensures 0 <= index < |files| ==>
      |r| == |files| - 1
      && (forall i :: 0 <= i < index ==> r[i] == files[i])
      && (forall i :: index <= i < |r| ==> r[i] == files[i + 1])
    ensures !(0 <= index < |files|) ==> r == files
  {
    DropIndex(files, index, 0)
  }

  /** `moveFile(from, to)`: a destination outside the list is ignored; otherwise
      a copy of the list has the file at `from` cut out and put back in at `to`.
      The result is a permutation with the moved file at `to`, and the other
      files in their old relative order. */
  method MoveFile(files: seq<File>, from: nat, to: int) returns (r: seq<File>)
    requires from < |files|
    ensures !(0 <= to < |files|) ==> r == files
    ensures 0 <= to < |files| ==>
      |r| == |files| && multiset(r) == multiset(files) && r[to] == files[from]
      && RemoveFile(r, to) == RemoveFile(files, from)
  {
    if to < 0 || to >= |files| {
      return files;
    }
    var updated := files;
    var moved := updated[from];
    updated := updated[..from] + updated[from + 1..];
    ghost var rest := updated;
    updated := updated[..to] + [moved] + updated[to..];
    assert updated[..to] + updated[to + 1..] == rest;
    assert files == files[..from] + [moved] + files[from + 1..];
    assert multiset(files) == multiset(rest) + multiset{moved};
    assert rest == rest[..to] + rest[to..];
    assert multiset(updated) == multiset(rest[..to]) + multiset{moved} + multiset(rest[to..]);
    r := updated;
  }

  /** `canAdd`: more files may be picked while the list is below `IMAGES_MAX`. */
  predicate CanAdd(files: seq<File>) {
    |files| < WorkTypes.IMAGES_MAX
  }

  /** A full list absorbs every new file; a list with room takes an accepted one. */
  lemma CanAddDecides(files: seq<File>, f: File)
    requires |files| <= WorkTypes.IMAGES_MAX
    ensures !CanAdd(files) ==> HandleFiles(files, Some([f])) == files
    ensures CanAdd(files) && Accepted(f) ==> HandleFiles(files, Some([f])) == files + [f]
    ensures !Accepted(f) ==> HandleFiles(files, Some([f])) == files
  {
    assert Seqs.Filter([f], Accepted) == if Accepted(f) then [f] else [];
  }
}
