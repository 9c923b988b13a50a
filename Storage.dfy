/** Uploading the images of a work: per-file validation, the storage path, the
    call to the storage bucket (a supplied outcome) and the merge of all
    per-file results into images and error messages. */
module Storage {
  import opened Base
  import Seqs
  import Text
  import WorkTypes
  import ImageUploader

  /** A stored image as it goes into the work's `images` column. */
  datatype WorkImage = WorkImage(url: string, width: int, height: int, mime: string, order: nat)

  /** Each per-file result carries exactly one of an image or an error message. */
  datatype UploadResult = Uploaded(image: WorkImage) | Failed(error: string)

  datatype Dimensions = Dimensions(width: int, height: int)

  const SIZE_ERROR: string := "La imagen supera " + Text.NatToString(WorkTypes.IMAGE_MAX_SIZE_MB) + "MB"
  const TYPE_ERROR: string := "Formato no soportado. Usa JPG, PNG, WebP o GIF"
  const READ_ERROR: string := "No se pudo leer la imagen"
  const UPLOAD_ERROR: string := "Error al subir la imagen"

  predicate ValidType(mime: string) {
    mime in ["image/jpeg", "image/png", "image/webp", "image/gif"]
  }

  /** The checks before any storage call: size first, then type. */
  function Validate(f: File): (e: Option<string>)
    ensures f.size > WorkTypes.IMAGE_MAX_SIZE_BYTES ==> e == Some(SIZE_ERROR)
    ensures f.size <= WorkTypes.IMAGE_MAX_SIZE_BYTES && !ValidType(f.mime) ==> e == Some(TYPE_ERROR)
    ensures e.None? <==> f.size <= WorkTypes.IMAGE_MAX_SIZE_BYTES && ValidType(f.mime)
  {
    if f.size > WorkTypes.IMAGE_MAX_SIZE_BYTES then Some(SIZE_ERROR)
    else if !ValidType(f.mime) then Some(TYPE_ERROR)
    else None
  }

  /** The upload validation lets through exactly what the picker keeps. */
  lemma ValidateAgreesWithPicker(f: File)
    ensures Validate(f).None? <==> ImageUploader.Accepted(f)
  {
  }

  /** `name.split(".").pop()?.toLowerCase() || "jpg"`: the lowercased text after
      the last dot, or "jpg" when that text is empty. */
  function Extension(name: string): (ext: string)
    ensures ext != "" && '.' !in ext
  {
    var last := Text.Lower(Text.AfterLast(name, '.'));
    LowerKeepsAbsence(Text.AfterLast(name, '.'), '.');
    if last == "" then "jpg" else last
  }

  lemma LowerKeepsAbsence(s: string, c: char)
    requires c !in s && !('A' <= c <= 'Z') && !('a' <= c <= 'z')
    ensures c !in Text.Lower(s)
  {
  }

  /** The extension of `base.ext` is `ext` lowercased, whatever `base` is. */
  lemma ExtensionOfDotted(base: string, ext: string)
    requires ext != "" && '.' !in ext
    ensures Extension(base + "." + ext) == Text.Lower(ext)
  {
    Text.AfterLastSuffix(base, ext, '.');
  }

  /** A name without a dot is its own extension; a name ending in a dot gets "jpg". */
  lemma ExtensionEdgeCases(name: string)
    ensures name != "" && '.' !in name ==> Extension(name) == Text.Lower(name)
    ensures Extension(name + ".") == "jpg"
  {
    if '.' !in name {
      Text.SplitNoSeparator(name, '.');
    }
    Text.AfterLastSuffix(name, "", '.');
    assert name + "." == name + ['.'] + "";
  }

  /** `${order}-${timestamp}.${ext}`. */
  function FileName(order: nat, timestamp: nat, ext: string): string {
    Text.NatToString(order) + "-" + Text.NatToString(timestamp) + "." + ext
  }

  /** `${userId}/${workId}/${fileName}`. */
  function StoragePath(userId: string, workId: string, order: nat, timestamp: nat, ext: string): string {
    userId + "/" + workId + "/" + FileName(order, timestamp, ext)
  }

  /** The path reads back into its parts: three segments, and a file name whose
      text before the first '-' is the order and after the last '.' the extension. */
  lemma StoragePathParts(userId: string, workId: string, order: nat, timestamp: nat, ext: string)
    requires '/' !in userId && '/' !in workId && '/' !in ext && '.' !in ext
    ensures Text.Split(StoragePath(userId, workId, order, timestamp, ext), '/')
      == [userId, workId, FileName(order, timestamp, ext)]
    ensures Text.BeforeFirst(FileName(order, timestamp, ext), '-') == Text.NatToString(order)
    ensures Text.AfterLast(FileName(order, timestamp, ext), '.') == ext
  {
    var o, t := Text.NatToString(order), Text.NatToString(timestamp);
    Text.DigitsOnly(order, '/');
    Text.DigitsOnly(timestamp, '/');
    Text.DigitsOnly(order, '-');
    var name := FileName(order, timestamp, ext);
    assert '/' !in name by {
      assert name == o + "-" + t + "." + ext;
    }
    var parts := [userId, workId, name];
    assert Text.Join(parts, '/') == StoragePath(userId, workId, order, timestamp, ext) by {
      assert Text.Join(parts[2..], '/') == name;
      assert Text.Join(parts[1..], '/') == workId + "/" + name;
    }
    Text.SplitJoin(parts, '/');
    assert name == o + ['-'] + (t + "." + ext);
    Text.SplitCons(o, t + "." + ext, '-');
    assert name == (o + "-" + t) + ['.'] + ext;
    Text.AfterLastSuffix(o + "-" + t, ext, '.');
  }

  /** Files of one work get distinct paths whenever their orders differ, even
      when they are stored in the same millisecond. */
  lemma StoragePathsDistinct(userId: string, workId: string, o1: nat, o2: nat, t1: nat, t2: nat, e1: string, e2: string)
    requires '/' !in userId && '/' !in workId && '/' !in e1 && '.' !in e1 && '/' !in e2 && '.' !in e2
    requires StoragePath(userId, workId, o1, t1, e1) == StoragePath(userId, workId, o2, t2, e2)
    ensures o1 == o2
  {
    StoragePathParts(userId, workId, o1, t1, e1);
    StoragePathParts(userId, workId, o2, t2, e2);
    Text.NatToStringInjective(o1, o2);
  }

  /** `uploadWorkImage(file, userId, workId, order)`. The current time, the
      decoded dimensions (`None`: the image could not be read), the storage
      outcome (`Some(thrown)`: the upload failed) and the public-URL lookup are
      supplied. Besides the result, the path handed to the storage bucket is
      returned; `None` means no upload was attempted. */
  function UploadWorkImage(f: File, userId: string, workId: string, order: nat, now: nat,
                           dims: Option<Dimensions>, uploadError: Option<Thrown>,
                           publicUrl: string -> string): (out: (UploadResult, Option<string>))
    ensures Validate(f).Some? ==> out.0 == Failed(Validate(f).value) && out.1.None?
    ensures Validate(f).None? && dims.None? ==> out.0 == Failed(READ_ERROR) && out.1.None?
    ensures out.1.Some? <==> Validate(f).None? && dims.Some?
    ensures out.1.Some? ==> out.1.value == StoragePath(userId, workId, order, now, Extension(f.name))
    ensures out.0.Uploaded? <==> out.1.Some? && uploadError.None?
    ensures out.0.Uploaded? ==>
      out.0.image == WorkImage(publicUrl(out.1.value), dims.value.width, dims.value.height, f.mime, order)
    ensures out.1.Some? && uploadError.Some? ==> out.0 == Failed(MessageOr(uploadError.value, UPLOAD_ERROR))
  {
    match Validate(f)
    case Some(e) => (Failed(e), None)
    case None =>
      match dims
      case None => (Failed(READ_ERROR), None)
      case Some(d) =>
        var path := StoragePath(userId, workId, order, now, Extension(f.name));
        match uploadError
        case Some(t) => (Failed(MessageOr(t, UPLOAD_ERROR)), Some(path))
        case None => (Uploaded(WorkImage(publicUrl(path), d.width, d.height, f.mime, order)), Some(path))
  }

  /** The results of `files.map((file, i) => uploadWorkImage(file, userId, workId, i))`,
      collected by index. The oracles give one outcome per file, and the clock
      reading each call takes. */
  function Results(files: seq<File>, userId: string, workId: string, nows: seq<nat>,
                   dims: seq<Option<Dimensions>>, uploadErrors: seq<Option<Thrown>>,
                   publicUrl: string -> string): (rs: seq<UploadResult>)
    requires |nows| == |files| && |dims| == |files| && |uploadErrors| == |files|
    ensures |rs| == |files|
    ensures OrderedByIndex(rs)
  {
    seq(|files|, i requires 0 <= i < |files| =>
      UploadWorkImage(files[i], userId, workId, i, nows[i], dims[i], uploadErrors[i], publicUrl).0)
  }

  /** Every successful result at position `i` carries order `i`. */
  ghost predicate OrderedByIndex(rs: seq<UploadResult>) {
    forall i :: 0 <= i < |rs| && rs[i].Uploaded? ==> rs[i].image.order == i
  }

  /** The images the results loop pushes, in the order it meets them. */
  function ImagesOf(rs: seq<UploadResult>): seq<WorkImage> {
    if rs == [] then []
    else
      var last := rs[|rs| - 1];
      ImagesOf(rs[..|rs| - 1]) + (if last.Uploaded? then [last.image] else [])
  }

  /** The error messages the loop pushes: only the truthy ones. */
  function ErrorsOf(rs: seq<UploadResult>): seq<string> {
    if rs == [] then []
    else
      var last := rs[|rs| - 1];
      ErrorsOf(rs[..|rs| - 1]) + (if last.Failed? && last.error != "" then [last.error] else [])
  }

  function OrderOf(im: WorkImage): int { im.order }

  /** The pushed images already stand in strictly increasing order, each order a
      position whose result succeeded. */
  lemma {:induction false} ImagesOfOrdered(rs: seq<UploadResult>)
    requires OrderedByIndex(rs)
    ensures forall k :: 0 <= k < |ImagesOf(rs)| ==>
      ImagesOf(rs)[k].order < |rs| && rs[ImagesOf(rs)[k].order] == Uploaded(ImagesOf(rs)[k])
    ensures forall k, l :: 0 <= k < l < |ImagesOf(rs)| ==> ImagesOf(rs)[k].order < ImagesOf(rs)[l].order
  {
    if rs != [] {
      var init := rs[..|rs| - 1];
      assert OrderedByIndex(init) by {
        forall i | 0 <= i < |init| && init[i].Uploaded? ensures init[i].image.order == i {
          assert init[i] == rs[i];
        }
      }
      ImagesOfOrdered(init);
      forall k | 0 <= k < |ImagesOf(init)|
        ensures rs[ImagesOf(init)[k].order] == Uploaded(ImagesOf(init)[k])
      {
        assert rs[ImagesOf(init)[k].order] == init[ImagesOf(init)[k].order];
      }
    }
  }

  /** No successful upload is lost: each one's image is among the pushed images.
      With `ImagesOfOrdered`, the images are exactly the successful uploads, in
      the order of the files. */
  lemma {:induction false} ImagesOfComplete(rs: seq<UploadResult>)
    ensures forall i :: 0 <= i < |rs| && rs[i].Uploaded? ==> rs[i].image in ImagesOf(rs)
    ensures (exists i :: 0 <= i < |rs| && rs[i].Uploaded?) <==> ImagesOf(rs) != []
  {
    if rs != [] {
      var init := rs[..|rs| - 1];
      ImagesOfComplete(init);
      forall i | 0 <= i < |init| && init[i].Uploaded? ensures rs[i].image in ImagesOf(rs) {
        assert init[i] == rs[i];
      }
      if ImagesOf(init) != [] {
        var i :| 0 <= i < |init| && init[i].Uploaded?;
        assert rs[i] == init[i];
      }
    }
  }

  predicate IsUploaded(r: UploadResult) { r.Uploaded? }

  /** One image per successful result, position by position: the k-th image is
      the image of the k-th successful upload. */
  lemma {:induction false} ImagesOfSuccesses(rs: seq<UploadResult>)
    ensures |ImagesOf(rs)| == |Seqs.Filter(rs, IsUploaded)|
    ensures forall k :: 0 <= k < |ImagesOf(rs)| ==> Seqs.Filter(rs, IsUploaded)[k] == Uploaded(ImagesOf(rs)[k])
  {
    if rs != [] {
      var init, last := rs[..|rs| - 1], rs[|rs| - 1];
      ImagesOfSuccesses(init);
      assert rs == init + [last];
      Seqs.FilterConcat(init, [last], IsUploaded);
      assert Seqs.Filter([last], IsUploaded) == if last.Uploaded? then [last] else [] by {
        assert [last][1..] == [];
      }
    }
  }

  /** The collected errors are exactly the non-empty messages of the failed
      uploads. */
  lemma {:induction false} ErrorsOfSpec(rs: seq<UploadResult>)
    ensures forall e :: e in ErrorsOf(rs) <==> e != "" && Failed(e) in rs
  {
    if rs != [] {
      var init := rs[..|rs| - 1];
      ErrorsOfSpec(init);
      assert rs == init + [rs[|rs| - 1]];
    }
  }

  /** Every successful upload yields an image and every failure with a message an
      error, so with non-empty messages the two lists together account for
      every file. */
  lemma {:induction false} ImagesAndErrorsCount(rs: seq<UploadResult>)
    ensures |ImagesOf(rs)| + |ErrorsOf(rs)| <= |rs|
    ensures (forall i :: 0 <= i < |rs| && rs[i].Failed? ==> rs[i].error != "") ==>
      |ImagesOf(rs)| + |ErrorsOf(rs)| == |rs|
  {
    if rs != [] {
      var init := rs[..|rs| - 1];
      ImagesAndErrorsCount(init);
      if forall i :: 0 <= i < |rs| && rs[i].Failed? ==> rs[i].error != "" {
        assert forall i :: 0 <= i < |init| && init[i].Failed? ==> init[i].error != "" by {
          forall i | 0 <= i < |init| && init[i].Failed? ensures init[i].error != "" {
            assert init[i] == rs[i];
          }
        }
      }
    }
  }

  /** `uploadWorkImages(files, userId, workId)`: the per-file results are walked
      in order, pushing each image and each truthy error, and the images are then
      sorted by `order`. The images are exactly the successful uploads, by
      selection index; the errors keep the order of the files that failed. */
  method UploadWorkImages(files: seq<File>, userId: string, workId: string, nows: seq<nat>,
                          dims: seq<Option<Dimensions>>, uploadErrors: seq<Option<Thrown>>,
                          publicUrl: string -> string)
    returns (images: seq<WorkImage>, errors: seq<string>)
    requires |nows| == |files| && |dims| == |files| && |uploadErrors| == |files|
    ensures var rs := Results(files, userId, workId, nows, dims, uploadErrors, publicUrl);
      images == ImagesOf(rs) && errors == ErrorsOf(rs)
    ensures forall k, l :: 0 <= k < l < |images| ==> images[k].order < images[l].order
    ensures forall k :: 0 <= k < |images| ==>
      images[k].order < |files| && images[k].mime == files[images[k].order].mime
  {
    var results := Results(files, userId, workId, nows, dims, uploadErrors, publicUrl);
    images, errors := [], [];
    var i := 0;
    while i < |results|
      invariant 0 <= i <= |results|
      invariant images == ImagesOf(results[..i])
      invariant errors == ErrorsOf(results[..i])
    {
      assert results[..i + 1][..i] == results[..i];
      var result := results[i];
      if result.Uploaded? {
        images := images + [result.image];
      }
      if result.Failed? && result.error != "" {
        errors := errors + [result.error];
      }
      i := i + 1;
    }
    assert results[..|results|] == results;
    ImagesOfOrdered(results);
    Seqs.SortBySorted(images, OrderOf);
    images := Seqs.SortBy(images, OrderOf);
    forall k | 0 <= k < |images|
      ensures images[k].mime == files[images[k].order].mime
    {
      var o := images[k].order;
      assert results[o] == UploadWorkImage(files[o], userId, workId, o, nows[o], dims[o], uploadErrors[o], publicUrl).0;
    }
  }
}
