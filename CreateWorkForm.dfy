/** The three-step form for a new work (images, details, preview): the tag
    parser, the gates between steps, the step indicator and the publish
    request it hands to the publish workflow. */
module CreateWorkForm {
  import opened Base
  import Seqs
  import Text
  import WorkTypes
  import CreateWork

  datatype FormStep = Images | Details | Preview

  function TrimAll(parts: seq<string>): (r: seq<string>)
    ensures |r| == |parts|
    ensures forall i :: 0 <= i < |r| ==> r[i] == Text.Trim(parts[i])
  {
    seq(|parts|, i requires 0 <= i < |parts| => Text.Trim(parts[i]))
  }

  predicate NonEmpty(s: string) { s != "" }

  /** What a tag must look like to survive the parser unchanged. */
  ghost predicate CleanTag(t: string) {
    t != "" && Text.Trimmed(t) && ',' !in t
  }

  lemma TrimKeepsAbsence(s: string, c: char)
    requires c !in s
    ensures c !in Text.Trim(s)
  {
    Text.TrimSpec(s);
    var r, k := Text.Trim(s), Text.TrimOffset(s);
    assert forall i :: 0 <= i < |r| ==> r[i] == s[k + i];
  }

  /** `tagsInput.split(",").map(t => t.trim()).filter(Boolean).slice(0, TAGS_MAX)`:
      at most eight tags, none empty, none with surrounding blanks or a comma.
      Duplicates are kept. */
  function ParseTags(input: string): (tags: seq<string>)
    ensures |tags| <= WorkTypes.TAGS_MAX
    ensures forall i :: 0 <= i < |tags| ==> CleanTag(tags[i])
  {
    var kept := Kept(input);
    KeptAreClean(input);
    var tags := Seqs.Take(kept, WorkTypes.TAGS_MAX);
    assert forall i :: 0 <= i < |tags| ==> tags[i] == kept[i];
    tags
  }

  /** The trimmed pieces that are not empty, before the cap. */
  function Kept(input: string): seq<string> {
    Seqs.Filter(TrimAll(Text.Split(input, ',')), NonEmpty)
  }

  lemma PieceClean(piece: string)
    requires ',' !in piece && Text.Trim(piece) != ""
    ensures CleanTag(Text.Trim(piece))
  {
    TrimKeepsAbsence(piece, ',');
  }

  lemma KeptAreClean(input: string)
    ensures forall i :: 0 <= i < |Kept(input)| ==> CleanTag(Kept(input)[i])
  {
    var pieces := Text.Split(input, ',');
    var trimmed := TrimAll(pieces);
    var kept := Kept(input);
    forall j | 0 <= j < |trimmed| && trimmed[j] != "" ensures CleanTag(trimmed[j]) {
      PieceClean(pieces[j]);
    }
    forall i | 0 <= i < |kept| ensures CleanTag(kept[i]) {
      assert kept[i] in trimmed && NonEmpty(kept[i]);
    }
  }

  /** Joining clean tags with commas and parsing gives the first eight back, in
      order, repeats included. */
  lemma ParseTagsJoin(tags: seq<string>)
    requires |tags| >= 1
    requires forall i :: 0 <= i < |tags| ==> CleanTag(tags[i])
    ensures ParseTags(Text.Join(tags, ',')) == Seqs.Take(tags, WorkTypes.TAGS_MAX)
  {
    Text.SplitJoin(tags, ',');
    forall i | 0 <= i < |tags| ensures Text.Trim(tags[i]) == tags[i] {
      Text.TrimOfTrimmed(tags[i]);
    }
    assert TrimAll(tags) == tags;
    Seqs.FilterAll(tags, NonEmpty);
  }

  /** `canGoToDetails`. */
  predicate CanGoToDetails(files: seq<File>) {
    |files| >= WorkTypes.IMAGES_MIN
  }

  /** `canGoToPreview`: the trimmed title has 1 to 150 UTF-16 code units, the
      untrimmed description at least 120, and a category is chosen. */
  predicate CanGoToPreview(title: string, description: string, category: string) {
    WorkTypes.TITLE_MIN <= Text.Utf16Length(Text.Trim(title)) <= WorkTypes.TITLE_MAX
    && Text.Utf16Length(description) >= WorkTypes.DESCRIPTION_MIN
    && category != ""
  }

  /** A title of blanks never passes, however long it is; the description is
      measured before trimming, so blanks count toward its minimum. */
  lemma PreviewGateEdges(title: string, description: string, category: string)
    requires forall i :: 0 <= i < |title| ==> Text.IsWhite(title[i])
    ensures !CanGoToPreview(title, description, category)
  {
    Text.TrimEmpty(title);
  }

  /** `isPublishing`: the workflow is under way or finished. */
  predicate IsPublishing(s: CreateWork.PublishStep) {
    s != CreateWork.Idle && s != CreateWork.Error
  }

  function Rank(s: FormStep): nat {
    match s
    case Images => 0
    case Details => 1
    case Preview => 2
  }

  /** The step indicator's `isPast`. */
  predicate IsPast(s: FormStep, current: FormStep) {
    (s == Images && (current == Details || current == Preview))
    || (s == Details && current == Preview)
  }

  /** A step counts as past exactly when it comes earlier in the form. */
  lemma IsPastMeansEarlier(s: FormStep, current: FormStep)
    ensures IsPast(s, current) <==> Rank(s) < Rank(current)
  {
  }

  class Form {
    var files: seq<File>
    var title: string
    var description: string
    var category: string
    var tagsInput: string
    var step: FormStep

    /** Every step past the first was entered through its gate, and the fields a
        gate looked at can only be edited on an earlier step. */
    ghost predicate Valid()
      reads this
    {
      (step != Images ==> CanGoToDetails(files))
      && (step == Preview ==> CanGoToPreview(title, description, category))
    }

    constructor ()
      ensures Valid() && step == Images && files == [] && title == "" && description == ""
      ensures category == "" && tagsInput == ""
    {
      files, title, description, category, tagsInput, step := [], "", "", "", "", Images;
    }

    /** The uploader's `onChange`, shown on the images step only. */
    method SetFiles(fs: seq<File>)
      requires Valid()
      modifies this`files
      ensures Valid()
      ensures files == if old(step) == Images then fs else old(files)
    {
      if step == Images {
        files := fs;
      }
    }

    /** The detail inputs, shown on the details step only. */
    method EditDetails(t: string, d: string, c: string, tags: string)
      requires Valid()
      modifies this`title, this`description, this`category, this`tagsInput
      ensures Valid()
      ensures step == Details ==> title == t && description == d && category == c && tagsInput == tags
      ensures step != Details ==>
        title == old(title) && description == old(description)
        && category == old(category) && tagsInput == old(tagsInput)
    {
      if step == Details {
        title, description, category, tagsInput := t, d, c, tags;
      }
    }

    /** "Siguiente: Detalles", disabled until enough images are chosen. */
    method NextToDetails()
      requires Valid()
      modifies this`step
      ensures Valid()
      ensures step == if old(step) == Images && CanGoToDetails(files) then Details else old(step)
    {
      if step == Images && CanGoToDetails(files) {
        step := Details;
      }
    }

    /** Back from details to images. */
    method BackToImages()
      requires Valid()
      modifies this`step
      ensures Valid()
      ensures step == if old(step) == Details then Images else old(step)
    {
      if step == Details {
        step := Images;
      }
    }

    /** "Siguiente: Vista previa", disabled until the details pass. */
    method NextToPreview()
      requires Valid()
      modifies this`step
      ensures Valid()
      ensures step == if old(step) == Details && CanGoToPreview(title, description, category)
                      then Preview else old(step)
    {
      if step == Details && CanGoToPreview(title, description, category) {
        step := Preview;
      }
    }

    /** Back from the preview, disabled while publishing. */
    method BackToDetails(publishStep: CreateWork.PublishStep)
      requires Valid()
      modifies this`step
      ensures Valid()
      ensures step == if old(step) == Preview && !IsPublishing(publishStep) then Details else old(step)
    {
      if step == Preview && !IsPublishing(publishStep) {
        step := Details;
      }
    }

    /** A click on the indicator entry for `s` jumps there only if it is past. */
    method IndicatorClick(s: FormStep)
      requires Valid()
      modifies this`step
      ensures Valid()
      ensures step == if IsPast(s, old(step)) then s else old(step)
      ensures Rank(step) <= Rank(old(step))
    {
      if IsPast(s, step) {
        step := s;
      }
    }

    /** `handlePublish()`: nothing while the details fail or a publish is under
        way; otherwise the files and the payload with trimmed title and
        description and the parsed tags. */
    function PublishRequest(publishStep: CreateWork.PublishStep): (req: Option<(seq<File>, CreateWork.Payload)>)
      reads this
      ensures req.Some? <==> CanGoToPreview(title, description, category) && !IsPublishing(publishStep)
      ensures req.Some? ==>
        req.value.0 == files
        && req.value.1 == CreateWork.Payload(Text.Trim(title), Text.Trim(description), category, ParseTags(tagsInput))
    {
      if !CanGoToPreview(title, description, category) || IsPublishing(publishStep) then None
      else Some((files, CreateWork.Payload(Text.Trim(title), Text.Trim(description), category, ParseTags(tagsInput))))
    }

    /** On the preview step, before or after a failed attempt, the publish button
        always sends a request with at least one image and a non-empty title. */
    lemma PreviewAlwaysPublishes(publishStep: CreateWork.PublishStep)
      requires Valid() && step == Preview && !IsPublishing(publishStep)
      ensures PublishRequest(publishStep).Some?
      ensures |PublishRequest(publishStep).value.0| >= 1
      ensures PublishRequest(publishStep).value.1.title != ""
    {
    }
  }
}
