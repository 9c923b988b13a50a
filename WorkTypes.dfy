/** The bounds and the category list that the work forms and the upload code
    share (`WORK_LIMITS`, `WORK_CATEGORIES`). */
module WorkTypes {
  import Seqs

  const TITLE_MIN: nat := 1
  const TITLE_MAX: nat := 150
  const DESCRIPTION_MIN: nat := 120
  const TAGS_MAX: nat := 8
  const IMAGES_MIN: nat := 1
  const IMAGES_MAX: nat := 6
  const IMAGE_MAX_SIZE_MB: nat := 5
  const IMAGE_MAX_SIZE_BYTES: nat := IMAGE_MAX_SIZE_MB * 1024 * 1024

  /** The categories offered for a work: nine distinct names, "Otro" among them. */
  function WorkCategories(): (r: seq<string>)
    ensures |r| == 9 && Seqs.NoDuplicates(r)
    ensures "Otro" in r && r[|r| - 1] == "Otro"
  {
    ["Branding", "Ilustración", "Tipografía", "Editorial", "Packaging",
     "UI/UX", "Fotografía", "Motion", "Otro"]
  }
}
