/** The bounds and option lists of a profile (`PROFILE_LIMITS`,
    `PROFILE_CATEGORIES`, `CAREER_YEARS`). */
module ProfileTypes {
  import Seqs

  const USERNAME_MIN: nat := 3
  const USERNAME_MAX: nat := 30
  const BIO_MIN: nat := 80
  const BIO_MAX: nat := 220
  const CATEGORIES_MIN: nat := 1
  const CATEGORIES_MAX: nat := 2
  const AVATAR_MAX_SIZE_MB: nat := 2
  const AVATAR_MAX_SIZE_BYTES: nat := AVATAR_MAX_SIZE_MB * 1024 * 1024

  /** Ten distinct design categories a profile may pick from. */
  function ProfileCategories(): (r: seq<string>)
    ensures |r| == 10 && Seqs.NoDuplicates(r)
  {
    ["Branding", "Ilustración", "Tipografía", "Editorial", "Packaging",
     "UI/UX", "Fotografía", "Motion", "3D", "Dirección de Arte"]
  }

  /** Seven distinct answers to "which year of the degree". */
  function CareerYears(): (r: seq<string>)
    ensures |r| == 7 && Seqs.NoDuplicates(r)
  {
    ["1er año", "2do año", "3er año", "4to año", "5to año", "Egresado", "Autodidacta"]
  }
}
