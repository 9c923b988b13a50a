/** The feed's sort options and page size (`SORT_OPTIONS`, `FEED_PAGE_SIZE`). */
module FeedTypes {

  datatype SortOption = Popular | MostVoted | MostCommented | Recent

  /** The column a sort orders by, its direction and its caption (`label`). */
  datatype SortConfig = SortConfig(column: string, ascending: bool, caption: string)

  const FEED_PAGE_SIZE: nat := 10

  /** Every sort option, each once. */
  function AllSortOptions(): (r: seq<SortOption>)
    ensures |r| == 4
    ensures forall i, j :: 0 <= i < j < |r| ==> r[i] != r[j]
  {
    [Popular, MostVoted, MostCommented, Recent]
  }

  /** The list misses no option. */
  lemma AllSortOptionsComplete(o: SortOption)
    ensures o in AllSortOptions()
  {
    match o
    case Popular => assert AllSortOptions()[0] == o;
    case MostVoted => assert AllSortOptions()[1] == o;
    case MostCommented => assert AllSortOptions()[2] == o;
    case Recent => assert AllSortOptions()[3] == o;
  }

  /** `SORT_OPTIONS[o]`: every option sorts descending. */
  function ConfigOf(o: SortOption): (c: SortConfig)
    ensures !c.ascending
  {
    match o
    case Popular => SortConfig("trending_score", false, "Popular")
    case MostVoted => SortConfig("likes_count", false, "Más votados")
    case MostCommented => SortConfig("comments_count", false, "Más comentados")
    case Recent => SortConfig("published_at", false, "Más nuevos")
  }
}
