/** The comment box under a work: its validity rule (a hundred characters and
    at least one feedback category), the unbounded category toggle, submit and
    cancel, the header count, and its relative-time label. */
module Comments {
  import opened Base
  import Seqs
  import Text
  import TimeAgo
  import Onboarding
  import WorkPreview
  import NotificationBell

  const COMMENT_MIN_LENGTH: nat := 100
  const COMMENT_CATEGORIES: seq<string> :=
    ["Concepto", "Ejecución", "Tipografía", "Color", "Composición", "Originalidad"]

  /** `isValid`: the untrimmed content is long enough, in UTF-16 code units,
      and a category is chosen. */
  predicate IsValid(content: string, categories: seq<string>) {
    Text.Utf16Length(content) >= COMMENT_MIN_LENGTH && |categories| >= 1
  }

  /** The length is counted in UTF-16 code units: text wholly above U+FFFF
      (emoji, say) needs only half as many characters, while text without
      such characters needs the full hundred. */
  lemma LengthInCodeUnits(content: string, categories: seq<string>)
    ensures (forall i :: 0 <= i < |content| ==> content[i] as int > 0xFFFF) ==>
      (IsValid(content, categories) <==> 2 * |content| >= COMMENT_MIN_LENGTH && categories != [])
    ensures (forall i :: 0 <= i < |content| ==> content[i] as int <= 0xFFFF) ==>
      (IsValid(content, categories) <==> |content| >= COMMENT_MIN_LENGTH && categories != [])
  {
    if forall i :: 0 <= i < |content| ==> content[i] as int > 0xFFFF {
      Text.Utf16LengthAstral(content);
    }
    Text.Utf16LengthBmp(content);
  }

  /** Surrounding blanks count towards the length, so a padded short comment
      is accepted although what is posted is shorter. */
  lemma PaddingCounts()
    ensures var c := seq(99, i => 'x') + " ";
      IsValid(c, ["Color"]) && |Text.Trim(c)| < COMMENT_MIN_LENGTH
  {
    var x := seq(99, i => 'x');
    var c := x + " ";
    Text.Utf16LengthBmp(c);
    assert Text.Trimmed(x);
    Text.TrimOfTrimmed(x);
    Text.TrimSpec(c);
    assert c[|c| - 1] == ' ';
  }

  /** `toggleCategory`: a chosen category is removed; any other is appended,
      with no cap. */
  function Toggle(prev: seq<string>, cat: string): (r: seq<string>)
    ensures cat in prev ==> cat !in r && forall x :: x != cat ==> (x in r <==> x in prev)
    ensures cat !in prev ==> r == prev + [cat]
  {
    if cat in prev then Seqs.Filter(prev, c => c != cat) else prev + [cat]
  }

  /** The toggle never duplicates a category, and toggling twice undoes it. */
  lemma ToggleKeepsDistinct(prev: seq<string>, cat: string)
    requires Seqs.NoDuplicates(prev)
    ensures Seqs.NoDuplicates(Toggle(prev, cat))
  {
    if cat in prev {
      Onboarding.FilterKeepsNoDuplicates(prev, c => c != cat);
    }
  }

  lemma ToggleUndo(prev: seq<string>, cat: string)
    requires cat !in prev
    ensures Toggle(Toggle(prev, cat), cat) == prev
  {
    var p := (c: string) => c != cat;
    Seqs.FilterConcat(prev, [cat], p);
    Seqs.FilterAll(prev, p);
  }

  /** The unbounded toggle is the onboarding toggle with a cap it never reaches. */
  lemma ToggleIsUncapped(prev: seq<string>, cat: string, max: nat)
    requires |prev| < max
    ensures Toggle(prev, cat) == Onboarding.ToggleBounded(prev, cat, max)
  {
  }

  /** `comments.length || initialCount`. */
  function HeaderCount(loaded: nat, initialCount: nat): (n: nat)
    ensures loaded > 0 ==> n == loaded
    ensures loaded == 0 ==> n == initialCount
  {
    if loaded != 0 then loaded else initialCount
  }

  /** `getTimeAgo` of the comment list: "Ahora", "{m}min", "{h}h" or "{d}d",
      with no weeks. */
  function Label(a: TimeAgo.Ago): string {
    match a
    case Now => "Ahora"
    case Minutes(m) => Text.NatToString(m) + "min"
    case Hours(h) => Text.NatToString(h) + "h"
    case Days(d) => Text.NatToString(d) + "d"
  }

  function GetTimeAgo(diff: int): string {
    Label(TimeAgo.Bucket(diff))
  }

  /** The three relative-time labels agree past the first minute: the
      moderation preview puts "Hace " in front, and the bell differs only from
      the seventh day on, where it counts weeks. */
  lemma LabelsAgree(diff: int)
    requires diff >= TimeAgo.MINUTE
    ensures WorkPreview.GetTimeAgo(diff) == "Hace " + GetTimeAgo(diff)
    ensures diff < 7 * TimeAgo.DAY ==> NotificationBell.GetTimeAgo(diff) == GetTimeAgo(diff)
  {
    var a := TimeAgo.Bucket(diff);
    if a.Days? && diff < 7 * TimeAgo.DAY {
      if a.d >= 7 {
        TimeAgo.MulMono(TimeAgo.DAY, 7, a.d);
      }
    }
  }

  /** Distinct buckets read differently here too. */
  lemma SameLabelSameBucket(d1: int, d2: int)
    ensures GetTimeAgo(d1) == GetTimeAgo(d2) <==> TimeAgo.Bucket(d1) == TimeAgo.Bucket(d2)
  {
    var a, b := TimeAgo.Bucket(d1), TimeAgo.Bucket(d2);
    if GetTimeAgo(d1) == GetTimeAgo(d2) && !a.Now? && !b.Now? {
      LabelsAgree(d1);
      LabelsAgree(d2);
      WorkPreview.SameLabelSameBucket(d1, d2);
    } else if GetTimeAgo(d1) == GetTimeAgo(d2) {
      var s := GetTimeAgo(d1);
      assert s[0] == GetTimeAgo(d2)[0];
    }
  }

  /** The compose form. */
  class Composer {
    var content: string
    var categories: seq<string>
    var showForm: bool

    constructor ()
      ensures content == "" && categories == [] && !showForm
    {
      content, categories, showForm := "", [], false;
    }

    method Open()
      modifies this`showForm
      ensures showForm
    {
      showForm := true;
    }

    method ToggleCategory(cat: string)
      modifies this`categories
      ensures categories == Toggle(old(categories), cat)
    {
      categories := Toggle(categories, cat);
    }

    /** `handleSubmit()`: nothing happens when the form is invalid or a post is
        under way; otherwise the trimmed content is posted with the categories,
        and a successful post clears and hides the form while a failed one
        keeps it. `success` is the result of the post. */
    method Submit(posting: bool, success: bool) returns (posted: Option<(string, seq<string>)>)
      modifies this
      ensures !IsValid(old(content), old(categories)) || posting ==>
        posted.None? && content == old(content) && categories == old(categories) && showForm == old(showForm)
      ensures IsValid(old(content), old(categories)) && !posting ==>
        posted == Some((Text.Trim(old(content)), old(categories)))
      ensures posted.Some? && success ==> content == "" && categories == [] && !showForm
      ensures posted.Some? && !success ==>
        content == old(content) && categories == old(categories) && showForm == old(showForm)
    {
      posted := None;
      if !IsValid(content, categories) || posting {
        return;
      }
      posted := Some((Text.Trim(content), categories));
      if success {
        content, categories, showForm := "", [], false;
      }
    }

    /** Cancel hides the form and clears content and categories. */
    method Cancel()
      modifies this
      ensures !showForm && content == "" && categories == []
    {
      showForm, content, categories := false, "", [];
    }
  }
}
