/**
 * The category filter of a resident's timeline (src/components/TimelineSection.tsx):
 * which timeline items each of the six filter buttons shows.
 */
module TimelineSection {
  import opened Wrappers
  import opened JsArray
  import opened Types
  import ChatworkUtils

  /** The six filter buttons. */
  datatype FilterCategory = All | Condition | Excretion | Sleep | Meal | Other

  /** The label of a filter, which is also the category tag it selects. */
  function Label(f: FilterCategory): string {
    match f
    case All => "すべて"
    case Condition => "体調"
    case Excretion => "排泄"
    case Sleep => "睡眠"
    case Meal => "食事"
    case Other => "その他"
  }

  /** Different filters have different labels. */
  lemma LabelInjective(f: FilterCategory, g: FilterCategory)
    requires Label(f) == Label(g)
    ensures f == g
  {
  }

  /** A nullable text field that is present and non-empty. */
  predicate Filled(field: Option<string>) {
    field.Some? && field.value != ""
  }

  /** A vital sign other than the diastolic pressure is recorded. */
  predicate HasVitals(rec: DailyRecord) {
    rec.body_temp.Some? || rec.bp_high.Some? || rec.pulse.Some? || rec.spo2.Some?
  }

  /** `matchesFilter(item, filter)` */
  predicate MatchesFilter(item: TimelineItem, filter: FilterCategory) {
    if filter == All then true
    else if item.ChatLogItem? then
      var tag := item.log.category_tag;
      if filter == Other then tag.None? || tag.value == "" || tag.value == Label(Other)
      else tag == Some(Label(filter))
    else
      var rec := item.record;
      match filter
      case Condition => HasVitals(rec)
      case Excretion => Filled(rec.excretion_urine)
      case Meal => Filled(rec.meal_amount)
      case Sleep => false
      case Other => !HasVitals(rec) && !Filled(rec.excretion_urine) && !Filled(rec.meal_amount)
  }

  /** `items.filter(item => matchesFilter(item, activeFilter))` */
  function FilterTimeline(items: seq<TimelineItem>, filter: FilterCategory): (r: seq<TimelineItem>)
    ensures |r| <= |items|
  {
    Filter(items, (x: TimelineItem) => MatchesFilter(x, filter))
  }

  /**
   * The filtered timeline is an order-preserving sub-list of the items, holding exactly
   * the items that match; "すべて" keeps every item.
   */
  lemma FilterTimelineSpec(items: seq<TimelineItem>, filter: FilterCategory, x: TimelineItem)
    ensures IsSubsequence(FilterTimeline(items, filter), items)
    ensures x in FilterTimeline(items, filter) <==> x in items && MatchesFilter(x, filter)
    ensures filter == All ==> FilterTimeline(items, filter) == items
  {
    var p := (y: TimelineItem) => MatchesFilter(y, filter);
    FilterIsSubsequence(items, p);
    FilterMembership(items, p, x);
    if filter == All {
      FilterKeepsAll(items, p);
    }
  }

  /**
   * A chat log matches at most one specific filter: "その他" when its tag is null, empty
   * or "その他", otherwise the filter whose label equals its tag.
   */
  lemma ChatMatchesAtMostOne(item: TimelineItem, f: FilterCategory, g: FilterCategory)
    requires item.ChatLogItem? && f != All && g != All
    requires MatchesFilter(item, f) && MatchesFilter(item, g)
    ensures f == g
  {
    if f != Other && g != Other {
      LabelInjective(f, g);
    }
  }

  /** A chat log with tag `Label(f)` matches `f`, for every specific filter `f`. */
  lemma ChatMatchesOwnTag(item: TimelineItem, f: FilterCategory)
    requires item.ChatLogItem? && item.log.category_tag == Some(Label(f))
    ensures MatchesFilter(item, f)
  {
  }

  /**
   * A daily record matches "その他" exactly when it matches none of "体調", "排泄" and "食事",
   * and it never matches "睡眠".
   */
  lemma DailyOtherIffNoCategory(item: TimelineItem)
    requires item.DailyRecordItem?
    ensures MatchesFilter(item, Other) <==>
      !MatchesFilter(item, Condition) && !MatchesFilter(item, Excretion) && !MatchesFilter(item, Meal)
    ensures !MatchesFilter(item, Sleep)
  {
  }

  /** The diastolic pressure alone does not decide any filter: changing it changes no match. */
  lemma BpLowIgnored(item: TimelineItem, bpLow: Option<real>, f: FilterCategory)
    requires item.DailyRecordItem?
    ensures MatchesFilter(DailyRecordItem(item.time, item.record.(bp_low := bpLow)), f) == MatchesFilter(item, f)
  {
  }

  /**
   * A chat log tagged at ingestion (by the keyword rules) never shows under "食事", since
   * those rules never produce that tag.
   */
  lemma IngestedChatNeverMeal(item: TimelineItem, message: string)
    requires item.ChatLogItem? && item.log.category_tag == Some(ChatworkUtils.InferCategoryTag(message))
    ensures !MatchesFilter(item, Meal)
  {
  }
}
