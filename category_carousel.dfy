/**
 * The related-content carousel: which items it shows (same category,
 * compared without case, minus the current item, shuffled) and the index
 * of the slide on display.
 */
module CategoryCarousel {
  import opened Wrappers
  import opened ContentStore
  import opened Text
  import opened Shuffle

  // ---------------------------------------------------------------------
  // The selection pipeline
  // ---------------------------------------------------------------------

  /** What the selection keeps: same category without case, other slug. */
  predicate IsRelated(item: ContentInfo, currentContentCategory: string, currentContentSlug: string)
  {
    SameIgnoringCase(item.category, currentContentCategory) && item.slug != currentContentSlug
  }

  /** Step 1: `filter(item => item.Category.toLowerCase() === category.toLowerCase())`.
      It keeps every matching item as often as it occurs, and nothing else. */
  function FilterByCategory(items: seq<ContentInfo>, category: string): (r: seq<ContentInfo>)
    ensures forall x :: multiset(r)[x] == if SameIgnoringCase(x.category, category) then multiset(items)[x] else 0
    ensures |r| <= |items|
  {
    if items == [] then []
    else
      assert items == [items[0]] + items[1..];
      var rest := FilterByCategory(items[1..], category);
      if SameIgnoringCase(items[0].category, category) then [items[0]] + rest else rest
  }

  /** Step 2: `filter(item => item.slug !== currentContentSlug)`.
      It drops every item with that slug and keeps every other one. */
  function ExcludeSlug(items: seq<ContentInfo>, slug: string): (r: seq<ContentInfo>)
    ensures forall x :: multiset(r)[x] == if x.slug != slug then multiset(items)[x] else 0
    ensures |r| <= |items|
  {
    if items == [] then []
    else
      assert items == [items[0]] + items[1..];
      var rest := ExcludeSlug(items[1..], slug);
      if items[0].slug != slug then [items[0]] + rest else rest
  }

  /** The copy of `shuffleArray` in the carousel file: it also answers a
      missing array with a new empty one. */
  method ShuffleArray<T>(input: array?<T>, draws: seq<real>) returns (shuffled: array<T>)
    requires input != null ==> ValidDraws(draws, input.Length)
    ensures fresh(shuffled)
    ensures input == null ==> shuffled.Length == 0
    ensures input != null ==> shuffled[..] == FisherYates(input[..], draws)
    ensures input != null ==> input[..] == old(input[..])
  {
    if input == null {
      shuffled := new T[0];
      return;
    }
    shuffled := ShuffleCopy(input, draws);
  }

  /** The items the carousel shows (`carouselDisplayItems`), for the given
      answers of `Math.random()`. */
  function CarouselDisplayItems(allContentItems: Option<seq<ContentInfo>>, currentContentCategory: string,
                                currentContentSlug: string, draws: seq<real>): (r: seq<ContentInfo>)
    requires allContentItems.Some? ==> ValidDraws(draws, |allContentItems.value|)
    ensures allContentItems.None? || currentContentCategory == "" ==> r == []
    ensures allContentItems.Some? && currentContentCategory != "" ==>
      forall x :: multiset(r)[x] ==
        if IsRelated(x, currentContentCategory, currentContentSlug) then multiset(allContentItems.value)[x] else 0
  {
    if allContentItems.None? || currentContentCategory == "" then []
    else
      var categoryFiltered := FilterByCategory(allContentItems.value, currentContentCategory);
      var finalFiltered := ExcludeSlug(categoryFiltered, currentContentSlug);
      FisherYatesPermutes(finalFiltered, draws);
      FisherYates(finalFiltered, draws)
  }

  /** The `useMemo` body, run imperatively: two filters, then the array
      shuffle. It computes exactly `CarouselDisplayItems`. */
  method SelectDisplayItems(allContentItems: Option<seq<ContentInfo>>, currentContentCategory: string,
                            currentContentSlug: string, draws: seq<real>) returns (items: seq<ContentInfo>)
    requires allContentItems.Some? ==> ValidDraws(draws, |allContentItems.value|)
    ensures items == CarouselDisplayItems(allContentItems, currentContentCategory, currentContentSlug, draws)
  {
    if allContentItems.None? || currentContentCategory == "" {
      return [];
    }
    var categoryFiltered := FilterByCategory(allContentItems.value, currentContentCategory);
    var finalFiltered := ExcludeSlug(categoryFiltered, currentContentSlug);
    var a := new ContentInfo[|finalFiltered|](k requires 0 <= k < |finalFiltered| => finalFiltered[k]);
    assert a[..] == finalFiltered;
    var shuffled := ShuffleArray(a, draws);
    items := shuffled[..];
    DisplayItemsByPipeline(allContentItems.value, currentContentCategory, currentContentSlug, draws);
  }

  /** For present items and a category, the selection is the shuffle of the two filters. */
  lemma DisplayItemsByPipeline(allContentItems: seq<ContentInfo>, currentContentCategory: string,
                               currentContentSlug: string, draws: seq<real>)
    requires ValidDraws(draws, |allContentItems|)
    requires currentContentCategory != ""
    ensures |ExcludeSlug(FilterByCategory(allContentItems, currentContentCategory), currentContentSlug)| <= |allContentItems|
    ensures CarouselDisplayItems(Some(allContentItems), currentContentCategory, currentContentSlug, draws)
         == FisherYates(ExcludeSlug(FilterByCategory(allContentItems, currentContentCategory), currentContentSlug), draws)
  {
  }

  // ---------------------------------------------------------------------
  // Properties of the selection
  // ---------------------------------------------------------------------

  /** Soundness and completeness: an item is shown exactly when it is in the
      catalog, has the current category up to case, and is not the current
      item. */
  lemma DisplayItemsMembership(allContentItems: seq<ContentInfo>, currentContentCategory: string,
                               currentContentSlug: string, draws: seq<real>, x: ContentInfo)
    requires ValidDraws(draws, |allContentItems|)
    requires currentContentCategory != ""
    ensures x in CarouselDisplayItems(Some(allContentItems), currentContentCategory, currentContentSlug, draws)
        <==> x in allContentItems && IsRelated(x, currentContentCategory, currentContentSlug)
  {
  }

  /** Self-exclusion: the current item is never among the shown ones. */
  lemma DisplayItemsExcludeCurrent(allContentItems: Option<seq<ContentInfo>>, currentContentCategory: string,
                                   currentContentSlug: string, draws: seq<real>)
    requires allContentItems.Some? ==> ValidDraws(draws, |allContentItems.value|)
    ensures forall x ::
      x in CarouselDisplayItems(allContentItems, currentContentCategory, currentContentSlug, draws) ==>
        x.slug != currentContentSlug && SameIgnoringCase(x.category, currentContentCategory)
  {
    var r := CarouselDisplayItems(allContentItems, currentContentCategory, currentContentSlug, draws);
    forall x | x in r
      ensures x.slug != currentContentSlug && SameIgnoringCase(x.category, currentContentCategory)
    {
      assert multiset(r)[x] > 0;
    }
  }

  /** Excluding a slug that no item has removes nothing. */
  lemma {:induction false} ExcludeAbsentSlug(items: seq<ContentInfo>, slug: string)
    requires forall x :: x in items ==> x.slug != slug
    ensures ExcludeSlug(items, slug) == items
  {
    if items != [] {
      ExcludeAbsentSlug(items[1..], slug);
    }
  }

  /** Filtering by category does not depend on the case of the category asked for. */
  lemma {:induction false} FilterByCategoryIgnoresCase(items: seq<ContentInfo>, c1: string, c2: string)
    requires SameIgnoringCase(c1, c2)
    ensures FilterByCategory(items, c1) == FilterByCategory(items, c2)
  {
    if items != [] {
      FilterByCategoryIgnoresCase(items[1..], c1, c2);
    }
  }

  /** Filtering twice by the same category is filtering once. */
  lemma {:induction false} FilterByCategoryIdempotent(items: seq<ContentInfo>, category: string)
    ensures FilterByCategory(FilterByCategory(items, category), category) == FilterByCategory(items, category)
  {
    if items != [] {
      FilterByCategoryIdempotent(items[1..], category);
    }
  }

  /** "Event" and "event" select the same items in the same order. */
  lemma DisplayItemsIgnoreCase(allContentItems: Option<seq<ContentInfo>>, c1: string, c2: string,
                               currentContentSlug: string, draws: seq<real>)
    requires allContentItems.Some? ==> ValidDraws(draws, |allContentItems.value|)
    requires SameIgnoringCase(c1, c2)
    ensures CarouselDisplayItems(allContentItems, c1, currentContentSlug, draws)
         == CarouselDisplayItems(allContentItems, c2, currentContentSlug, draws)
  {
    if allContentItems.Some? {
      FilterByCategoryIgnoresCase(allContentItems.value, c1, c2);
    }
  }

  // ---------------------------------------------------------------------
  // Slide navigation
  // ---------------------------------------------------------------------

  /** `goToNext`: one step forward, from the last slide back to the first.
      It is the successor modulo the number of slides. */
  function NextIndex(prevIndex: nat, totalItems: nat): (r: nat)
    requires prevIndex < totalItems
    ensures r < totalItems
    ensures r == (prevIndex + 1) % totalItems
  {
    if prevIndex == totalItems - 1 then 0 else prevIndex + 1
  }

  /** `goToPrevious`: one step back, from the first slide to the last.
      It is the predecessor modulo the number of slides. */
  function PreviousIndex(prevIndex: nat, totalItems: nat): (r: nat)
    requires prevIndex < totalItems
    ensures r < totalItems
    ensures r == (prevIndex - 1) % totalItems
  {
    if prevIndex == 0 then totalItems - 1 else prevIndex - 1
  }

  /** The two arrows undo each other. */
  lemma NextPreviousInverse(index: nat, totalItems: nat)
    requires index < totalItems
    ensures PreviousIndex(NextIndex(index, totalItems), totalItems) == index
    ensures NextIndex(PreviousIndex(index, totalItems), totalItems) == index
  {
  }

  /** The index after `steps` presses of the right arrow. */
  function NextTimes(index: nat, steps: nat, totalItems: nat): (r: nat)
    requires index < totalItems
    ensures r < totalItems
  {
    if steps == 0 then index else NextIndex(NextTimes(index, steps - 1, totalItems), totalItems)
  }

  /** Pressing the right arrow `steps` times, for up to one full round,
      advances by `steps` and wraps past the last slide; a full round of
      `totalItems` presses comes back to the slide it started from. */
  lemma {:induction false} NextTimesRotates(index: nat, steps: nat, totalItems: nat)
    requires index < totalItems && steps <= totalItems
    ensures NextTimes(index, steps, totalItems)
         == if index + steps < totalItems then index + steps else index + steps - totalItems
    ensures steps == totalItems ==> NextTimes(index, steps, totalItems) == index
  {
    if steps > 0 {
      NextTimesRotates(index, steps - 1, totalItems);
    }
  }

  /** The arrows are shown when there is more than one slide. */
  predicate ShowArrows(totalItems: nat)
  {
    totalItems > 1
  }

  /** What the component renders for the given items and index. */
  datatype CarouselView =
    | NoOtherContent(category: string)   // nothing else in this category
    | Loading(category: string)          // the index is past the end of the items
    | Slides(items: seq<ContentInfo>, currentIndex: nat, currentItem: ContentInfo, showArrows: bool)

  function Render(displayItems: seq<ContentInfo>, currentIndex: nat, currentContentCategory: string): (v: CarouselView)
    ensures v.NoOtherContent? <==> displayItems == []
    ensures v.Loading? <==> displayItems != [] && currentIndex >= |displayItems|
    ensures v.Slides? ==> currentIndex < |displayItems| && v.currentItem == displayItems[currentIndex]
    ensures v.Slides? ==> (v.showArrows <==> |displayItems| > 1)
    ensures v.Slides? ==> v.items == displayItems && v.currentIndex == currentIndex
    ensures v.NoOtherContent? || v.Loading? ==> v.category == currentContentCategory
  {
    if |displayItems| == 0 then NoOtherContent(currentContentCategory)
    else if currentIndex >= |displayItems| then Loading(currentContentCategory)
    else Slides(displayItems, currentIndex, displayItems[currentIndex], ShowArrows(|displayItems|))
  }

  /**
   * The component's state: the items chosen for the current props and the
   * index of the slide on display. The index starts at 0, returns to 0
   * whenever the items are chosen anew, and otherwise only the arrows move it.
   */
  class Carousel {
    var currentContentCategory: string
    var displayItems: seq<ContentInfo>
    var currentIndex: nat

    ghost predicate Valid()
      reads this
    {
      currentIndex == 0 || currentIndex < |displayItems|
    }

    constructor (allContentItems: Option<seq<ContentInfo>>, currentContentCategory: string,
                 currentContentSlug: string, draws: seq<real>)
      requires allContentItems.Some? ==> ValidDraws(draws, |allContentItems.value|)
      ensures Valid()
      ensures this.currentContentCategory == currentContentCategory
      ensures displayItems == CarouselDisplayItems(allContentItems, currentContentCategory, currentContentSlug, draws)
      ensures currentIndex == 0
    {
      var items := SelectDisplayItems(allContentItems, currentContentCategory, currentContentSlug, draws);
      this.currentContentCategory := currentContentCategory;
      displayItems := items;
      currentIndex := 0;
    }

    /** New props: the memoised items are recomputed and the effect that
        depends on them puts the index back to 0. */
    method UpdateProps(allContentItems: Option<seq<ContentInfo>>, currentContentCategory: string,
                       currentContentSlug: string, draws: seq<real>)
      requires allContentItems.Some? ==> ValidDraws(draws, |allContentItems.value|)
      modifies this
      ensures Valid()
      ensures this.currentContentCategory == currentContentCategory
      ensures displayItems == CarouselDisplayItems(allContentItems, currentContentCategory, currentContentSlug, draws)
      ensures currentIndex == 0
    {
      var items := SelectDisplayItems(allContentItems, currentContentCategory, currentContentSlug, draws);
      this.currentContentCategory := currentContentCategory;
      displayItems := items;
      currentIndex := 0;
    }

    /** The right arrow. The handler only exists once there are items. */
    method GoToNext()
      requires Valid() && |displayItems| > 0
      modifies this`currentIndex
      ensures Valid()
      ensures currentIndex == NextIndex(old(currentIndex), |displayItems|)
    {
      currentIndex := NextIndex(currentIndex, |displayItems|);
    }

    /** The left arrow. */
    method GoToPrevious()
      requires Valid() && |displayItems| > 0
      modifies this`currentIndex
      ensures Valid()
      ensures currentIndex == PreviousIndex(old(currentIndex), |displayItems|)
    {
      currentIndex := PreviousIndex(currentIndex, |displayItems|);
    }

    /** What is on screen. In a valid state the "loading" view, which the
        source keeps for an index past the end, never appears. */
    function View(): (v: CarouselView)
      reads this
      ensures Valid() ==> !v.Loading?
      ensures Valid() && displayItems != [] ==> v.Slides? && v.currentItem == displayItems[currentIndex]
    {
      Render(displayItems, currentIndex, currentContentCategory)
    }
  }
}
