/**
 * A page bound to one catalog entry: it loads the catalog, takes the first
 * record whose slug is the page's own, and renders an error view with a
 * link home when there is none. When there is one, it hands the whole
 * catalog and its own slug to the category and area carousels.
 */
module SlugPage {
  import opened Wrappers
  import opened ContentStore
  import opened Shuffle
  import CategoryCarousel

  /** Position of the first record with the slug, if any. */
  function FindIndex(data: seq<ContentInfo>, slug: string): (r: Option<nat>)
    ensures r.None? <==> forall k :: 0 <= k < |data| ==> data[k].slug != slug
    ensures r.Some? ==> r.value < |data| && data[r.value].slug == slug
    ensures r.Some? ==> forall k :: 0 <= k < r.value ==> data[k].slug != slug
  {
    if data == [] then None
    else if data[0].slug == slug then Some(0)
    else
      match FindIndex(data[1..], slug)
      case None => None
      case Some(i) => Some(i + 1)
  }

  /** `allContentData.find(p => p.slug === slug)`. */
  function Find(data: seq<ContentInfo>, slug: string): (r: Option<ContentInfo>)
    ensures r.None? <==> forall p :: p in data ==> p.slug != slug
    ensures r.Some? ==> r.value in data && r.value.slug == slug
  {
    match FindIndex(data, slug)
    case None => None
    case Some(i) => Some(data[i])
  }

  /** Find returns the first match: every record before it has another slug. */
  lemma FindIsFirst(data: seq<ContentInfo>, slug: string)
    requires Find(data, slug).Some?
    ensures exists i :: 0 <= i < |data| && data[i] == Find(data, slug).value
                        && forall k :: 0 <= k < i ==> data[k].slug != slug
  {
  }

  /** The props one carousel receives. */
  datatype CarouselProps = CarouselProps(allContentItems: seq<ContentInfo>, currentContent: string,
                                         currentContentSlug: string)

  /** Either the fallback view, which names only the page's constant slug,
      or the content page with the props of its two carousels. */
  datatype PageView =
    | NotFound(slug: string)
    | ContentPage(post: ContentInfo, categoryCarousel: CarouselProps, areaCarousel: CarouselProps)

  function RenderPage(load: LoadResult, pageSlug: string): (v: PageView)
    ensures v.NotFound? <==> forall p :: p in GetData(load) ==> p.slug != pageSlug
    ensures v.NotFound? ==> v.slug == pageSlug
    ensures v.ContentPage? ==> v.post.slug == pageSlug && Find(GetData(load), pageSlug) == Some(v.post)
    ensures v.ContentPage? ==>
      && v.categoryCarousel == CarouselProps(GetData(load), v.post.category, v.post.slug)
      && v.areaCarousel == CarouselProps(GetData(load), v.post.area, v.post.slug)
    ensures !load.Loaded? ==> v == NotFound(pageSlug)
  {
    var allContentData := GetData(load);
    match Find(allContentData, pageSlug)
    case None => NotFound(pageSlug)
    case Some(currentPost) =>
      ContentPage(currentPost,
                  CarouselProps(allContentData, currentPost.category, currentPost.slug),
                  CarouselProps(allContentData, currentPost.area, currentPost.slug))
  }

  /** On a content page the category carousel never shows a record with the
      page's own slug, the page's own record included. */
  lemma CategoryCarouselOmitsPage(load: LoadResult, pageSlug: string, draws: seq<real>)
    requires ValidDraws(draws, |GetData(load)|)
    requires RenderPage(load, pageSlug).ContentPage?
    ensures forall x ::
      x in CategoryCarousel.CarouselDisplayItems(Some(GetData(load)),
                                                 RenderPage(load, pageSlug).categoryCarousel.currentContent,
                                                 RenderPage(load, pageSlug).categoryCarousel.currentContentSlug, draws)
      ==> x.slug != pageSlug
  {
    var props := RenderPage(load, pageSlug).categoryCarousel;
    CategoryCarousel.DisplayItemsExcludeCurrent(Some(GetData(load)), props.currentContent, props.currentContentSlug, draws);
  }
}
