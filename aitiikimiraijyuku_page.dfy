/** The page of the entry "AItiikimiraijyuku". */
module AItiikimiraijyukuPage {
  import opened Wrappers
  import opened ContentStore
  import opened SlugPage

  const ThisPageSlug: string := "AItiikimiraijyuku"

  function Page(load: LoadResult): (v: PageView)
    ensures v.NotFound? <==> forall p :: p in GetData(load) ==> p.slug != "AItiikimiraijyuku"
    ensures v.NotFound? ==> v == NotFound("AItiikimiraijyuku")
    ensures v.ContentPage? ==> v.post.slug == "AItiikimiraijyuku" && v.post in GetData(load)
    ensures v.ContentPage? ==> Find(GetData(load), "AItiikimiraijyuku") == Some(v.post)
    ensures !load.Loaded? ==> v.NotFound?
  {
    RenderPage(load, ThisPageSlug)
  }
}
