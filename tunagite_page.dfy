/** The page of the entry "Tunagite". */
module TunagitePage {
  import opened Wrappers
  import opened ContentStore
  import opened SlugPage

  const ThisPageSlug: string := "Tunagite"

  function Page(load: LoadResult): (v: PageView)
    ensures v.NotFound? <==> forall p :: p in GetData(load) ==> p.slug != "Tunagite"
    ensures v.NotFound? ==> v == NotFound("Tunagite")
    ensures v.ContentPage? ==> v.post.slug == "Tunagite" && v.post in GetData(load)
    ensures v.ContentPage? ==> Find(GetData(load), "Tunagite") == Some(v.post)
    ensures !load.Loaded? ==> v.NotFound?
  {
    RenderPage(load, ThisPageSlug)
  }
}
