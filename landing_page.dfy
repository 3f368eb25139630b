/**
 * The landing page: load the whole catalog, shuffle it, and lay the posts
 * out as sections whose image and text swap sides from one section to the
 * next.
 */
module LandingPage {
  import opened ContentStore
  import opened Shuffle

  /** Image left of the text (`md:flex-row`) or right of it (`md:flex-row-reverse`). */
  datatype Direction = Row | RowReverse

  /** One rendered section: its post, its direction, and whether its image
      is loaded with priority. */
  datatype Section = Section(post: ContentInfo, direction: Direction, priority: bool)

  /** The section at position `index`: odd positions (`index % 2 !== 0`)
      are reversed, the first two images get priority. */
  function SectionAt(post: ContentInfo, index: nat): Section
  {
    var isOdd := index % 2 != 0;
    Section(post, if isOdd then RowReverse else Row, index < 2)
  }

  /** `posts.map((post, index) => ...)`. */
  function Layout(posts: seq<ContentInfo>): (sections: seq<Section>)
    ensures |sections| == |posts|
    ensures forall k :: 0 <= k < |posts| ==> sections[k].post == posts[k]
    ensures forall k :: 0 <= k < |posts| ==> (sections[k].direction == RowReverse <==> k % 2 == 1)
    ensures forall k :: 0 <= k < |posts| ==> (sections[k].priority <==> k < 2)
  {
    seq(|posts|, k requires 0 <= k < |posts| => SectionAt(posts[k], k))
  }

  /** The posts in the order the page shows them. */
  function Posts(sections: seq<Section>): (posts: seq<ContentInfo>)
    ensures |posts| == |sections|
    ensures forall k :: 0 <= k < |sections| ==> posts[k] == sections[k].post
  {
    seq(|sections|, k requires 0 <= k < |sections| => sections[k].post)
  }

  /** The layout alternates: the first section is not reversed and no two
      neighbours share a direction; exactly the first two (or fewer) images
      have priority. */
  lemma LayoutAlternates(posts: seq<ContentInfo>)
    ensures forall k :: 0 <= k < |posts| ==>
      (Layout(posts)[k].direction == RowReverse <==> k % 2 == 1)
    ensures |posts| > 0 ==> Layout(posts)[0].direction == Row
    ensures forall k :: 0 <= k < |posts| - 1 ==> Layout(posts)[k].direction != Layout(posts)[k + 1].direction
    ensures forall k :: 0 <= k < |posts| ==> (Layout(posts)[k].priority <==> k < 2)
  {
  }

  /** `LandingPage`: `getData()`, then `shuffleArray` on the loaded array,
      then the layout. Nothing is added or dropped, and an unreadable
      catalog shows no section at all. */
  method LandingPage(load: LoadResult, draws: seq<real>) returns (sections: seq<Section>)
    requires ValidDraws(draws, |GetData(load)|)
    ensures Posts(sections) == FisherYates(GetData(load), draws)
    ensures sections == Layout(Posts(sections))
    ensures |sections| == |GetData(load)|
    ensures multiset(Posts(sections)) == multiset(GetData(load))
    ensures !load.Loaded? ==> sections == []
  {
    var postsData := GetData(load);
    var a := new ContentInfo[|postsData|](k requires 0 <= k < |postsData| => postsData[k]);
    assert a[..] == postsData;
    var posts := ShuffleCopy(a, draws);
    FisherYatesPermutes(postsData, draws);
    sections := Layout(posts[..]);
    assert Posts(sections) == posts[..];
  }
}
