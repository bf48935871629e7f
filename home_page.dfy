/**
 * The lists the home page of src/app/page.tsx derives from the content store when the module
 * loads: the topics shown in the hero (those with articles, at most eight), the latest insights
 * (the first three articles), the featured insight and the secondary ones.
 */
module HomePage {
  import opened Wrappers
  import opened Seqs
  import opened Types
  import opened TopicsPage

  datatype HomeLists = HomeLists(
    topics: seq<Topic>,
    insights: seq<Article>,
    featuredInsight: Option<Article>,
    secondaryInsights: seq<Article>)

  /** The module-level constants of the page, from the stored articles and topics. */
  function HomeListsOf(articles: seq<Article>, topics: seq<Topic>): HomeLists {
    var insights := Take(articles, 3);
    HomeLists(
      Take(TopicsWithArticles(topics, articles), 8),
      insights,
      if |insights| > 0 then Some(insights[0]) else None,
      if |insights| > 0 then insights[1..] else [])
  }

  /**
   * At most eight topics are shown, each one with articles, in topic order; the insights are the
   * first min(3, n) articles; the featured insight is the first article when there is one; the
   * secondary insights are the other insights, at most two.
   */
  lemma {:induction false} HomeListsShape(articles: seq<Article>, topics: seq<Topic>)
    ensures var h := HomeListsOf(articles, topics);
      |h.topics| <= 8 &&
      h.topics <= TopicsWithArticles(topics, articles) &&
      (|TopicsWithArticles(topics, articles)| >= 8 ==> |h.topics| == 8) &&
      |h.insights| == (if |articles| < 3 then |articles| else 3) &&
      h.insights <= articles &&
      (h.featuredInsight.Some? <==> articles != []) &&
      (articles != [] ==> h.featuredInsight.value == articles[0]) &&
      |h.secondaryInsights| <= 2 &&
      (articles != [] ==> [h.featuredInsight.value] + h.secondaryInsights == h.insights) &&
      (articles == [] ==> h.secondaryInsights == [])
  {
  }

  /** Every topic on the home page is one of the topics and has at least one article filed under it. */
  lemma {:induction false} HomeTopicsHaveArticles(articles: seq<Article>, topics: seq<Topic>, topic: Topic)
    requires topic in HomeListsOf(articles, topics).topics
    ensures topic in topics && exists i :: 0 <= i < |articles| && topic.id in articles[i].topicIds
  {
    TopicsWithArticlesContents(topics, articles, topic);
  }
}
