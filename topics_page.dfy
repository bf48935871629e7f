/**
 * The topic listing of src/app/topics/page.tsx: the topics that at least one article is filed
 * under, in the content store's topic order.
 */
module TopicsPage {
  import opened Seqs
  import opened Types
  import opened Data

  /** `articles.flatMap(article => article.topicIds)`. */
  function ArticleTopicIds(articles: seq<Article>): seq<string> {
    if articles == [] then [] else articles[0].topicIds + ArticleTopicIds(articles[1..])
  }

  /** The test `topicIdsWithArticles.has(topic.id)`. */
  function HasArticles(articles: seq<Article>): Topic -> bool {
    (topic: Topic) => topic.id in ArticleTopicIds(articles)
  }

  /** The topics shown: `topics.filter(topic => topicIdsWithArticles.has(topic.id))`. */
  function TopicsWithArticles(topics: seq<Topic>, articles: seq<Article>): seq<Topic> {
    Filter(topics, HasArticles(articles))
  }

  /** An id is in the flattened list exactly when some article lists it. */
  lemma {:induction false} ArticleTopicIdsMembership(articles: seq<Article>, id: string)
    ensures id in ArticleTopicIds(articles) <==> exists i :: 0 <= i < |articles| && id in articles[i].topicIds
  {
    if articles != [] {
      ArticleTopicIdsMembership(articles[1..], id);
      if id in ArticleTopicIds(articles[1..]) {
        var i :| 0 <= i < |articles[1..]| && id in articles[1..][i].topicIds;
        assert articles[i + 1] == articles[1..][i];
      }
      if exists i :: 0 <= i < |articles| && id in articles[i].topicIds {
        var i :| 0 <= i < |articles| && id in articles[i].topicIds;
        if i > 0 {
          assert articles[1..][i - 1] == articles[i];
        }
      }
    }
  }

  /**
   * A topic is listed exactly when it is one of the topics and some article is filed under its
   * id; the list keeps the topics' order.
   */
  lemma {:induction false} TopicsWithArticlesContents(topics: seq<Topic>, articles: seq<Article>, topic: Topic)
    ensures topic in TopicsWithArticles(topics, articles) <==>
      topic in topics && exists i :: 0 <= i < |articles| && topic.id in articles[i].topicIds
    ensures IsSubsequence(TopicsWithArticles(topics, articles), topics)
  {
    ArticleTopicIdsMembership(articles, topic.id);
    FilterIsSubsequence(topics, HasArticles(articles));
    var r := TopicsWithArticles(topics, articles);
    if topic in r {
      var k :| 0 <= k < |r| && r[k] == topic;
    }
    if topic in topics && topic.id in ArticleTopicIds(articles) {
      var k :| 0 <= k < |topics| && topics[k] == topic;
      assert HasArticles(articles)(topics[k]);
    }
  }

  /** Topics with distinct ids give a listing with distinct ids. */
  lemma {:induction false} TopicsWithArticlesDistinct(topics: seq<Topic>, articles: seq<Article>)
    requires forall i, j :: 0 <= i < j < |topics| ==> topics[i].id != topics[j].id
    ensures var r := TopicsWithArticles(topics, articles);
      forall i, j :: 0 <= i < j < |r| ==> r[i].id != r[j].id
  {
    if topics != [] {
      TopicsWithArticlesDistinct(topics[1..], articles);
      var rest := TopicsWithArticles(topics[1..], articles);
      forall k | 0 <= k < |rest|
        ensures rest[k].id != topics[0].id
      {
        var m :| 0 <= m < |topics[1..]| && topics[1..][m] == rest[k];
        assert topics[m + 1] == rest[k];
      }
    }
  }

  /** With the stored content no article is filed under 'infrastructure', so that topic is not listed. */
  lemma InfrastructureNotListed()
    ensures Topics[3].id == "infrastructure" && Topics[3] in Topics
    ensures Topics[3] !in TopicsWithArticles(GetTopics(), GetArticles())
  {
    forall i | 0 <= i < |Articles|
      ensures "infrastructure" !in Articles[i].topicIds
    {
      assert Articles[0].topicIds == ["agriculture"];
      assert Articles[1].topicIds == ["agriculture"];
      assert Articles[2].topicIds == ["agriculture"];
      assert Articles[3].topicIds == ["employment"];
      assert Articles[4].topicIds == ["education"];
      assert Articles[5].topicIds == ["agriculture"];
    }
    TopicsWithArticlesContents(Topics, Articles, Topics[3]);
  }
}
