/**
 * The sitemap of src/app/sitemap.ts: the six static routes, then one entry per article, then one
 * per topic, each URL prefixed with the site URL taken from the environment.
 */
module Sitemap {
  import opened Wrappers
  import opened Js
  import opened Seqs
  import opened Types

  const DefaultSiteUrl := "http://localhost:9002"

  const StaticRoutes := ["", "/about", "/articles", "/explorer", "/team", "/topics"]

  /** An entry's modification date: the time the sitemap is built, or an article's `updatedAt`. */
  datatype Modified = BuildTime | UpdatedAt(date: string)

  datatype Entry = Entry(url: string, lastModified: Modified)

  /** `process.env.NEXT_PUBLIC_SITE_URL || 'http://localhost:9002'`. */
  function SiteUrl(env: Option<string>): string {
    if Truthy(env) then env.value else DefaultSiteUrl
  }

  function ArticleUrl(siteUrl: string, slug: string): string { siteUrl + "/articles/" + slug }

  function TopicUrl(siteUrl: string, slug: string): string { siteUrl + "/topics/" + slug }

  /** `sitemap()`: the static, article and topic entries, in that order. */
  function BuildSitemap(env: Option<string>, articles: seq<Article>, topics: seq<Topic>): seq<Entry> {
    var siteUrl := SiteUrl(env);
    seq(|StaticRoutes|, i requires 0 <= i < |StaticRoutes| => Entry(siteUrl + StaticRoutes[i], BuildTime))
    + seq(|articles|, i requires 0 <= i < |articles| => Entry(ArticleUrl(siteUrl, articles[i].slug), UpdatedAt(articles[i].updatedAt)))
    + seq(|topics|, i requires 0 <= i < |topics| => Entry(TopicUrl(siteUrl, topics[i].slug), BuildTime))
  }

  /**
   * Six static entries come first, the home page being the site URL itself, then one entry per
   * article and one per topic, in their stored order, with the article and topic paths.
   */
  lemma {:induction false} SitemapLayout(env: Option<string>, articles: seq<Article>, topics: seq<Topic>)
    ensures var m := BuildSitemap(env, articles, topics); var siteUrl := SiteUrl(env);
      |m| == 6 + |articles| + |topics| &&
      m[0].url == siteUrl &&
      (forall i :: 0 <= i < 6 ==> m[i].url == siteUrl + StaticRoutes[i]) &&
      (forall k :: 0 <= k < |articles| ==>
        m[6 + k] == Entry(siteUrl + "/articles/" + articles[k].slug, UpdatedAt(articles[k].updatedAt))) &&
      (forall k :: 0 <= k < |topics| ==>
        m[6 + |articles| + k] == Entry(siteUrl + "/topics/" + topics[k].slug, BuildTime))
  {
    assert StaticRoutes[0] == "";
  }

  /** Without a configured site URL (unset or empty) the local development address is used. */
  lemma {:induction false} SiteUrlDefault(env: Option<string>)
    ensures SiteUrl(env) == DefaultSiteUrl <==> !Truthy(env) || env.value == DefaultSiteUrl
    ensures Truthy(env) ==> SiteUrl(env) == env.value
  {
  }

  /** Every URL in the sitemap starts with the site URL. */
  lemma {:induction false} SitemapUrlsOnSite(env: Option<string>, articles: seq<Article>, topics: seq<Topic>)
    ensures forall e :: e in BuildSitemap(env, articles, topics) ==> StartsWith(e.url, SiteUrl(env))
  {
    var m := BuildSitemap(env, articles, topics);
    var siteUrl := SiteUrl(env);
    forall e | e in m
      ensures StartsWith(e.url, siteUrl)
    {
      var i :| 0 <= i < |m| && m[i] == e;
      var tail := if i < 6 then StaticRoutes[i]
        else if i < 6 + |articles| then "/articles/" + articles[i - 6].slug
        else "/topics/" + topics[i - 6 - |articles|].slug;
      assert e.url == siteUrl + tail;
      assert e.url[..|siteUrl|] == siteUrl;
    }
  }

  /** Articles with distinct slugs get distinct URLs, and so do topics. */
  lemma {:induction false} SitemapUrlsDistinct(siteUrl: string, a: string, b: string)
    ensures ArticleUrl(siteUrl, a) == ArticleUrl(siteUrl, b) <==> a == b
    ensures TopicUrl(siteUrl, a) == TopicUrl(siteUrl, b) <==> a == b
  {
    var p := siteUrl + "/articles/";
    if ArticleUrl(siteUrl, a) == ArticleUrl(siteUrl, b) {
      assert a == ArticleUrl(siteUrl, a)[|p|..];
      assert b == ArticleUrl(siteUrl, b)[|p|..];
    }
    var q := siteUrl + "/topics/";
    if TopicUrl(siteUrl, a) == TopicUrl(siteUrl, b) {
      assert a == TopicUrl(siteUrl, a)[|q|..];
      assert b == TopicUrl(siteUrl, b)[|q|..];
    }
  }
}
