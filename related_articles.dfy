/**
 * The related-articles section of src/components/article-blocks/RelatedArticles.tsx: each listed
 * slug is looked up in the content store, slugs that resolve to nothing or to the current article
 * are dropped, and the first three that remain are shown; with none left the section is omitted.
 */
module RelatedArticles {
  import opened Wrappers
  import opened Seqs
  import opened Types
  import opened Data

  /** An article lookup by slug; the component uses the content store's `getArticleBySlug`. */
  type Lookup = string -> Option<Article>

  /** A lookup that only ever answers with an article carrying the slug asked for. */
  ghost predicate FindsBySlug(lookup: Lookup) {
    forall slug :: lookup(slug).Some? ==> lookup(slug).value.slug == slug
  }

  /** The content store's lookup is such a lookup. */
  lemma StoreFindsBySlug()
    ensures FindsBySlug(GetArticleBySlug)
  {
  }

  /** `map(lookup)` then `filter(article => article && article.slug !== currentSlug)`. */
  function Candidates(lookup: Lookup, relatedIds: seq<string>, currentSlug: string): (r: seq<Article>)
    ensures |r| <= |relatedIds|
  {
    if relatedIds == [] then []
    else
      var found := lookup(relatedIds[0]);
      (if found.Some? && found.value.slug != currentSlug then [found.value] else [])
      + Candidates(lookup, relatedIds[1..], currentSlug)
  }

  /** The articles shown: the first three candidates. */
  function Related(lookup: Lookup, relatedIds: seq<string>, currentSlug: string): seq<Article> {
    Take(Candidates(lookup, relatedIds, currentSlug), 3)
  }

  /** What the component renders: nothing, or the section with its article cards. */
  datatype RelatedView = NoSection | Section(articles: seq<Article>)

  function RelatedSection(lookup: Lookup, relatedIds: seq<string>, currentSlug: string): RelatedView {
    var related := Related(lookup, relatedIds, currentSlug);
    if |related| == 0 then NoSection else Section(related)
  }

  /** `RelatedArticles({relatedArticleIds, currentSlug})`, looking slugs up in the content store. */
  function RelatedArticlesView(relatedIds: seq<string>, currentSlug: string): RelatedView {
    RelatedSection(GetArticleBySlug, relatedIds, currentSlug)
  }

  /**
   * The candidates of a list are those of its first part followed by those of the rest: the ids'
   * order is kept and a repeated id gives a repeated article.
   */
  lemma {:induction false} CandidatesAppend(lookup: Lookup, a: seq<string>, b: seq<string>, currentSlug: string)
    ensures Candidates(lookup, a + b, currentSlug) == Candidates(lookup, a, currentSlug) + Candidates(lookup, b, currentSlug)
  {
    if a != [] {
      assert (a + b)[1..] == a[1..] + b;
      CandidatesAppend(lookup, a[1..], b, currentSlug);
    } else {
      assert a + b == b;
    }
  }

  /** One id contributes its article when the lookup finds one other than the current article, else nothing. */
  lemma {:induction false} CandidatesOfOne(lookup: Lookup, id: string, currentSlug: string)
    requires FindsBySlug(lookup)
    ensures Candidates(lookup, [id], currentSlug) ==
      if lookup(id).Some? && id != currentSlug then [lookup(id).value] else []
  {
    assert [id][1..] == [];
  }

  /**
   * Every candidate is the stored article of one of the ids and is not the current article; every
   * id that resolves to an article other than the current one yields a candidate.
   */
  lemma {:induction false} CandidatesContents(lookup: Lookup, relatedIds: seq<string>, currentSlug: string)
    requires FindsBySlug(lookup)
    ensures forall a :: a in Candidates(lookup, relatedIds, currentSlug) ==>
      a.slug != currentSlug && a.slug in relatedIds && lookup(a.slug) == Some(a)
    ensures forall i :: 0 <= i < |relatedIds| && relatedIds[i] != currentSlug && lookup(relatedIds[i]).Some? ==>
      lookup(relatedIds[i]).value in Candidates(lookup, relatedIds, currentSlug)
  {
    if relatedIds != [] {
      var rest := relatedIds[1..];
      CandidatesContents(lookup, rest, currentSlug);
      forall i | 0 < i < |relatedIds|
        ensures relatedIds[i] == rest[i - 1]
      {
      }
    }
  }

  /**
   * At most three articles are shown, none of them the current one, each found by its own slug
   * among the ids, and they are the first candidates in id order.
   */
  lemma {:induction false} RelatedSelection(lookup: Lookup, relatedIds: seq<string>, currentSlug: string)
    requires FindsBySlug(lookup)
    ensures var r := Related(lookup, relatedIds, currentSlug);
      |r| <= 3 &&
      r <= Candidates(lookup, relatedIds, currentSlug) &&
      (|Candidates(lookup, relatedIds, currentSlug)| >= 3 ==> |r| == 3) &&
      forall k :: 0 <= k < |r| ==>
        r[k].slug != currentSlug && r[k].slug in relatedIds && lookup(r[k].slug) == Some(r[k])
  {
    CandidatesContents(lookup, relatedIds, currentSlug);
    var r := Related(lookup, relatedIds, currentSlug);
    forall k | 0 <= k < |r|
      ensures r[k] in Candidates(lookup, relatedIds, currentSlug)
    {
    }
  }

  /** The section is omitted exactly when no id resolves to an article other than the current one. */
  lemma {:induction false} RelatedViewEmpty(lookup: Lookup, relatedIds: seq<string>, currentSlug: string)
    requires FindsBySlug(lookup)
    ensures RelatedSection(lookup, relatedIds, currentSlug).NoSection? <==>
      forall i :: 0 <= i < |relatedIds| ==> relatedIds[i] == currentSlug || lookup(relatedIds[i]).None?
    ensures RelatedSection(lookup, relatedIds, currentSlug).Section? ==>
      RelatedSection(lookup, relatedIds, currentSlug).articles == Related(lookup, relatedIds, currentSlug)
  {
    CandidatesContents(lookup, relatedIds, currentSlug);
    var c := Candidates(lookup, relatedIds, currentSlug);
    if c != [] {
      assert c[0] in c;
      assert Related(lookup, relatedIds, currentSlug) != [];
    }
  }
}
