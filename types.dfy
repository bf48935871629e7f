/** The site's content records (articles, blocks, topics, authors, visuals), as declared in src/lib/types.ts. */
module Types {
  import opened Wrappers
  import opened Js

  datatype VisualType = Bar | Line | Table | Scatter

  /**
   * The `spec` object of a visual. It is untyped in the source; these are the properties the
   * site's code reads. `stackLabels` and `colors` are empty when absent.
   */
  datatype Spec = Spec(
    dataUrl: Option<string>,
    x: Option<string>,
    y: Option<string>,
    stacks: Option<seq<string>>,
    stackLabels: map<string, string>,
    colors: map<string, string>,
    yLabel: Option<string>,
    data: Option<seq<Row>>,
    headers: Option<seq<string>>,
    rows: Option<seq<seq<Value>>>)

  datatype Source = Source(name: string, url: string)

  datatype Visual = Visual(
    id: string,
    title: string,
    kind: VisualType,
    spec: Spec,
    caption: string,
    units: string,
    coverage: string,
    source: Source,
    lastUpdated: string,
    tags: seq<string>)

  datatype Block =
    | Intro(content: string)
    | H2(content: string)
    | H3(content: string)
    | P(content: string)
    | Image(src: string, alt: string, caption: Option<string>)
    | Chart(visualId: string)
    | TableRef(visualId: string)
    | Callout(content: string)
    | Methods(content: string)
    | Sources(content: string)

  datatype Author = Author(id: string, name: string, avatarUrl: string, role: Option<string>)

  datatype Topic = Topic(id: string, slug: string, name: string, description: string, imageId: string, color: Option<string>)

  /** An article, with the properties the site's listing, routing and rendering code reads. */
  datatype Article = Article(
    slug: string,
    title: string,
    subtitle: string,
    authorIds: seq<string>,
    topicIds: seq<string>,
    publishedAt: string,
    updatedAt: string,
    readingTime: nat,
    blocks: seq<Block>,
    relatedArticleIds: seq<string>)
}
