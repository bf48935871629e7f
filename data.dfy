/**
 * The static content store of src/lib/data.ts: authors, topics, visuals and articles held in
 * constant arrays, the list getters, the `find`-based lookups, and the referential integrity of
 * the stored records (ids unique, every reference resolves).
 */
module Data {
  import opened Wrappers
  import opened Js
  import opened Seqs
  import opened Types

  const Authors: seq<Author> := [
    Author("jane-doe", "Jane Doe", "https://i.pravatar.cc/150?u=jane", Some("Lead Researcher")),
    Author("john-smith", "John Smith", "https://i.pravatar.cc/150?u=john", Some("Data Scientist"))
  ]

  const Topics: seq<Topic> := [
    Topic("employment", "employment", "Employment",
      "Trends and analysis of employment data across the North-Eastern states.",
      "topic-employment", Some("topic-teal")),
    Topic("education", "education", "Education",
      "Insights into literacy rates, schooling, and educational infrastructure.",
      "topic-education", Some("topic-orange")),
    Topic("agriculture", "agriculture", "Agriculture",
      "Data on crop production, farming practices, and agricultural economy.",
      "topic-agriculture", Some("topic-green")),
    Topic("infrastructure", "infrastructure", "Infrastructure",
      "Development of infrastructure like roads, bridges, and power.",
      "topic-infrastructure", Some("topic-indigo"))
  ]

  const Visuals: seq<Visual> := [
    Visual(
      id := "tea-growers-distribution",
      title := "Tea Cultivation Distribution by District",
      kind := Bar,
      spec := Spec(
        dataUrl := Some("https://tngxrcncslblrarjqtwn.supabase.co/storage/v1/object/public/datasets/tea_ex.csv"),
        x := Some("District"),
        y := None,
        stacks := Some(["small share pct", "big growers pct"]),
        stackLabels := map["small share pct" := "Small Tea Growers", "big growers pct" := "Large Tea Estates"],
        colors := map["small share pct" := "#91cc75", "big growers pct" := "#5470c6"],
        yLabel := Some("Area Distribution (%)"),
        data := None,
        headers := None,
        rows := None),
      caption := "Proportion of tea cultivation area between small tea growers and large estates across districts.",
      units := "%",
      coverage := "Districts of Assam",
      source := Source("Tea Board of India", "https://tngxrcncslblrarjqtwn.supabase.co/storage/v1/object/public/datasets/tea_ex.csv"),
      lastUpdated := "2025-10-30",
      tags := ["agriculture", "tea", "assam", "land-distribution"]),
    Visual(
      id := "assam-tea-exports-stacked",
      title := "Tea Export Distribution by Type",
      kind := Bar,
      spec := Spec(
        dataUrl := Some("https://tngxrcncslblrarjqtwn.supabase.co/storage/v1/object/public/datasets/tea_ex.csv"),
        x := Some("year"),
        y := None,
        stacks := Some(["orthodox", "ctc", "green", "others"]),
        stackLabels := map["orthodox" := "Orthodox", "ctc" := "CTC", "green" := "Green Tea", "others" := "Other Types"],
        colors := map["orthodox" := "#91cc75", "ctc" := "#fac858", "green" := "#5470c6", "others" := "#ee6666"],
        yLabel := Some("Proportion of Tea Exports"),
        data := None,
        headers := None,
        rows := None),
      caption := "Distribution of different tea types in Assam's exports over the years.",
      units := "%",
      coverage := "State of Assam",
      source := Source("Tea Board of India", "https://tngxrcncslblrarjqtwn.supabase.co/storage/v1/object/public/datasets/tea_ex.csv"),
      lastUpdated := "2025-10-30",
      tags := ["agriculture", "exports", "tea", "assam"]),
    Visual(
      id := "assam-tea-exports",
      title := "Tea Exports from Assam",
      kind := Line,
      spec := Spec(
        dataUrl := Some("https://tngxrcncslblrarjqtwn.supabase.co/storage/v1/object/public/datasets/tea_ex.csv"),
        x := Some("year"),
        y := Some("exports"),
        stacks := None,
        stackLabels := map[],
        colors := map[],
        yLabel := Some("Tea Exports (in Million Kg)"),
        data := None,
        headers := None,
        rows := None),
      caption := "Historical trends in tea exports from Assam showing annual fluctuations and overall growth.",
      units := "Million Kg",
      coverage := "State of Assam",
      source := Source("Tea Board of India", "https://tngxrcncslblrarjqtwn.supabase.co/storage/v1/object/public/datasets/tea_ex.csv"),
      lastUpdated := "2025-10-30",
      tags := ["agriculture", "exports", "tea", "assam"]),
    Visual(
      id := "assam-employment-rate",
      title := "Employment Rate in Assam (2011-2024)",
      kind := Line,
      spec := Spec(
        dataUrl := None,
        x := Some("year"),
        y := Some("rate"),
        stacks := None,
        stackLabels := map[],
        colors := map[],
        yLabel := Some("Employment Rate (%)"),
        data := Some([map["year" := Str("2011"), "rate" := Num(Finite(58.0))],
          map["year" := Str("2014"), "rate" := Num(Finite(60.0))],
          map["year" := Str("2017"), "rate" := Num(Finite(62.0))],
          map["year" := Str("2020"), "rate" := Num(Finite(61.0))],
          map["year" := Str("2024"), "rate" := Num(Finite(65.0))]]),
        headers := None,
        rows := None),
      caption := "The employment rate in Assam has seen a steady increase, with a slight dip in 2020.",
      units := "%",
      coverage := "State of Assam",
      source := Source("State Labour Department", "#"),
      lastUpdated := "2024-05-01",
      tags := ["employment", "assam", "2011-2024"]),
    Visual(
      id := "mizoram-literacy-rate",
      title := "Literacy Rate in Mizoram (2011 vs 2021)",
      kind := Bar,
      spec := Spec(
        dataUrl := None,
        x := Some("year"),
        y := Some("rate"),
        stacks := None,
        stackLabels := map[],
        colors := map[],
        yLabel := Some("Literacy Rate (%)"),
        data := Some([map["year" := Str("2011"), "rate" := Num(Finite(91.3))],
          map["year" := Str("2021"), "rate" := Num(Finite(93.5))]]),
        headers := None,
        rows := None),
      caption := "Mizoram continues to be one of the states with the highest literacy rates in India.",
      units := "%",
      coverage := "State of Mizoram",
      source := Source("National Statistical Office", "#"),
      lastUpdated := "2023-11-15",
      tags := ["education", "mizoram", "2011-2021"]),
    Visual(
      id := "nagaland-crop-production",
      title := "Major Crop Production in Nagaland (2023)",
      kind := Table,
      spec := Spec(
        dataUrl := None,
        x := None,
        y := None,
        stacks := None,
        stackLabels := map[],
        colors := map[],
        yLabel := None,
        data := None,
        headers := Some(["Crop", "Production (in '000 Tonnes)"]),
        rows := Some([[Str("Rice"), Num(Finite(530.0))], [Str("Maize"), Num(Finite(120.0))], [Str("Pulses"), Num(Finite(45.0))], [Str("Oilseeds"), Num(Finite(30.0))]])),
      caption := "Rice remains the dominant crop in Nagaland's agricultural output.",
      units := "Thousand Tonnes",
      coverage := "State of Nagaland",
      source := Source("Directorate of Agriculture, Nagaland", "#"),
      lastUpdated := "2024-02-20",
      tags := ["agriculture", "nagaland", "2023"])
  ]

  const AssamTeaCultivationLandscape: Article :=
  Article(
        slug := "assam-tea-cultivation-landscape",
        title := "Assam's Tea Growing Landscape: Small Growers vs Large Estates",
        subtitle := "Analysis of land distribution between small tea growers and established estates reveals changing dynamics in tea cultivation",
        authorIds := ["jane-doe", "john-smith"],
        topicIds := ["agriculture"],
        publishedAt := "2025-11-01",
        updatedAt := "2025-11-01",
        readingTime := 5,
        blocks := [
          Intro(Prose1),
          H2(Prose2),
          P(Prose3),
          Chart("tea-growers-distribution"),
          H3(Prose4),
          P(Prose5),
          Callout(Prose6),
          Methods(Prose7),
          Sources(Prose8)
        ],
        relatedArticleIds := ["assam-tea-exports-composition", "assam-employment-trends-2011-2024"])

  const AssamTeaExportsComposition: Article :=
  Article(
        slug := "assam-tea-exports-composition",
        title := "Evolution of Assam's Tea Export Portfolio",
        subtitle := "A detailed breakdown of tea varieties in Assam's export market reveals shifting consumer preferences",
        authorIds := ["jane-doe", "john-smith"],
        topicIds := ["agriculture"],
        publishedAt := "2025-11-01",
        updatedAt := "2025-11-01",
        readingTime := 6,
        blocks := [
          Intro(Prose9),
          H2(Prose10),
          P(Prose11),
          Chart("assam-tea-exports-stacked"),
          H3(Prose12),
          P(Prose13),
          Callout(Prose14),
          Methods(Prose15),
          Sources(Prose16)
        ],
        relatedArticleIds := ["assam-employment-trends-2011-2024", "nagaland-agricultural-reforms"])

  const AssamTeaExportsAnalysis: Article :=
  Article(
        slug := "assam-tea-exports-analysis",
        title := "Assam's Tea Industry: Export Trends and Market Impact",
        subtitle := "A comprehensive analysis of tea export patterns from Assam, revealing key trends and market dynamics",
        authorIds := ["jane-doe", "john-smith"],
        topicIds := ["agriculture"],
        publishedAt := "2025-11-01",
        updatedAt := "2025-11-01",
        readingTime := 7,
        blocks := [
          Intro(Prose17),
          H2(Prose18),
          P(Prose19),
          Chart("assam-tea-exports"),
          H3(Prose20),
          P(Prose21),
          Callout(Prose22),
          Methods(Prose23),
          Sources(Prose24)
        ],
        relatedArticleIds := ["nagaland-agricultural-reforms"])

  const AssamEmploymentTrends20112024: Article :=
  Article(
        slug := "assam-employment-trends-2011-2024",
        title := "How Assam's job market changed over a decade",
        subtitle := "An in-depth look at employment trends from 2011 to 2024, highlighting sector-wise growth and impacts.",
        authorIds := ["jane-doe"],
        topicIds := ["employment"],
        publishedAt := "2024-06-15",
        updatedAt := "2024-06-18",
        readingTime := 8,
        blocks := [
          Intro(Prose25),
          H2(Prose26),
          P(Prose27),
          Chart("assam-employment-rate"),
          H3(Prose28),
          P(Prose29),
          Callout(Prose30),
          Methods(Prose31),
          Sources(Prose32)
        ],
        relatedArticleIds := ["mizoram-literacy-push", "nagaland-agricultural-reforms"])

  const MizoramLiteracyPush: Article :=
  Article(
        slug := "mizoram-literacy-push",
        title := "Why Mizoram leads India in literacy",
        subtitle := "Exploring the role of community, policy, and innovation in maintaining one of the highest literacy rates in the country.",
        authorIds := ["john-smith"],
        topicIds := ["education"],
        publishedAt := "2024-05-20",
        updatedAt := "2024-05-22",
        readingTime := 6,
        blocks := [
          Intro(Prose33),
          H2(Prose34),
          Chart("mizoram-literacy-rate"),
          P(Prose35),
          Callout(Prose36),
          Methods(Prose37),
          Sources(Prose38)
        ],
        relatedArticleIds := ["assam-employment-trends-2011-2024", "nagaland-agricultural-reforms"])

  const NagalandAgriculturalReforms: Article :=
  Article(
        slug := "nagaland-agricultural-reforms",
        title := "Nagaland's agricultural shift: What the data shows",
        subtitle := "How modern techniques and crop diversification are transforming agriculture in Nagaland, moving beyond traditional farming.",
        authorIds := ["jane-doe", "john-smith"],
        topicIds := ["agriculture"],
        publishedAt := "2024-04-10",
        updatedAt := "2024-04-12",
        readingTime := 9,
        blocks := [
          Intro(Prose39),
          H2(Prose40),
          P(Prose41),
          TableRef("nagaland-crop-production"),
          Methods(Prose42),
          Sources(Prose43)
        ],
        relatedArticleIds := ["assam-employment-trends-2011-2024", "mizoram-literacy-push"])

  const Articles: seq<Article> := [
    AssamTeaCultivationLandscape,
    AssamTeaExportsComposition,
    AssamTeaExportsAnalysis,
    AssamEmploymentTrends20112024,
    MizoramLiteracyPush,
    NagalandAgriculturalReforms
  ]
  const Prose1 := "The landscape of tea cultivation in Assam is experiencing a significant transformation, with small tea growers playing an increasingly important role alongside traditional large estates. This analysis examines the distribution of tea cultivation area across different districts, highlighting the emerging dual structure of the industry."
  const Prose2 := "District-wise Distribution"
  const Prose3 := "The following chart shows how tea cultivation area is distributed between small growers and large estates across different districts of Assam. This distribution pattern reveals interesting regional variations and the evolving nature of tea cultivation in the state."
  const Prose4 := "Regional Variations"
  const Prose5 := "The data reveals significant variations in the distribution pattern across districts. Some areas show a strong presence of small tea growers, while others remain dominated by traditional large estates. These differences often reflect historical land use patterns, local economic conditions, and the success of small grower initiatives."
  const Prose6 := "Small tea growers have emerged as a vital force in Assam's tea industry, contributing significantly to the total cultivation area and demonstrating the sector's evolving inclusivity."
  const Prose7 := "Analysis is based on land holding data from the Tea Board of India. Small tea growers are defined as those with tea cultivation areas up to 10.12 hectares (25 acres)."
  const Prose8 := "Data sourced from the Tea Board of India's land holding records and district-wise cultivation statistics."
  const Prose9 := "The composition of Assam's tea exports has evolved significantly, reflecting both changing global preferences and adaptations in local production methods. This analysis examines how different tea varieties have contributed to the export market over time."
  const Prose10 := "Shifting Patterns in Tea Varieties"
  const Prose11 := "The following chart illustrates how the proportion of different tea varieties in Assam's exports has changed. This visualization helps us understand the dynamic nature of tea production and market demands."
  const Prose12 := "Key Insights"
  const Prose13 := "The data reveals several interesting trends in tea variety distribution. Traditional CTC (Crush, Tear, Curl) and Orthodox teas continue to dominate, while specialty varieties like green tea have shown steady growth, indicating evolving consumer preferences."
  const Prose14 := "The rise in green tea proportion signals a growing international demand for healthier tea options and Assam's capability to adapt its production methods."
  const Prose15 := "Data analysis is based on official export records from the Tea Board of India. The proportions are calculated as percentages of total annual exports for each variety."
  const Prose16 := "Export composition data sourced from the Tea Board of India's annual reports and export statistics database."
  const Prose17 := "Assam tea, known for its rich flavor and distinctive character, has long been a cornerstone of India's agricultural exports. This analysis examines the export trends and their implications for the region's economy."
  const Prose18 := "Historical Export Trends"
  const Prose19 := "The following chart illustrates the evolution of tea exports from Assam over the years. The data reveals interesting patterns that reflect both local production capabilities and global market demands."
  const Prose20 := "Key Observations"
  const Prose21 := "The export volumes show significant year-to-year variations, influenced by factors such as weather conditions, global market prices, and international trade dynamics."
  const Prose22 := "Assam produces approximately 52% of India's tea and contributes significantly to the global tea market."
  const Prose23 := "The analysis uses official export data from the Tea Board of India. Export volumes are measured in million kilograms and represent the total annual exports from Assam to various international markets."
  const Prose24 := "Data sourced from the Tea Board of India's annual reports and export statistics database."
  const Prose25 := "Assam has witnessed significant shifts in its employment landscape over the past decade. This article dissects the data to reveal the underlying trends, successes, and persistent challenges."
  const Prose26 := "Overall Employment Growth"
  const Prose27 := "From 2011 to 2024, the state's overall employment rate has improved, reflecting economic development and new opportunities. The following chart illustrates this upward trajectory."
  const Prose28 := "Sectoral Contributions"
  const Prose29 := "The services sector has emerged as the largest contributor to new jobs, while the agricultural sector's share has seen a gradual decline, a common sign of economic transition."
  const Prose30 := "The IT and services sectors in Guwahati have absorbed over 50,000 new workers in the last five years alone."
  const Prose31 := "The analysis is based on quarterly reports from the State Labour Department and data from the National Statistical Office (NSO) surveys. Employment rate is calculated as the percentage of the working-age population that is employed."
  const Prose32 := "Data sourced from the official websites of the State Labour Department of Assam and the National Statistical Office (NSO)."
  const Prose33 := "Mizoram's success in education is a story of community effort and effective governance. This article delves into the key drivers behind its impressive literacy statistics."
  const Prose34 := "Literacy Rate Comparison"
  const Prose35 := "The state has consistently ranked among the top in India for literacy. The chart above shows the progress made between the 2011 and 2021 censuses."
  const Prose36 := "Community-led initiatives, such as local libraries and reading clubs, have played a pivotal role in fostering a culture of learning."
  const Prose37 := "Literacy rates are derived from decadal census data provided by the National Statistical Office."
  const Prose38 := "Data sourced from the Census of India reports."
  const Prose39 := "Agriculture in Nagaland is undergoing a significant transformation. Farmers are moving beyond subsistence farming to embrace commercial crops and sustainable practices."
  const Prose40 := "Dominant Crops"
  const Prose41 := "While rice remains the staple, there is a growing emphasis on high-value crops. The table below outlines the production of major crops in the state for the year 2023."
  const Prose42 := "Production data is collected annually by the Directorate of Agriculture, Nagaland, through field surveys."
  const Prose43 := "Data is from the annual report of the Directorate of Agriculture, Nagaland."

  function GetArticles(): seq<Article> { Articles }
  function GetAuthors(): seq<Author> { Authors }
  function GetTopics(): seq<Topic> { Topics }
  function GetVisuals(): seq<Visual> { Visuals }

  /** `articles.find(a => a.slug === slug)`. */
  function GetArticleBySlug(slug: string): (r: Option<Article>)
    ensures r.Some? ==> r.value in Articles && r.value.slug == slug
    ensures r.None? <==> forall i :: 0 <= i < |Articles| ==> Articles[i].slug != slug
    ensures r.Some? ==> exists i :: 0 <= i < |Articles| && Articles[i] == r.value && forall j :: 0 <= j < i ==> Articles[j].slug != slug
  {
    Find(Articles, (a: Article) => a.slug == slug)
  }

  /** `authors.find(a => a.id === id)`. */
  function GetAuthorById(id: string): (r: Option<Author>)
    ensures r.Some? ==> r.value in Authors && r.value.id == id
    ensures r.None? <==> forall i :: 0 <= i < |Authors| ==> Authors[i].id != id
    ensures r.Some? ==> exists i :: 0 <= i < |Authors| && Authors[i] == r.value && forall j :: 0 <= j < i ==> Authors[j].id != id
  {
    Find(Authors, (a: Author) => a.id == id)
  }

  /** `topics.find(t => t.slug === slug)`. */
  function GetTopicBySlug(slug: string): (r: Option<Topic>)
    ensures r.Some? ==> r.value in Topics && r.value.slug == slug
    ensures r.None? <==> forall i :: 0 <= i < |Topics| ==> Topics[i].slug != slug
    ensures r.Some? ==> exists i :: 0 <= i < |Topics| && Topics[i] == r.value && forall j :: 0 <= j < i ==> Topics[j].slug != slug
  {
    Find(Topics, (t: Topic) => t.slug == slug)
  }

  /** `visuals.find(v => v.id === id)`. */
  function GetVisualById(id: string): (r: Option<Visual>)
    ensures r.Some? ==> r.value in Visuals && r.value.id == id
    ensures r.None? <==> forall i :: 0 <= i < |Visuals| ==> Visuals[i].id != id
    ensures r.Some? ==> exists i :: 0 <= i < |Visuals| && Visuals[i] == r.value && forall j :: 0 <= j < i ==> Visuals[j].id != id
  {
    Find(Visuals, (v: Visual) => v.id == id)
  }

  /** The list getters hand out the stored arrays themselves. */
  lemma GettersReturnStoredArrays()
    ensures GetArticles() == Articles && GetAuthors() == Authors
    ensures GetTopics() == Topics && GetVisuals() == Visuals
  {
  }

  lemma VisualIdsAreUnique()
    ensures forall i, j :: 0 <= i < j < |Visuals| ==> Visuals[i].id != Visuals[j].id
  {
  }

  lemma ArticleSlugsAreUnique()
    ensures forall i, j :: 0 <= i < j < |Articles| ==> Articles[i].slug != Articles[j].slug
  {
  }

  /** Every chart and table block of a stored article names a stored visual. */
  lemma BlockVisualsResolve()
    ensures forall i, k ::
              0 <= i < |Articles| && 0 <= k < |Articles[i].blocks| && (Articles[i].blocks[k].Chart? || Articles[i].blocks[k].TableRef?)
              ==> GetVisualById(Articles[i].blocks[k].visualId).Some?
  {
  }

  /** A slug held by the article at index `j` is found by `GetArticleBySlug`. */
  lemma {:induction false} ArticleSlugResolves(slug: string, j: nat)
    requires j < |Articles| && Articles[j].slug == slug
    ensures GetArticleBySlug(slug).Some?
  {
  }

  /** The visual at index `j` is what `GetVisualById` returns for its id. */
  lemma {:induction false} VisualAt(id: string, j: nat)
    requires j < |Visuals| && Visuals[j].id == id
    ensures GetVisualById(id) == Some(Visuals[j])
  {
    VisualIdsAreUnique();
    var r := GetVisualById(id);
    var k :| 0 <= k < |Visuals| && Visuals[k] == r.value && forall i :: 0 <= i < k ==> Visuals[i].id != id;
    assert k == j;
  }

  /** An id held by the author at index `j` is found by `GetAuthorById`. */
  lemma {:induction false} AuthorIdResolves(id: string, j: nat)
    requires j < |Authors| && Authors[j].id == id
    ensures GetAuthorById(id).Some?
  {
  }

  /** Every related-article id of a stored article is the slug of a stored article. */
  lemma RelatedResolve()
    ensures forall i, k ::
              0 <= i < |Articles| && 0 <= k < |Articles[i].relatedArticleIds|
              ==> GetArticleBySlug(Articles[i].relatedArticleIds[k]).Some?
  {
    RelatedOfArticleResolve0();
    RelatedOfArticleResolve1();
    RelatedOfArticleResolve2();
    RelatedOfArticleResolve3();
    RelatedOfArticleResolve4();
    RelatedOfArticleResolve5();
  }

  lemma RelatedOfArticleResolve0()
    ensures forall k :: 0 <= k < |Articles[0].relatedArticleIds| ==> GetArticleBySlug(Articles[0].relatedArticleIds[k]).Some?
  {
    var ids := Articles[0].relatedArticleIds;
    assert |ids| == 2;
    ArticleSlugResolves(ids[0], 1);
    ArticleSlugResolves(ids[1], 3);
  }

  lemma RelatedOfArticleResolve1()
    ensures forall k :: 0 <= k < |Articles[1].relatedArticleIds| ==> GetArticleBySlug(Articles[1].relatedArticleIds[k]).Some?
  {
    var ids := Articles[1].relatedArticleIds;
    assert |ids| == 2;
    ArticleSlugResolves(ids[0], 3);
    ArticleSlugResolves(ids[1], 5);
  }

  lemma RelatedOfArticleResolve2()
    ensures forall k :: 0 <= k < |Articles[2].relatedArticleIds| ==> GetArticleBySlug(Articles[2].relatedArticleIds[k]).Some?
  {
    var ids := Articles[2].relatedArticleIds;
    assert |ids| == 1;
    ArticleSlugResolves(ids[0], 5);
  }

  lemma RelatedOfArticleResolve3()
    ensures forall k :: 0 <= k < |Articles[3].relatedArticleIds| ==> GetArticleBySlug(Articles[3].relatedArticleIds[k]).Some?
  {
    var ids := Articles[3].relatedArticleIds;
    assert |ids| == 2;
    ArticleSlugResolves(ids[0], 4);
    ArticleSlugResolves(ids[1], 5);
  }

  lemma RelatedOfArticleResolve4()
    ensures forall k :: 0 <= k < |Articles[4].relatedArticleIds| ==> GetArticleBySlug(Articles[4].relatedArticleIds[k]).Some?
  {
    var ids := Articles[4].relatedArticleIds;
    assert |ids| == 2;
    ArticleSlugResolves(ids[0], 3);
    ArticleSlugResolves(ids[1], 5);
  }

  lemma RelatedOfArticleResolve5()
    ensures forall k :: 0 <= k < |Articles[5].relatedArticleIds| ==> GetArticleBySlug(Articles[5].relatedArticleIds[k]).Some?
  {
    var ids := Articles[5].relatedArticleIds;
    assert |ids| == 2;
    ArticleSlugResolves(ids[0], 3);
    ArticleSlugResolves(ids[1], 4);
  }

  /** Every author id of a stored article names a stored author. */
  lemma AuthorsResolve()
    ensures forall i, k ::
              0 <= i < |Articles| && 0 <= k < |Articles[i].authorIds|
              ==> GetAuthorById(Articles[i].authorIds[k]).Some?
  {
    AuthorsOfArticleResolve0();
    AuthorsOfArticleResolve1();
    AuthorsOfArticleResolve2();
    AuthorsOfArticleResolve3();
    AuthorsOfArticleResolve4();
    AuthorsOfArticleResolve5();
  }

  lemma AuthorsOfArticleResolve0()
    ensures forall k :: 0 <= k < |Articles[0].authorIds| ==> GetAuthorById(Articles[0].authorIds[k]).Some?
  {
    var ids := Articles[0].authorIds;
    assert |ids| == 2;
    AuthorIdResolves(ids[0], 0);
    AuthorIdResolves(ids[1], 1);
  }

  lemma AuthorsOfArticleResolve1()
    ensures forall k :: 0 <= k < |Articles[1].authorIds| ==> GetAuthorById(Articles[1].authorIds[k]).Some?
  {
    var ids := Articles[1].authorIds;
    assert |ids| == 2;
    AuthorIdResolves(ids[0], 0);
    AuthorIdResolves(ids[1], 1);
  }

  lemma AuthorsOfArticleResolve2()
    ensures forall k :: 0 <= k < |Articles[2].authorIds| ==> GetAuthorById(Articles[2].authorIds[k]).Some?
  {
    var ids := Articles[2].authorIds;
    assert |ids| == 2;
    AuthorIdResolves(ids[0], 0);
    AuthorIdResolves(ids[1], 1);
  }

  lemma AuthorsOfArticleResolve3()
    ensures forall k :: 0 <= k < |Articles[3].authorIds| ==> GetAuthorById(Articles[3].authorIds[k]).Some?
  {
    var ids := Articles[3].authorIds;
    assert |ids| == 1;
    AuthorIdResolves(ids[0], 0);
  }

  lemma AuthorsOfArticleResolve4()
    ensures forall k :: 0 <= k < |Articles[4].authorIds| ==> GetAuthorById(Articles[4].authorIds[k]).Some?
  {
    var ids := Articles[4].authorIds;
    assert |ids| == 1;
    AuthorIdResolves(ids[0], 1);
  }

  lemma AuthorsOfArticleResolve5()
    ensures forall k :: 0 <= k < |Articles[5].authorIds| ==> GetAuthorById(Articles[5].authorIds[k]).Some?
  {
    var ids := Articles[5].authorIds;
    assert |ids| == 2;
    AuthorIdResolves(ids[0], 0);
    AuthorIdResolves(ids[1], 1);
  }

  /** `id` is the id of some stored topic. */
  predicate IsTopicId(id: string)
  {
    exists j :: 0 <= j < |Topics| && Topics[j].id == id
  }

  /** Every topic id of a stored article names a stored topic. */
  lemma TopicsResolve()
    ensures forall i, k ::
              0 <= i < |Articles| && 0 <= k < |Articles[i].topicIds|
              ==> IsTopicId(Articles[i].topicIds[k])
  {
    TopicsOfArticleResolve0();
    TopicsOfArticleResolve1();
    TopicsOfArticleResolve2();
    TopicsOfArticleResolve3();
    TopicsOfArticleResolve4();
    TopicsOfArticleResolve5();
  }

  lemma TopicsOfArticleResolve0()
    ensures forall k :: 0 <= k < |Articles[0].topicIds| ==> IsTopicId(Articles[0].topicIds[k])
  {
    var ids := Articles[0].topicIds;
    assert |ids| == 1;
    assert Topics[2].id == ids[0];
  }

  lemma TopicsOfArticleResolve1()
    ensures forall k :: 0 <= k < |Articles[1].topicIds| ==> IsTopicId(Articles[1].topicIds[k])
  {
    var ids := Articles[1].topicIds;
    assert |ids| == 1;
    assert Topics[2].id == ids[0];
  }

  lemma TopicsOfArticleResolve2()
    ensures forall k :: 0 <= k < |Articles[2].topicIds| ==> IsTopicId(Articles[2].topicIds[k])
  {
    var ids := Articles[2].topicIds;
    assert |ids| == 1;
    assert Topics[2].id == ids[0];
  }

  lemma TopicsOfArticleResolve3()
    ensures forall k :: 0 <= k < |Articles[3].topicIds| ==> IsTopicId(Articles[3].topicIds[k])
  {
    var ids := Articles[3].topicIds;
    assert |ids| == 1;
    assert Topics[0].id == ids[0];
  }

  lemma TopicsOfArticleResolve4()
    ensures forall k :: 0 <= k < |Articles[4].topicIds| ==> IsTopicId(Articles[4].topicIds[k])
  {
    var ids := Articles[4].topicIds;
    assert |ids| == 1;
    assert Topics[1].id == ids[0];
  }

  lemma TopicsOfArticleResolve5()
    ensures forall k :: 0 <= k < |Articles[5].topicIds| ==> IsTopicId(Articles[5].topicIds[k])
  {
    var ids := Articles[5].topicIds;
    assert |ids| == 1;
    assert Topics[2].id == ids[0];
  }
}
