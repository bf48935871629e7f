# NorthEast in Data: a Dafny model of the site's core

NorthEast in Data is a Next.js site that publishes data stories about India's north-eastern
states. A static content store holds the authors, topics, visuals (chart and table
specifications) and articles. Articles are lists of typed content blocks. Chart blocks fetch a
CSV file named by their visual and draw it with ECharts. The stacked bar chart component loads,
cleans, rescales, checks and sorts a CSV or TSV file of its own. Two API routes complete the
core: one proxies a visual's data file from a single allowed host, the other forwards a newsletter
sign-up. Around them sit the explorer, the navigation bar, the topic and home page listings, the
sitemap and the PNG export with its watermark.

This project models that core in Dafny 4 and proves what it promises. There is one module per
source file:

- `Data`: `src/lib/data.ts`
- `Types`: the record shapes of `src/lib/types.ts` that the core reads
- `BarStackedParse`, `BarStackedSort`, `BarStacked`: `src/components/charts/BarStacked.tsx`
- `ChartBlock`: `src/components/article-blocks/ChartBlock.tsx`
- `VisualCard`: `src/components/visual-card.tsx`
- `ParagraphBlock`: `src/components/article-blocks/ParagraphBlock.tsx`
- `BlockRenderer`: `src/components/article-blocks/BlockRenderer.tsx`
- `RelatedArticles`: `src/components/article-blocks/RelatedArticles.tsx`
- `Explorer`: `src/app/explorer/explorer-client.tsx`
- `Nav`: `src/components/Nav.tsx`
- `TopicsPage`: `src/app/topics/page.tsx`
- `HomePage`: `src/app/page.tsx`
- `Sitemap`: `src/app/sitemap.ts`
- `ChartExport`: `src/lib/chart-export.ts`
- `ChartWatermark`: `src/lib/chart-watermark.ts`
- `ChartPalette`: `src/lib/chart-palette.ts`
- `VisualDataRoute`: `src/app/api/visual-data/route.ts`
- `NewsletterRoute`: `src/app/api/newsletter/route.ts`

Shared modules stand for the JavaScript built-ins the code relies on:

- `Js`: values, truthiness, `trim`, `replace(/c/g, '')`, `toLowerCase` and `String(v)`.
- `JsNumber`: `Number(s)` and `parseFloat(s)` over the decimal literal grammar of section 7.1.4.1
  of ECMA-262, plus `Math.round` and `Math.ceil`.
- `Objects`: a JavaScript object as a dictionary that remembers the order its keys were created
  in. `Object.keys` and `Object.entries` list the keys that are array indices ("0", "2011")
  first, in ascending numeric order, and the others after them in creation order, as section
  10.1.11.1 of ECMA-262 (OrdinaryOwnPropertyKeys) prescribes.
- `Seqs`: `filter`, `slice`, `find` and `findIndex`.
- `Wrappers`: `Option`.

JavaScript numbers are exact reals with NaN and the two infinities kept apart, so float rounding is
not modelled. I/O is a parameter of the model: fetches, parsers, URL parsing, text measurement and
number printing. A component's state updates are functions from the old state to the new. Where
the source updates a local variable in a loop, the model is a `method` with that loop, proved equal
to a specification function. These loops are:

- in BarStacked, the cleaning loop, the scan for the largest value, the rescaling loop and the
  `forEach` that fills the colour map;
- the tag set of the explorer;
- the title-shortening loop of the export;
- the emphasis scan of a paragraph;
- in the palette, the matcher loop with its early returns and the in-place accent overwrite of
  the colour list.

## Model

| member | source | states |
|---|---|---|
| `Data.GetArticleBySlug` | src/lib/data.ts:410 | the article found carries the slug asked for and is the first stored one that does; none is found exactly when no stored article has that slug |
| `Data.GetAuthorById` | src/lib/data.ts:412 | the author found has the id asked for and is the first such; none exactly when no stored author has it |
| `Data.GetTopicBySlug` | src/lib/data.ts:414 | the topic found has the slug and is the first such; none exactly when no stored topic has it |
| `Data.GetVisualById` | src/lib/data.ts:416 | the visual found has the id and is the first such; none exactly when no stored visual has it |
| `Data.GettersReturnStoredArrays` | src/lib/data.ts:409-416 | the four list getters hand out the stored arrays unchanged |
| `Data.VisualIdsAreUnique` | src/lib/data.ts:15-150 | no two stored visuals share an id |
| `Data.ArticleSlugsAreUnique` | src/lib/data.ts:152-406 | no two stored articles share a slug |
| `Data.BlockVisualsResolve` | src/lib/data.ts:152-406 | every chart and table block of every stored article names a stored visual |
| `Data.RelatedResolve` | src/lib/data.ts:152-406 | every related-article id of a stored article is found by the slug lookup |
| `Data.AuthorsResolve` | src/lib/data.ts:152-406 | every author id of a stored article is found by the author lookup |
| `Data.TopicsResolve` | src/lib/data.ts:152-406 | every topic id of a stored article is the id of a stored topic |
| `Data.VisualAt` | src/lib/data.ts:416 | the lookup of a stored visual's id returns that visual |
| `BarStackedParse.FirstLine` | src/components/charts/BarStacked.tsx:44-45 | the first line is a prefix of the text with no line feed, followed by a line feed or the end of the text |
| `BarStackedParse.SplitLength` | src/components/charts/BarStacked.tsx:46-47 | splitting gives one piece more than there are separators |
| `BarStackedParse.SplitJoin` | src/components/charts/BarStacked.tsx:46-47 | joining the pieces with the separator gives the text back |
| `BarStackedParse.DelimiterByCount` | src/components/charts/BarStacked.tsx:46-48 | the TSV parser is chosen exactly when the first line holds more tabs than commas, so a tie goes to CSV |
| `BarStackedParse.NormalizeKeyClean` | src/components/charts/BarStacked.tsx:52 | a normalised header holds no U+FEFF and neither starts nor ends with whitespace |
| `BarStackedParse.ClassifyCellCases` | src/components/charts/BarStacked.tsx:54-62 | a cell becomes a number exactly when its cleaned text is non-empty and converts to a finite number, and then it is that number; otherwise it keeps its original text |
| `BarStackedParse.CleanTextKeepsNumerals` | src/components/charts/BarStacked.tsx:54-60 | the cleaning chain keeps exactly the digits, dots and signs of the cell, in order |
| `BarStackedParse.CleanCellNeverInfinite` | src/components/charts/BarStacked.tsx:61-62 | over exact reals, the cleaned text of a cell never converts to an infinity, so the finiteness test only rejects NaN |
| `BarStackedParse.DigitCellIsNumber` | src/components/charts/BarStacked.tsx:54-62 | a cell whose digits, dots and signs are plain digits (for example "1,234" or "56%") becomes that decimal number |
| `BarStackedParse.CleanPairs` | src/components/charts/BarStacked.tsx:51-62 | each entry yields its normalised header with its cleaned cell, in column order |
| `BarStackedParse.CleanRow` | src/components/charts/BarStacked.tsx:50-64 | the cleaning loop builds the record that assigns the cleaned entries in column order and skips blank headers |
| `BarStackedParse.CleanedOrder` | src/components/charts/BarStacked.tsx:50-64 | the record creates each non-blank normalised header once, in order of first occurrence, and no other key |
| `BarStackedParse.CleanedCell` | src/components/charts/BarStacked.tsx:62 | a header holds the cleaned cell of the last column whose header normalises to it |
| `BarStackedParse.CleanedKeys` | src/components/charts/BarStacked.tsx:49-64 | the keys of a cleaned row, as `Object.entries` and `Object.keys` list them, are its non-blank normalised headers, each once: the array-index headers first in ascending order, then the others in order of first occurrence |
| `BarStackedSort.PrecedesTransitive` | src/components/charts/BarStacked.tsx:129-136 | the comparator's order, with ties broken by input position, is transitive |
| `BarStackedSort.PrecedesTotal` | src/components/charts/BarStacked.tsx:129-136 | of two distinct rows exactly one precedes the other |
| `BarStackedSort.SortPositionsPermutation` | src/components/charts/BarStacked.tsx:129 | the sorted positions are a permutation of the input positions |
| `BarStackedSort.SortPositionsInOrder` | src/components/charts/BarStacked.tsx:129-136 | the sorted positions follow the comparator, and tied rows keep their input order |
| `BarStackedSort.SortPositionsDistinct` | src/components/charts/BarStacked.tsx:129 | no row appears twice in the sorted order |
| `BarStackedSort.SortedOrder` | src/components/charts/BarStacked.tsx:129-136 | of two output rows the earlier has the larger finite value, or the earlier lacks a finite value, or they are tied and keep their input order |
| `BarStackedSort.SortedIsPermutation` | src/components/charts/BarStacked.tsx:129 | reading the rows in sorted order gives every row exactly as often as it occurs |
| `BarStacked.ParseBody` | src/components/charts/BarStacked.tsx:44-65 | one record per parsed row, each the cleaned row, with the parser chosen from the first line |
| `BarStacked.StartLoad` | src/components/charts/BarStacked.tsx:40 | starting a load sets the loading flag and keeps the previous rows and error |
| `BarStacked.FinishLoad` | src/components/charts/BarStacked.tsx:41-74 | once cancelled nothing changes; otherwise loading ends, an OK response stores the parsed rows and clears the error, and a failure stores its message |
| `BarStacked.FailureMessageNonEmpty` | src/components/charts/BarStacked.tsx:42-71 | a failed load always leaves a non-empty message (`HTTP <status>`, the thrown message or the default) |
| `BarStacked.IndexKey` | src/components/charts/BarStacked.tsx:84-88 | the index column is one of the headers, or "district" when there are none |
| `BarStacked.IndexKeyFirstMatch` | src/components/charts/BarStacked.tsx:86 | the first header that is 'district', 'grower type' or 'metric' (trimmed, any letter case) is the index column |
| `BarStacked.IndexKeyFallback` | src/components/charts/BarStacked.tsx:87-88 | without such a header the first header is the index column, and "district" without headers |
| `BarStacked.SeriesKeys` | src/components/charts/BarStacked.tsx:90-91 | the series columns are exactly the other headers, in header order |
| `BarStacked.MaxOfBounds` | src/components/charts/BarStacked.tsx:100-104 | the largest value is at least 0, bounds every finite series value, and is 0 or one of them |
| `BarStacked.LargestSeriesValue` | src/components/charts/BarStacked.tsx:100-104 | the nested scan returns the maximum, from 0, of the finite series values of every row |
| `BarStacked.NormalizeRow` | src/components/charts/BarStacked.tsx:107-113 | the loop over the series columns builds the rescaled row |
| `BarStacked.NormalizedCells` | src/components/charts/BarStacked.tsx:105-113 | rescaling keeps the column order, sets exactly the series cells with a finite value to that value (times 100 when the data looks like proportions) and leaves every other cell unchanged |
| `BarStacked.NormalizeRows` | src/components/charts/BarStacked.tsx:107-114 | the map over the raw rows rescales each row, one output row per input row |
| `BarStacked.ImbalancesReportRows` | src/components/charts/BarStacked.tsx:117-127 | a row is reported exactly when its total is more than the tolerance away from 100, and every report comes from such a row |
| `BarStacked.ImbalancesInRowOrder` | src/components/charts/BarStacked.tsx:125-127 | there is one report per imbalanced row and no other: the k-th report is that of the k-th imbalanced row, so reports keep row order and each row is reported once |
| `BarStacked.BigKey` | src/components/charts/BarStacked.tsx:116 | the sort column is the first series column mentioning "big" in any letter case, else the last series column; with no series it is the property "undefined" |
| `BarStacked.SortKeys` | src/components/charts/BarStacked.tsx:130-131 | the sort compares each row's `Number` of its sort-column cell |
| `BarStacked.Checks` | src/components/charts/BarStacked.tsx:117-123 | one label and total per row, the total summing only the finite series values |
| `BarStacked.Prepare` | src/components/charts/BarStacked.tsx:81-144 | the scan, the rescaling loop and the arrangement give the preparation: index column and series columns chosen from the first row's keys as `Object.keys` lists them, imbalance reports and sorted rows |
| `BarStacked.EmptyPreparation` | src/components/charts/BarStacked.tsx:82 | without rows there is no data, "district" is the index column, and there are no series and no reports |
| `BarStacked.ArrangedOrder` | src/components/charts/BarStacked.tsx:125-143 | the arranged data holds every rescaled row exactly once: rows without a finite sort value first, then values from largest to smallest, ties in input order |
| `BarStacked.PreparedLength` | src/components/charts/BarStacked.tsx:81-144 | the prepared data has one row per raw row |
| `BarStacked.StatusPrecedence` | src/components/charts/BarStacked.tsx:179-186 | loading wins over an error, an error over missing data, missing data over missing series; the chart is drawn exactly when none of them holds |
| `BarStacked.FailedLoadShowsError` | src/components/charts/BarStacked.tsx:66-74 | after a failed load the component shows `Error: ` and the failure message (the render at line 180) |
| `BarStacked.BuildColorMap` | src/components/charts/BarStacked.tsx:154-158 | the map has exactly the series keys, and a key gets the palette colour of its last position, cycling through four colours |
| `BarStacked.BarColor` | src/components/charts/BarStacked.tsx:252 | a bar takes its series' mapped colour, or the "big" colour for an unmapped series |
| `BarStacked.BarLabelMeaning` | src/components/charts/BarStacked.tsx:240-243 | a segment is labelled exactly when its value is finite and above 5, and the label is digits and '%' that read back as the value to within one half |
| `BarStacked.TooltipValueMeaning` | src/components/charts/BarStacked.tsx:313-327 | the tooltip shows '-' exactly for a non-finite value; otherwise the rounded value: digits within one half of a value of at least 0, '-' and digits whose negation is within one half of a value that rounds below 0, and '0' for a negative value that rounds to 0 |
| `ChartBlock.ResolveVisual` | src/components/article-blocks/ChartBlock.tsx:18 | the `visual` prop wins; without it a truthy id is looked up in the store, and without either there is no visual |
| `ChartBlock.StartEffect` | src/components/article-blocks/ChartBlock.tsx:22-32 | the block fetches exactly when it has a visual whose spec is valid, and then from its data URL; an invalid spec sets the configuration error and fetches nothing |
| `ChartBlock.FilterRows` | src/components/article-blocks/ChartBlock.tsx:37-42 | the kept rows are, in input order, exactly the parsed rows whose x cell and whose stack cells (or y cell) are present |
| `ChartBlock.FinishEffect` | src/components/article-blocks/ChartBlock.tsx:33-52 | once unmounted nothing changes; otherwise the filtered rows or the error text are stored |
| `ChartBlock.ParseNumReadsText` | src/components/article-blocks/ChartBlock.tsx:62-64 | for every non-nullish value `parseNum` is the text rule applied to `String(v)` |
| `ChartBlock.SeparatorsIgnored` | src/components/article-blocks/ChartBlock.tsx:62 | percent signs and thousands separators never change the value read |
| `ChartBlock.BlankParsesToZero` | src/components/article-blocks/ChartBlock.tsx:62-64 | blank text, or text of only whitespace, '%' and ',', reads 0 |
| `ChartBlock.DigitsParse` | src/components/article-blocks/ChartBlock.tsx:62-64 | a plain digit string reads as its decimal value |
| `ChartBlock.BareTextParses` | src/components/article-blocks/ChartBlock.tsx:63-64 | text of no whitespace, '%' or ',' reads as the finite value `parseFloat` gives it, and 0 otherwise |
| `ChartBlock.WordReadsZero` | src/components/article-blocks/ChartBlock.tsx:63-64 | text that starts with no sign, digit, dot or "Infinity" reads 0 |
| `ChartBlock.InfinityReadsZero` | src/components/article-blocks/ChartBlock.tsx:63-64 | text that starts with a possibly negated "Infinity" reads 0 |
| `ChartBlock.NonFiniteReadsZero` | src/components/article-blocks/ChartBlock.tsx:63-64 | the spellings of NaN and the infinities read 0 |
| `ChartBlock.BoolReadsZero` | src/components/article-blocks/ChartBlock.tsx:62-64 | "true" and "false" read 0 |
| `ChartBlock.StackValues` | src/components/article-blocks/ChartBlock.tsx:70-71 | one parsed value per stack, in stack order |
| `ChartBlock.RowShares` | src/components/article-blocks/ChartBlock.tsx:68-73 | one share per stack, each the stack's value as a percentage of the row's divisor |
| `ChartBlock.Divisor` | src/components/article-blocks/ChartBlock.tsx:71 | the divisor is never 0 and is the total whenever the total is non-zero |
| `ChartBlock.StackLabel` | src/components/article-blocks/ChartBlock.tsx:75-96 | a non-empty configured label names the stack, otherwise the stack key does |
| `ChartBlock.Categories` | src/components/article-blocks/ChartBlock.tsx:58 | one category per row, the text of its x cell |
| `ChartBlock.StackSeriesOf` | src/components/article-blocks/ChartBlock.tsx:68-81 | a stacked series is named by its label, coloured by its configured colour, and holds the stack's share of each row |
| `ChartBlock.PlainValue` | src/components/article-blocks/ChartBlock.tsx:105-108 | a number cell plots as itself, any other cell through `parseNum`, and without a y column every value is 0 |
| `ChartBlock.BuildOption` | src/components/article-blocks/ChartBlock.tsx:55-129 | no option without a visual; stacked percentage bars exactly for a bar visual with stacks, with one legend entry per series; otherwise one series named by `yLabel` or `y`, a table drawn as a line, smooth exactly for a line visual |
| `ChartBlock.Render` | src/components/article-blocks/ChartBlock.tsx:131-146 | without a visual the configuration notice; then an error wins over the loading text, which shows while there are no rows; the chart exactly otherwise |
| `ChartBlock.RowSharesSum` | src/components/article-blocks/ChartBlock.tsx:69-72 | the shares of a row add up to 100 when its total is non-zero, and to 0 when it is zero |
| `ChartBlock.PercentagesSum` | src/components/article-blocks/ChartBlock.tsx:71-72 | percentages of a list's total add up to 100, or to 0 for a zero total |
| `ChartBlock.StackedColumnsSum` | src/components/article-blocks/ChartBlock.tsx:67-100 | each category's column of the stacked option is the row's shares, adding up to 100 (or 0 for a zero total) |
| `ChartBlock.ZeroTotalSharesNeedNotBeZero` | src/components/article-blocks/ChartBlock.tsx:71-72 | a zero-total row of mixed signs gets non-zero shares (500 and -500) |
| `ChartBlock.EmptyResultLooksPending` | src/components/article-blocks/ChartBlock.tsx:140-146 | a fetch whose rows are all filtered out renders the same loading text as before any data arrived |
| `ChartBlock.InvalidSpecShowsError` | src/components/article-blocks/ChartBlock.tsx:22-32 | an invalid spec fetches nothing and shows the configuration error |
| `ChartBlock.InlineDataVisualRejected` | src/components/article-blocks/ChartBlock.tsx:24-28 | the stored visual 'assam-employment-rate', which has inline data and no data URL, is rejected by the block |
| `VisualCard.BlankValueIsZero` | src/components/visual-card.tsx:16-19 | an empty or whitespace-only string reads 0 |
| `VisualCard.ParseValueDigits` | src/components/visual-card.tsx:14-22 | a string of digits, with any ',' or '%' among them and blanks around them, reads as the number its digits spell (" 1,234 " reads 1234) |
| `VisualCard.CleanValueTextLacks` | src/components/visual-card.tsx:17 | the cleaned text holds no ',' and no '%' |
| `VisualCard.CartesianStringValuesFinite` | src/components/visual-card.tsx:16-28 | a string y cell always plots as a finite value |
| `VisualCard.LineAndBarShareData` | src/components/visual-card.tsx:24-67 | a line and a bar chart of the same visual plot the same categories and values under the same axis and series names, and differ in series type |
| `VisualCard.CartesianAppendRow` | src/components/visual-card.tsx:24-28 | one more inline row adds one category and one value at the end and leaves the earlier ones and the names unchanged |
| `VisualCard.IconMatchesBody` | src/components/visual-card.tsx:69-125 | the header icon agrees with the body: a line icon exactly over a line chart, a bar icon exactly over a bar chart, a table icon exactly over a table (or its failure), no icon exactly over the unsupported notice |
| `ParagraphBlock.CloseFromShortest` | src/components/article-blocks/ParagraphBlock.tsx:7 | the lazy match stops at the first `</em>`, with no line terminator before it; when there is none, every later `</em>` has a line terminator in front of it |
| `ParagraphBlock.NextMatchLeftmost` | src/components/article-blocks/ParagraphBlock.tsx:7-11 | each `exec` finds the leftmost match at or after `lastIndex`, and finds none only when no match starts there |
| `ParagraphBlock.MatchesOrdered` | src/components/article-blocks/ParagraphBlock.tsx:11-18 | the matches the loop meets are well placed, left to right, without overlap |
| `ParagraphBlock.SplitEmphasis` | src/components/article-blocks/ParagraphBlock.tsx:6-22 | the `exec` loop and the trailing slice emit exactly the parts of the scan: plain text between matches, an emphasis run per match, the remaining text |
| `ParagraphBlock.ParagraphEmpty` | src/components/article-blocks/ParagraphBlock.tsx:2 | nothing is rendered exactly for empty or absent content |
| `ParagraphBlock.ParagraphIsScan` | src/components/article-blocks/ParagraphBlock.tsx:3-4 | the shortcut for text lacking a tag renders exactly what the scan would |
| `ParagraphBlock.NoTagSinglePart` | src/components/article-blocks/ParagraphBlock.tsx:3-4 | text lacking `<em>` or `</em>` is one plain part |
| `ParagraphBlock.ParagraphRoundTrip` | src/components/article-blocks/ParagraphBlock.tsx:1-25 | no text is lost or duplicated: wrapping each emphasis run back in its tags and joining the parts gives the content |
| `ParagraphBlock.PartsWellFormed` | src/components/article-blocks/ParagraphBlock.tsx:13-21 | no plain part is empty, and no emphasis text holds a line terminator or a `</em>` |
| `ParagraphBlock.EmphasisStartsIncrease` | src/components/article-blocks/ParagraphBlock.tsx:16 | emphasis runs start at strictly increasing positions, so their keys `em-<start>` are distinct |
| `BlockRenderer.RenderBlocks` | src/components/article-blocks/BlockRenderer.tsx:15 | one output per block |
| `BlockRenderer.RenderBlockRoundTrip` | src/components/article-blocks/BlockRenderer.tsx:16-33 | every block but an image can be read back from the renderer and props it is handed to; an image renders nothing |
| `BlockRenderer.RenderBlocksDetermineBlocks` | src/components/article-blocks/BlockRenderer.tsx:15-35 | two block lists that render alike have the same length and the same blocks wherever the first holds no image |
| `BlockRenderer.RenderBlocksAppend` | src/components/article-blocks/BlockRenderer.tsx:15 | rendering a list of blocks renders its parts one after the other |
| `RelatedArticles.StoreFindsBySlug` | src/lib/data.ts:410 | the store's lookup only answers with the article carrying the slug asked for |
| `RelatedArticles.Candidates` | src/components/article-blocks/RelatedArticles.tsx:5-7 | never more candidates than ids |
| `RelatedArticles.CandidatesAppend` | src/components/article-blocks/RelatedArticles.tsx:5-7 | the candidates keep the order of the ids, part by part |
| `RelatedArticles.CandidatesOfOne` | src/components/article-blocks/RelatedArticles.tsx:5-7 | one id contributes its article exactly when the lookup finds one other than the current article |
| `RelatedArticles.CandidatesContents` | src/components/article-blocks/RelatedArticles.tsx:5-7 | every candidate is found by its own slug among the ids and is not the current article; every id that resolves to another article yields a candidate |
| `RelatedArticles.RelatedSelection` | src/components/article-blocks/RelatedArticles.tsx:5-8 | at most three articles, the first candidates in id order, exactly three when there are that many, none of them the current one |
| `RelatedArticles.RelatedViewEmpty` | src/components/article-blocks/RelatedArticles.tsx:10-12 | the section is omitted exactly when no id resolves to an article other than the current one |
| `Explorer.AllTags` | src/app/explorer/explorer-client.tsx:15-19 | the nested loops over the visuals' tags, then the filter, give the tag list |
| `Explorer.TagOccurrencesMembership` | src/app/explorer/explorer-client.tsx:17 | a tag is added to the set exactly when some visual carries it |
| `Explorer.AllTagsContents` | src/app/explorer/explorer-client.tsx:15-19 | the tag list holds exactly the tags some visual carries that are no topic's slug, each once, in order of first use |
| `Explorer.FilteredVisualsContents` | src/app/explorer/explorer-client.tsx:21-27 | a visual is listed exactly when both filters are 'all' or among its tags; the list keeps the visuals' order |
| `Explorer.InitialShowsAll` | src/app/explorer/explorer-client.tsx:12-13 | with both filters at 'all' every visual is shown, in order |
| `Nav.ActiveLinks` | src/components/Nav.tsx:26-31 | About is active exactly under '/about'; Home, Topics and Insights exactly on their own paths |
| `Nav.AtMostOneActive` | src/components/Nav.tsx:11-31 | whatever the path, at most one link is active |
| `Nav.NestedPagesInactive` | src/components/Nav.tsx:26-31 | an article or topic page leaves every link inactive |
| `TopicsPage.ArticleTopicIdsMembership` | src/app/topics/page.tsx:9-11 | an id is in the set exactly when some article is filed under it |
| `TopicsPage.TopicsWithArticlesContents` | src/app/topics/page.tsx:12 | a topic is listed exactly when it is one of the topics and some article is filed under its id; the list keeps the topics' order |
| `TopicsPage.TopicsWithArticlesDistinct` | src/app/topics/page.tsx:12 | topics with distinct ids give a listing with distinct ids |
| `TopicsPage.InfrastructureNotListed` | src/app/topics/page.tsx:9-12 | with the stored content the 'infrastructure' topic has no article and is not listed |
| `HomePage.HomeListsShape` | src/app/page.tsx:15-22 | at most eight topics, the first of those with articles; the first min(3, n) articles as insights; the first article featured when there is one; the other insights, at most two, secondary |
| `HomePage.HomeTopicsHaveArticles` | src/app/page.tsx:16-19 | every topic on the home page is a stored topic with at least one article |
| `Sitemap.SitemapLayout` | src/app/sitemap.ts:7-29 | six static entries (the home page being the site URL itself), then one per article dated by its `updatedAt`, then one per topic, in stored order |
| `Sitemap.SiteUrlDefault` | src/app/sitemap.ts:5 | a configured non-empty site URL is used; otherwise the local development address |
| `Sitemap.SitemapUrlsOnSite` | src/app/sitemap.ts:15-25 | every URL starts with the site URL |
| `Sitemap.SitemapUrlsDistinct` | src/app/sitemap.ts:20-25 | distinct slugs give distinct article URLs and distinct topic URLs |
| `ChartExport.TruncateText` | src/lib/chart-export.ts:8-18 | the shrinking loop returns the title shortened as specified by `Truncated` |
| `ChartExport.LongestFitIsLongest` | src/lib/chart-export.ts:14-16 | the loop stops at the longest prefix that fits with the ellipsis, and every longer one does not fit |
| `ChartExport.TruncatedCases` | src/lib/chart-export.ts:8-18 | '' exactly for a blank title; a fitting title comes back trimmed; a title that does not fit becomes its longest fitting prefix with '...', or stays whole when no non-empty prefix fits |
| `ChartExport.TruncatedFits` | src/lib/chart-export.ts:8-18 | the result fits the width unless it is the trimmed title itself |
| `ChartExport.TruncatedCutsTitle` | src/lib/chart-export.ts:14-17 | when '...' never narrows text, a shortened title is a proper non-empty prefix with the ellipsis |
| `ChartExport.ClampRange` | src/lib/chart-export.ts:27-28 | clamping lands in the range and keeps a value already inside it |
| `ChartExport.ExportSizes` | src/lib/chart-export.ts:26-28 | the padding is at least 12 pixels and 2% of the width once that is larger; the title font is 16..28 pixels, the watermark font 10..14 |
| `ChartExport.RoundMonotone` | src/lib/chart-export.ts:26-28 | `Math.round` never decreases as its argument grows |
| `ChartExport.ExportSizesMonotone` | src/lib/chart-export.ts:26-28 | a wider image never gets a smaller padding or smaller fonts |
| `ChartExport.TitlePadRange` | src/lib/chart-export.ts:29 | the title band is 0 without a title and 26..45 pixels with one |
| `ChartExport.DownloadNameRule` | src/lib/chart-export.ts:63 | the name ends in '.png', starts with the given name, is unchanged exactly when that already ends in '.png', and the rule is idempotent |
| `ChartExport.TitleTextFits` | src/lib/chart-export.ts:42-46 | the drawn title fits between the paddings in the title font, unless it is the whole trimmed title |
| `ChartExport.ExportCanvas` | src/lib/chart-export.ts:21-63 | nothing is exported without an instance or a context; otherwise the canvas is as wide as the image and taller by the title band, the image fills it below the band, and the file name ends in '.png' |
| `ChartExport.ExportTexts` | src/lib/chart-export.ts:40-58 | a title is drawn exactly when given, centred in the band in a 16..28 pixel font and shortened to fit; the watermark exactly when non-empty, in a 10..14 pixel font |
| `ChartWatermark.BoxWidthBounds` | src/lib/chart-watermark.ts:19-20 | the box is at least 102 pixels wide, wide enough for the estimated text plus paddings, and the narrowest whole width meeting both |
| `ChartWatermark.WatermarkTextFits` | src/lib/chart-watermark.ts:17-49 | the text element's clip width covers the estimated width of the text that sized the box, with 6 pixels to spare, and the text keeps a `paddingX` margin on both sides of the box |
| `ChartWatermark.WatermarkDefaults` | src/lib/chart-watermark.ts:13-32 | without options: a 102 × 11 box 8 pixels from the top right, in a 5-pixel font |
| `ChartWatermark.WatermarkTextOnlySizes` | src/lib/chart-watermark.ts:20-44 | two texts of the same length give the same graphic |
| `ChartPalette.DefaultPaletteLacksAccent` | src/lib/chart-palette.ts:1-12 | the muted palette holds no colour equal to the accent, and `series` is the accent followed by the muted palette |
| `ChartPalette.PickHighlightSeriesIndex` | src/lib/chart-palette.ts:41-54 | the loop with early returns computes `HighlightSeriesIndex` |
| `ChartPalette.MatcherHitNone` | src/lib/chart-palette.ts:43-46 | no highlight is found by the matchers exactly when no matcher matches any name |
| `ChartPalette.MatcherHitFirst` | src/lib/chart-palette.ts:43-46 | the earliest matcher that matches anything decides, at the first name it matches: matcher order beats series order |
| `ChartPalette.HighlightShortList` | src/lib/chart-palette.ts:42 | lists of at most one name give index 0, even the empty list |
| `ChartPalette.HighlightByMatcher` | src/lib/chart-palette.ts:43-46 | the first name matched by the earliest matching highlight matcher is highlighted |
| `ChartPalette.HighlightBenchmarkFallback` | src/lib/chart-palette.ts:47-52 | with no matcher hit but some benchmark name, the first non-benchmark name is highlighted |
| `ChartPalette.HighlightUndefined` | src/lib/chart-palette.ts:41-54 | nothing is highlighted exactly when there are two or more names, no matcher hits, and no name or every name is a benchmark |
| `ChartPalette.Totals` | src/lib/chart-palette.ts:58-60 | one total per series, summing only its finite values |
| `ChartPalette.Largest` | src/lib/chart-palette.ts:61 | the maximum is one of the totals and bounds them all |
| `ChartPalette.TotalsUndefined` | src/lib/chart-palette.ts:56-63 | nothing is picked exactly when no series total is positive (including no series) |
| `ChartPalette.TotalsPickFirstLargest` | src/lib/chart-palette.ts:61-63 | the pick is the first series with the largest total, and that total is positive |
| `ChartPalette.SeriesColors` | src/lib/chart-palette.ts:75-80 | one colour per series |
| `ChartPalette.BuildSeriesColorMap` | src/lib/chart-palette.ts:66-82 | mapping the palette and then overwriting the highlighted slot gives the colour map |
| `ChartPalette.ColorsWithoutHighlight` | src/lib/chart-palette.ts:72-77 | without a highlight index the palette is cycled in series order |
| `ChartPalette.ColorsWithHighlight` | src/lib/chart-palette.ts:71-80 | the highlighted series, if its name is non-empty, gets the accent; every other series cycles through the accent-free palette, so it never shows the accent |
| `ChartPalette.ColorMapKeys` | src/lib/chart-palette.ts:81 | the map creates one entry per distinct name, in order of first occurrence; `Object.keys` lists each name once, the array-index names first in ascending order and the others in order of first occurrence |
| `ChartPalette.ColorMapLastWins` | src/lib/chart-palette.ts:81 | a repeated name keeps the colour of its last occurrence |
| `VisualDataRoute.CheckOutcomes` | src/app/api/visual-data/route.ts:7-21 | a missing or empty parameter gives 400 'Missing url', an unparsable one 400 'Invalid url', one not https on the allowed host 400 'URL not allowed'; the fetch happens exactly when all pass, at the parsed URL |
| `VisualDataRoute.RejectedWithoutFetch` | src/app/api/visual-data/route.ts:8-21 | a rejected request never reaches the upstream: its 400 reply is the same whatever the upstream would answer |
| `VisualDataRoute.GetOutcomes` | src/app/api/visual-data/route.ts:23-38 | a failed upstream passes its status on as a JSON error; a 200 reply happens exactly for an OK upstream and carries its body, its content type or the CSV default, and 'no-store' |
| `VisualDataRoute.RelayNamesStatus` | src/app/api/visual-data/route.ts:26 | the error message is 'Upstream fetch failed (' followed by digits that read back as the upstream status |
| `NewsletterRoute.PostStatus` | src/app/api/newsletter/route.ts:6-42 | an unreadable body gives 500; a non-string or blank email 400 'Email is required.'; then a failed send 500, a non-OK answer 502 and an OK one 200 with the confirmation; only 200 replies are not errors |
| `NewsletterRoute.BlankEmailRejected` | src/app/api/newsletter/route.ts:10-15 | a whitespace-only address is rejected like a missing one |
| `NewsletterRoute.OnlyTrimmedEmailSent` | src/app/api/newsletter/route.ts:17-25 | only the one-field form holding the trimmed address is sent, and only after the address passed |
| `NewsletterRoute.ConfirmedOnlyAfterOkSend` | src/app/api/newsletter/route.ts:27-36 | a confirmation means an accepted address was sent and the service answered OK |
| `JsNumber.NumeralTextIsNeverInfinite` | src/components/charts/BarStacked.tsx:60-62 | over exact reals, `Number` of a text of digits, dots and signs is never an infinity |
| `JsNumber.DigitsConvert` | src/components/article-blocks/ChartBlock.tsx:63 | a plain run of digits converts to its decimal value under both `Number` and `parseFloat` |
| `JsNumber.ToNumber` | src/components/charts/BarStacked.tsx:61 | `Number` of blank or whitespace-only text is 0 |
| `JsNumber.NatTextValue` | src/app/api/visual-data/route.ts:26 | the decimal text of a status reads back as that status |
| `JsNumber.IntTextValue` | src/components/charts/BarStacked.tsx:327 | the decimal text of an integer is digits that read back as it, after a '-' when it is negative |
| `JsNumber.Round` | src/lib/chart-export.ts:26 | `Math.round` lands within one half of its argument |
| `JsNumber.Ceil` | src/lib/chart-watermark.ts:20 | `Math.ceil` is the least integer not below its argument |
| `Objects.AssignOrder` | src/lib/chart-palette.ts:81 | assigning pairs creates each key once, in order of first assignment |
| `Objects.AssignLastWins` | src/lib/chart-palette.ts:81 | a key holds the value of its last assignment |
| `Objects.OwnKeysOrder` | src/components/charts/BarStacked.tsx:84 | `Object.keys` lists the created keys, each as often as created: the array indices first in ascending numeric order, then the other keys in creation order |
| `Objects.OwnKeysPlain` | src/lib/chart-palette.ts:81 | without array-index keys the listing is the creation order |
| `Objects.OwnKeysSameKeys` | src/components/charts/BarStacked.tsx:51 | the listing holds exactly the created keys |
| `Objects.EntryList` | src/components/charts/BarStacked.tsx:51 | `Object.entries` pairs each listed key, in listing order, with the value it holds |
| `Objects.IndicesListedFirst` | src/components/charts/BarStacked.tsx:84 | a name key created before two index keys, the larger first, is listed after both, which come in ascending order |
| `Objects.YearsListedFirst` | src/components/charts/BarStacked.tsx:84 | the headers "State", "2024", "2011" are listed as "2011", "2024", "State" |
| `Seqs.FindIndexFirst` | src/lib/chart-palette.ts:44 | `findIndex` returns the first index satisfying the test |

## Behaviour worth noting

- BarStacked's comparator returns -1 when only the second row has a finite sort value. So rows
  WITHOUT a finite value are sorted first, not last (`BarStacked.ArrangedOrder`).
- ChartBlock gives a row whose stack values total 0 the divisor 1. A row of mixed signs with a zero
  total therefore gets non-zero shares that add up to 0 (`ChartBlock.ZeroTotalSharesNeedNotBeZero`).
- ChartBlock reads the response text without checking `ok`. A non-OK response body is parsed as
  CSV like any other, so only a thrown error reaches the error text.
- With no series columns, BarStacked's sort column is `keys[0]`, which is undefined. Reading
  `row[undefined]` reads the property "undefined" (`BarStacked.BigKey`).
- A CSV whose headers include years ("State", "2024", "2011") yields rows whose `Object.keys` lists
  "2011" and "2024" before "State" (`Objects.YearsListedFirst`). BarStacked's index column then
  falls back to the first listed key, a year, when no header is an index name.
- `buildSeriesColorMap` with a highlight index and a palette made only of accent colours cycles
  through an empty list. Every colour but the highlighted series' is then undefined; that one
  still gets the accent when its name is non-empty (`ChartPalette.ColorsWithHighlight`, with
  `Cycle` giving `None`).

## Left out

- Fetching and async ordering are left out. Every fetch is a parameter or an outcome value:
  BarStacked's load, ChartBlock's fetch, the proxy's upstream and the newsletter service. Only the
  `cancelled` and `mounted` guards are modelled.
- The CSV/TSV parsers (d3's `csvParse`/`tsvParse`, Papa Parse with `dynamicTyping`) are parameters
  that give the parsed rows.
- Float rounding and the number-to-text conversion are left out. Numbers are exact reals.
  `String(n)` of a finite number is a parameter. `toFixed(1)` in BarStacked's imbalance text and
  ChartBlock's tooltip is not modelled, so a report keeps its label and total as values.
- `Number(s)` does not recognise hexadecimal, octal or binary literals; they give NaN.
- `toLowerCase` lower-cases ASCII letters only.
- Text lengths count characters, not UTF-16 code units.
- The regular expressions of chart-palette.ts are lists of predicates on the name. Which names
  they accept is not modelled.
- URL parsing (`new URL`) is a parameter. The `URLSearchParams` encoding of the newsletter form is
  kept as its list of (name, value) fields.
- A `fetch` that throws in the visual-data route is unhandled in the source and is not modelled.
- Canvas drawing, image loading, `getDataURL` and the browser download are not modelled. Text
  measurement is a parameter.
- In the visual card, the copy, share and download click handlers and the toast messages are not
  modelled. Nor are a row that is null or not an object, or presentation-only option fields
  (colours, grid, axis styling).
- In ChartBlock and BarStacked, presentation-only fields are not modelled: grid, toolbox, data
  zoom, theme colours, margins, ARIA ids and the axis-tick renderer.
- The sitemap keeps `updatedAt` as text. `new Date()` stands for the build time (`BuildTime`).
- Console logging is not modelled: BarStacked's `console.warn` when no series column is found
  (the series list is simply empty) and ChartBlock's `console.error` of a failed fetch (the error
  text is still stored).
- The imbalance reports are returned as values. The panel that lists them under the chart
  (BarStacked.tsx lines 216-221) and its `aria-describedby` id are presentation and are not
  modelled.
- React's re-render timing is not modelled. Each effect is a function from the old state to the
  new state.
- The explorer's hash scrolling and timers, and its JSX layout, are not modelled.
- The AI flows under `src/ai/` and the pages outside the named core are not part of this model.
- Data.GetArticleBySlug: the source casts a missing article to `Article`. The model returns
  `None`, and callers handle it as `undefined`.
- BarStacked.Checks: the report's `toFixed(1)` text is left out; the total is kept as a number.
- BarStackedParse.CleanCellNeverInfinite: stated over exact reals. In JavaScript a numeral beyond
  the double range (four hundred '9's, say) converts to Infinity, and the cell then keeps its text;
  the model reads it as that large finite number.
- JsNumber.NumeralTextIsNeverInfinite: stated over exact reals; `Number` of a numeral beyond the
  double range is Infinity in JavaScript, which exact reals do not capture.
- ChartPalette.TotalsUndefined: stated over exact reals. When a series' float sum overflows to
  Infinity, `Math.max` of the totals is Infinity and the source returns undefined
  (chart-palette.ts:62); exact reals never overflow, so the model never takes that branch.
