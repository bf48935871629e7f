/**
 * The block dispatch of src/components/article-blocks/BlockRenderer.tsx: each content block of an
 * article is handed to the renderer for its type, with the props that renderer takes; a block type
 * without a case renders nothing.
 */
module BlockRenderer {
  import opened Wrappers
  import opened Types

  /** The renderer a block is handed to, with its props. */
  datatype Rendered =
    | IntroView(content: string)
    | HeadingView(level: nat, content: string)
    | ParagraphView(content: string)
    | ChartView(visualId: string)
    | TableView(visualId: string)
    | CalloutView(content: string)
    | ContentView(title: string, content: string)
    | NothingRendered

  /** The `switch` on `block.type`. */
  function RenderBlock(block: Block): Rendered {
    match block
    case Intro(c) => IntroView(c)
    case H2(c) => HeadingView(2, c)
    case H3(c) => HeadingView(3, c)
    case P(c) => ParagraphView(c)
    case Chart(id) => ChartView(id)
    case TableRef(id) => TableView(id)
    case Callout(c) => CalloutView(c)
    case Methods(c) => ContentView("Methodology", c)
    case Sources(c) => ContentView("Data Sources", c)
    case Image(_, _, _) => NothingRendered
  }

  /** `blocks.map(...)`. */
  function RenderBlocks(blocks: seq<Block>): (r: seq<Rendered>)
    ensures |r| == |blocks|
  {
    seq(|blocks|, i requires 0 <= i < |blocks| => RenderBlock(blocks[i]))
  }

  /**
   * One output per block, in block order; headings keep their level; chart and table blocks pass
   * their visual id on; methods and sources become titled content blocks; exactly the image blocks
   * render nothing.
   */
  lemma {:induction false} RenderBlocksDispatch(blocks: seq<Block>)
    ensures |RenderBlocks(blocks)| == |blocks|
    ensures forall i :: 0 <= i < |blocks| ==>
      var b := blocks[i]; var r := RenderBlocks(blocks)[i];
      (b.H2? ==> r == HeadingView(2, b.content)) &&
      (b.H3? ==> r == HeadingView(3, b.content)) &&
      (b.Intro? ==> r == IntroView(b.content)) &&
      (b.P? ==> r == ParagraphView(b.content)) &&
      (b.Chart? ==> r == ChartView(b.visualId)) &&
      (b.TableRef? ==> r == TableView(b.visualId)) &&
      (b.Callout? ==> r == CalloutView(b.content)) &&
      (b.Methods? ==> r == ContentView("Methodology", b.content)) &&
      (b.Sources? ==> r == ContentView("Data Sources", b.content)) &&
      (r.NothingRendered? <==> b.Image?)
  {
  }

  /** Rendering a list of blocks renders its parts one after the other. */
  lemma {:induction false} RenderBlocksAppend(a: seq<Block>, b: seq<Block>)
    ensures RenderBlocks(a + b) == RenderBlocks(a) + RenderBlocks(b)
  {
  }

  /** The block a rendered element came from, read off the renderer and its props. */
  function BlockOf(r: Rendered): Option<Block> {
    match r
    case IntroView(c) => Some(Intro(c))
    case HeadingView(level, c) =>
      if level == 2 then Some(H2(c)) else if level == 3 then Some(H3(c)) else None
    case ParagraphView(c) => Some(P(c))
    case ChartView(id) => Some(Chart(id))
    case TableView(id) => Some(TableRef(id))
    case CalloutView(c) => Some(Callout(c))
    case ContentView(title, c) =>
      if title == "Methodology" then Some(Methods(c))
      else if title == "Data Sources" then Some(Sources(c))
      else None
    case NothingRendered => None
  }

  /**
   * The dispatch loses nothing but images: every other block can be read back from what it renders
   * to, so two such blocks that render alike are the same block.
   */
  lemma {:induction false} RenderBlockRoundTrip(b: Block)
    ensures BlockOf(RenderBlock(b)) == if b.Image? then None else Some(b)
  {
  }

  /** Two block lists that render alike hold the same blocks wherever the first one holds no image. */
  lemma {:induction false} RenderBlocksDetermineBlocks(a: seq<Block>, b: seq<Block>)
    requires RenderBlocks(a) == RenderBlocks(b)
    ensures |a| == |b|
    ensures forall i :: 0 <= i < |a| && !a[i].Image? ==> a[i] == b[i]
  {
    forall i | 0 <= i < |a| && !a[i].Image?
      ensures a[i] == b[i]
    {
      assert RenderBlock(a[i]) == RenderBlocks(a)[i] == RenderBlocks(b)[i] == RenderBlock(b[i]);
      RenderBlockRoundTrip(a[i]);
      RenderBlockRoundTrip(b[i]);
    }
  }
}
