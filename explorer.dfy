/**
 * The visual explorer of src/app/explorer/explorer-client.tsx: the tag list offered as a filter
 * (every tag used by some visual that is not a topic slug, once each, in first-use order) and the
 * visuals shown for the selected topic and tag.
 */
module Explorer {
  import opened Wrappers
  import opened Seqs
  import opened Objects
  import opened Types

  /** Every visual's tags, visual after visual. */
  function TagOccurrences(visuals: seq<Visual>): seq<string> {
    if visuals == [] then [] else TagOccurrences(visuals[..|visuals| - 1]) + visuals[|visuals| - 1].tags
  }

  /** `topics.some(t => t.slug === tag)`. */
  predicate IsTopicSlug(topics: seq<Topic>, tag: string) {
    exists i :: 0 <= i < |topics| && topics[i].slug == tag
  }

  /** The filter that keeps a tag that no topic uses as its slug. */
  function NotTopicSlug(topics: seq<Topic>): string -> bool {
    tag => !IsTopicSlug(topics, tag)
  }

  /** The tag list as a value: the distinct tags in first-use order, topic slugs removed. */
  function AllTagsOf(visuals: seq<Visual>, topics: seq<Topic>): seq<string> {
    Filter(FirstOccurrences(TagOccurrences(visuals), None), NotTopicSlug(topics))
  }

  /**
   * `allTags`: the nested `forEach` adds every tag to an insertion-ordered set (`tags` holds the
   * set's elements in insertion order), then the topic slugs are filtered out.
   */
  method AllTags(visuals: seq<Visual>, topics: seq<Topic>) returns (r: seq<string>)
    ensures r == AllTagsOf(visuals, topics)
  {
    var tags: seq<string> := [];
    var i := 0;
    while i < |visuals|
      invariant i <= |visuals|
      invariant tags == FirstOccurrences(TagOccurrences(visuals[..i]), None)
    {
      var v := visuals[i];
      var j := 0;
      assert TagOccurrences(visuals[..i]) + v.tags[..0] == TagOccurrences(visuals[..i]);
      while j < |v.tags|
        invariant j <= |v.tags|
        invariant tags == FirstOccurrences(TagOccurrences(visuals[..i]) + v.tags[..j], None)
      {
        AddStep(TagOccurrences(visuals[..i]), v.tags, j);
        if v.tags[j] !in tags {
          tags := tags + [v.tags[j]];
        }
        j := j + 1;
      }
      NextVisual(visuals, i);
      i := i + 1;
    }
    assert visuals[..i] == visuals;
    r := Filter(tags, NotTopicSlug(topics));
  }

  /** Adding one more tag to the set appends it exactly when it is new. */
  lemma {:induction false} AddStep(seen: seq<string>, tags: seq<string>, j: nat)
    requires j < |tags|
    ensures FirstOccurrences(seen + tags[..j + 1], None) ==
      var prev := FirstOccurrences(seen + tags[..j], None);
      if tags[j] in prev then prev else prev + [tags[j]]
  {
    var s := seen + tags[..j + 1];
    assert s[..|s| - 1] == seen + tags[..j];
  }

  /** Once a visual's tags are all added, the set holds the tags of the visuals up to it. */
  lemma {:induction false} NextVisual(visuals: seq<Visual>, i: nat)
    requires i < |visuals|
    ensures TagOccurrences(visuals[..i]) + visuals[i].tags[..|visuals[i].tags|] == TagOccurrences(visuals[..i + 1])
  {
    assert visuals[i].tags[..|visuals[i].tags|] == visuals[i].tags;
    assert visuals[..i + 1][..i] == visuals[..i];
  }

  /** A tag occurs in the concatenated tags exactly when some visual carries it. */
  lemma {:induction false} TagOccurrencesMembership(visuals: seq<Visual>, tag: string)
    ensures tag in TagOccurrences(visuals) <==> exists i :: 0 <= i < |visuals| && tag in visuals[i].tags
  {
    if visuals != [] {
      var init := visuals[..|visuals| - 1];
      TagOccurrencesMembership(init, tag);
      if tag in TagOccurrences(visuals) && tag !in visuals[|visuals| - 1].tags {
        var i :| 0 <= i < |init| && tag in init[i].tags;
        assert visuals[i] == init[i];
      }
      if exists i :: 0 <= i < |visuals| && tag in visuals[i].tags {
        var i :| 0 <= i < |visuals| && tag in visuals[i].tags;
        if i < |init| {
          assert init[i] == visuals[i];
        }
      }
    }
  }

  /**
   * The tag list holds exactly the tags carried by some visual that equal no topic slug, each
   * once, in the order the set first met them.
   */
  lemma {:induction false} AllTagsContents(visuals: seq<Visual>, topics: seq<Topic>, tag: string)
    ensures tag in AllTagsOf(visuals, topics) <==>
      (exists i :: 0 <= i < |visuals| && tag in visuals[i].tags) && !IsTopicSlug(topics, tag)
    ensures Distinct(AllTagsOf(visuals, topics))
    ensures IsSubsequence(AllTagsOf(visuals, topics), FirstOccurrences(TagOccurrences(visuals), None))
  {
    var firsts := FirstOccurrences(TagOccurrences(visuals), None);
    TagOccurrencesMembership(visuals, tag);
    FilterDistinct(firsts, NotTopicSlug(topics));
    FilterIsSubsequence(firsts, NotTopicSlug(topics));
    if tag in firsts && !IsTopicSlug(topics, tag) {
      var k :| 0 <= k < |firsts| && firsts[k] == tag;
      assert NotTopicSlug(topics)(firsts[k]);
    }
  }

  /** The topic and tag chosen in the explorer; `'all'` selects everything. */
  datatype Selection = Selection(topic: string, tag: string)

  const All := "all"

  /** Both filters start at 'all'. */
  const InitialSelection := Selection(All, All)

  /** A visual passes when each filter is 'all' or names one of its tags. */
  predicate Shown(sel: Selection, v: Visual) {
    (sel.topic == All || sel.topic in v.tags) && (sel.tag == All || sel.tag in v.tags)
  }

  /** `filteredVisuals`. */
  function FilteredVisuals(visuals: seq<Visual>, sel: Selection): seq<Visual> {
    Filter(visuals, v => Shown(sel, v))
  }

  /**
   * A visual is listed exactly when it is one of the visuals and both filters let it through; the
   * list keeps the visuals' order.
   */
  lemma {:induction false} FilteredVisualsContents(visuals: seq<Visual>, sel: Selection, v: Visual)
    ensures v in FilteredVisuals(visuals, sel) <==> v in visuals && Shown(sel, v)
    ensures IsSubsequence(FilteredVisuals(visuals, sel), visuals)
  {
    FilterIsSubsequence(visuals, u => Shown(sel, u));
    if v in FilteredVisuals(visuals, sel) {
      var k :| 0 <= k < |FilteredVisuals(visuals, sel)| && FilteredVisuals(visuals, sel)[k] == v;
    }
    if v in visuals && Shown(sel, v) {
      var k :| 0 <= k < |visuals| && visuals[k] == v;
    }
  }

  /** Before any choice every visual is shown, in order. */
  lemma {:induction false} InitialShowsAll(visuals: seq<Visual>)
    ensures FilteredVisuals(visuals, InitialSelection) == visuals
  {
    FilterAll(visuals, v => Shown(InitialSelection, v));
  }
}
