/** Breadcrumb: truncation of the item list by `maxItems`, and the flat sequence of list
    elements (items, separators, the ellipsis) that it renders. */
module Breadcrumb {
  import opened Wrappers
  import Js

  datatype Item = Item(text: string, href: Option<string>, hasOnClick: bool)

  /** The items to render and whether the ellipsis marker is shown. */
  datatype Display = Display(items: seq<Item>, showEllipsis: bool)

  /** `maxItems` when the prop is omitted: no limit. */
  const DefaultMaxItems: int := 0

  /** The truncation rule. The slice is `items.slice(-(maxItems - 1))`, so for `maxItems == 1`
      it is `slice(-0)`, the whole list. */
  function Truncate(items: seq<Item>, maxItems: int): (d: Display)
    ensures d.showEllipsis <==> 0 < maxItems < |items|
    ensures !d.showEllipsis ==> d.items == items
    ensures 2 <= maxItems < |items| ==>
      |d.items| == maxItems && d.items == [items[0]] + items[|items| - (maxItems - 1)..]
    ensures maxItems == 1 && 1 < |items| ==> d.items == [items[0]] + items
    ensures d.showEllipsis ==> |d.items| >= 2 && d.items[0] == items[0]
  {
    if maxItems > 0 && |items| > maxItems then
      Display([items[0]] + Js.SliceFrom(items, -(maxItems - 1)), true)
    else
      Display(items, false)
  }

  /** The default limit never truncates. */
  lemma DefaultNeverTruncates(items: seq<Item>)
    ensures Truncate(items, DefaultMaxItems) == Display(items, false)
  {
  }

  /** [A, B, C, D, E, F] with maxItems 3 shows A, the ellipsis, then E and F. */
  lemma TruncateExample(a: Item, b: Item, c: Item, d: Item, e: Item, f: Item)
    ensures Truncate([a, b, c, d, e, f], 3) == Display([a, e, f], true)
  {
    assert [a, b, c, d, e, f][4..] == [e, f];
  }

  /** The `<a>` or `<span>` an item is rendered as. */
  datatype Link = Anchor(href: string) | Span

  /** One `<li>` of the rendered list. */
  datatype Node = Separator | Ellipsis | Entry(item: Item, link: Link, current: bool)

  /** An item becomes a link when it has an `href` or an `onClick`; the link falls back to `#`. */
  function LinkOf(item: Item): (l: Link)
    ensures l.Anchor? <==> Js.Truthy(item.href) || item.hasOnClick
    ensures l.Anchor? ==> l.href == (if Js.Truthy(item.href) then item.href.value else "#")
  {
    if Js.Truthy(item.href) || item.hasOnClick then
      Anchor(if Js.Truthy(item.href) then item.href.value else "#")
    else
      Span
  }

  /** What clicking a rendered item does. */
  datatype ClickEffect = Navigate(href: string) | RunHandler | NoEffect

  /** An item with `onClick` has its navigation prevented and its handler run; a link without
      one navigates to its `href`; a plain label does nothing. */
  function Click(item: Item): (e: ClickEffect)
    ensures e.RunHandler? <==> item.hasOnClick
    ensures e.Navigate? <==> !item.hasOnClick && Js.Truthy(item.href)
    ensures e.Navigate? ==> LinkOf(item) == Anchor(e.href) && e.href == item.href.value
  {
    match LinkOf(item)
    case Anchor(h) => if item.hasOnClick then RunHandler else Navigate(h)
    case Span => NoEffect
  }

  /** The elements rendered for the displayed item at `index`. */
  function RenderItem(d: Display, index: nat): (r: seq<Node>)
    requires index < |d.items|
    ensures |r| == (if index == 0 then 1 else if d.showEllipsis && index == 1 then 4 else 2)
    ensures r[|r| - 1] == Entry(d.items[index], LinkOf(d.items[index]), index == |d.items| - 1)
    ensures index > 0 ==> r[0] == Separator
  {
    var isFirst := index == 0;
    var isLast := index == |d.items| - 1;
    var showEllipsisHere := d.showEllipsis && index == 1;
    (if !isFirst && showEllipsisHere then [Separator, Ellipsis] else [])
    + (if !isFirst then [Separator] else [])
    + [Entry(d.items[index], LinkOf(d.items[index]), isLast)]
  }

  /** The elements rendered for the first `n` displayed items. */
  function RenderPrefix(d: Display, n: nat): seq<Node>
    requires n <= |d.items|
  {
    if n == 0 then [] else RenderPrefix(d, n - 1) + RenderItem(d, n - 1)
  }

  /** The whole rendered list. */
  function Render(d: Display): (r: seq<Node>)
    ensures r == [] <==> d.items == []
  {
    RenderPrefix(d, |d.items|)
  }

  function Count(nodes: seq<Node>, x: Node): nat
  {
    if nodes == [] then 0 else (if nodes[0] == x then 1 else 0) + Count(nodes[1..], x)
  }

  function CountCurrent(nodes: seq<Node>): nat
  {
    if nodes == [] then 0
    else (if nodes[0].Entry? && nodes[0].current then 1 else 0) + CountCurrent(nodes[1..])
  }

  /** The items of the `Entry` elements, in order. */
  function Entries(nodes: seq<Node>): seq<Item>
  {
    if nodes == [] then []
    else (if nodes[0].Entry? then [nodes[0].item] else []) + Entries(nodes[1..])
  }

  lemma {:induction false} AppendCounts(a: seq<Node>, b: seq<Node>)
    ensures Count(a + b, Separator) == Count(a, Separator) + Count(b, Separator)
    ensures Count(a + b, Ellipsis) == Count(a, Ellipsis) + Count(b, Ellipsis)
    ensures CountCurrent(a + b) == CountCurrent(a) + CountCurrent(b)
    ensures Entries(a + b) == Entries(a) + Entries(b)
    decreases |a|
  {
    if a != [] {
      assert (a + b)[1..] == a[1..] + b;
      AppendCounts(a[1..], b);
    } else {
      assert a + b == b;
    }
  }

  /** What the elements of one displayed item contribute to the counts. */
  lemma ItemCounts(d: Display, i: nat)
    requires i < |d.items|
    ensures Entries(RenderItem(d, i)) == [d.items[i]]
    ensures Count(RenderItem(d, i), Ellipsis) == (if d.showEllipsis && i == 1 then 1 else 0)
    ensures Count(RenderItem(d, i), Separator)
         == (if i == 0 then 0 else 1) + Count(RenderItem(d, i), Ellipsis)
    ensures CountCurrent(RenderItem(d, i)) == (if i == |d.items| - 1 then 1 else 0)
  {
    var item := RenderItem(d, i);
    var e := [Entry(d.items[i], LinkOf(d.items[i]), i == |d.items| - 1)];
    if i == 0 {
      assert item == e;
    } else if d.showEllipsis && i == 1 {
      assert item == [Separator, Ellipsis] + ([Separator] + e);
      AppendCounts([Separator, Ellipsis], [Separator] + e);
      AppendCounts([Separator], e);
    } else {
      assert item == [Separator] + e;
      AppendCounts([Separator], e);
    }
  }

  /** The first `n` displayed items, in order, are the items of the elements rendered for them. */
  lemma {:induction false} PrefixEntries(d: Display, n: nat)
    requires n <= |d.items|
    ensures Entries(RenderPrefix(d, n)) == d.items[..n]
  {
    if n > 0 {
      var prefix, item := RenderPrefix(d, n - 1), RenderItem(d, n - 1);
      assert RenderPrefix(d, n) == prefix + item;
      PrefixEntries(d, n - 1);
      ItemCounts(d, n - 1);
      AppendCounts(prefix, item);
      assert d.items[..n] == d.items[..n - 1] + [d.items[n - 1]];
    }
  }

  /** Per-prefix form of the counting facts, proved by induction on the prefix. */
  lemma {:induction false} PrefixCounts(d: Display, n: nat)
    requires n <= |d.items|
    ensures Count(RenderPrefix(d, n), Ellipsis) == (if d.showEllipsis && n >= 2 then 1 else 0)
    ensures Count(RenderPrefix(d, n), Separator)
         == (if n == 0 then 0 else n - 1) + Count(RenderPrefix(d, n), Ellipsis)
    ensures CountCurrent(RenderPrefix(d, n)) == (if n == |d.items| && n > 0 then 1 else 0)
  {
    if n > 0 {
      var prefix, item := RenderPrefix(d, n - 1), RenderItem(d, n - 1);
      assert RenderPrefix(d, n) == prefix + item;
      PrefixCounts(d, n - 1);
      ItemCounts(d, n - 1);
      AppendCounts(prefix, item);
    }
  }

  /** Every displayed item is rendered, once and in order; the ellipsis appears exactly once
      when truncating and never otherwise; a separator precedes every item but the first (and
      the ellipsis); exactly the last item is marked current. */
  lemma RenderCounts(d: Display)
    ensures Entries(Render(d)) == d.items
    ensures Count(Render(d), Ellipsis) == (if d.showEllipsis && |d.items| >= 2 then 1 else 0)
    ensures |d.items| > 0 ==>
      Count(Render(d), Separator) == |d.items| - 1 + Count(Render(d), Ellipsis)
    ensures CountCurrent(Render(d)) == (if |d.items| > 0 then 1 else 0)
  {
    PrefixEntries(d, |d.items|);
    PrefixCounts(d, |d.items|);
    assert d.items[..|d.items|] == d.items;
  }

  /** Rendering more items only appends elements. */
  lemma {:induction false} PrefixExtends(d: Display, m: nat, n: nat)
    requires m <= n <= |d.items|
    ensures |RenderPrefix(d, m)| <= |RenderPrefix(d, n)|
    ensures RenderPrefix(d, n)[..|RenderPrefix(d, m)|] == RenderPrefix(d, m)
    decreases n - m
  {
    if m < n {
      PrefixExtends(d, m, n - 1);
    }
  }

  /** Only an item, never a separator or the ellipsis, opens or closes the list, and every
      item after the first directly follows a separator. */
  lemma {:induction false} EntriesFollowSeparators(d: Display, n: nat)
    requires 0 < n <= |d.items|
    ensures RenderPrefix(d, n)[0] == Entry(d.items[0], LinkOf(d.items[0]), |d.items| == 1)
    ensures RenderPrefix(d, n)[|RenderPrefix(d, n)| - 1].Entry?
    ensures forall k :: 0 < k < |RenderPrefix(d, n)| && RenderPrefix(d, n)[k].Entry? ==>
      RenderPrefix(d, n)[k - 1] == Separator
  {
    if n > 1 {
      EntriesFollowSeparators(d, n - 1);
      var p := RenderPrefix(d, n - 1);
      var item := RenderItem(d, n - 1);
      assert RenderPrefix(d, n) == p + item;
      assert item[|item| - 1].Entry? && item[|item| - 2] == Separator;
      forall k | 0 < k < |p + item| && (p + item)[k].Entry?
        ensures (p + item)[k - 1] == Separator
      {
        if k < |p| {
          assert (p + item)[k] == p[k] && (p + item)[k - 1] == p[k - 1];
        } else if k == |p| {
          assert false;
        } else {
          assert (p + item)[k] == item[k - |p|] && (p + item)[k - 1] == item[k - 1 - |p|];
        }
      }
    }
  }

  /** When truncating, the list opens with the first item, a separator, the ellipsis and a
      separator, and then the displayed item at index 1. */
  lemma EllipsisPlacement(d: Display)
    requires d.showEllipsis && |d.items| >= 2
    ensures |Render(d)| >= 5
    ensures Render(d)[..5] == [Entry(d.items[0], LinkOf(d.items[0]), false), Separator,
                               Ellipsis, Separator,
                               Entry(d.items[1], LinkOf(d.items[1]), |d.items| == 2)]
  {
    PrefixExtends(d, 2, |d.items|);
    assert RenderPrefix(d, 1) == [Entry(d.items[0], LinkOf(d.items[0]), false)];
  }

  /** The source's property, end to end: truncating a list longer than the limit renders the
      ellipsis once and marks only the last displayed item as current. */
  lemma TruncatedRender(items: seq<Item>, maxItems: int)
    requires 0 < maxItems < |items|
    ensures Count(Render(Truncate(items, maxItems)), Ellipsis) == 1
    ensures CountCurrent(Render(Truncate(items, maxItems))) == 1
  {
    RenderCounts(Truncate(items, maxItems));
  }
}
