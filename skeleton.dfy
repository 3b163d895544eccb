/** Skeleton placeholders: numeric sizes become pixel strings, SkeletonText's line sequence,
    SkeletonAvatar's shape and the SkeletonCard layout. */
module Skeleton {
  import opened Wrappers
  import Decimal

  datatype Variant = TextBone | Circle | Rectangle

  /** A `width` or `height` prop: a number or a CSS string. */
  datatype Dim = Px(n: int) | Str(s: string)

  /** The inline style: only width and height, so any other style a caller passes is lost. */
  datatype Style = Style(width: Option<string>, height: Option<string>)

  /** One rendered placeholder. */
  datatype Bone = Bone(variant: Variant, style: Style)

  /** A size as the style receives it: a number `n` becomes `"{n}px"`, a string passes
      through, and an absent prop stays absent. */
  function Css(d: Option<Dim>): (r: Option<string>)
    ensures r.None? <==> d.None?
    ensures d.Some? && d.value.Str? ==> r == Some(d.value.s)
    ensures d.Some? && d.value.Px? ==>
      var digits := Decimal.IntToString(d.value.n);
      |r.value| == |digits| + 2 && r.value[..|digits|] == digits && r.value[|digits|..] == "px"
  {
    match d
    case None => None
    case Some(Px(n)) => Some(Decimal.IntToString(n) + "px")
    case Some(Str(s)) => Some(s)
  }

  /** The number in a pixel size reads back as the prop. */
  lemma PxRoundTrip(n: int)
    ensures var r := Css(Some(Px(n))).value;
      Decimal.ParseInt(r[..|r| - 2]) == n
  {
    var r := Css(Some(Px(n))).value;
    assert r[..|r| - 2] == Decimal.IntToString(n);
    Decimal.IntRoundTrip(n);
  }

  /** `<Skeleton>`. */
  function SkeletonOf(variant: Variant, width: Option<Dim>, height: Option<Dim>): (b: Bone)
    ensures b.variant == variant
    ensures b.style.width.Some? <==> width.Some?
    ensures b.style.height.Some? <==> height.Some?
    ensures width.Some? && width.value.Str? ==> b.style.width == Some(width.value.s)
    ensures height.Some? && height.value.Str? ==> b.style.height == Some(height.value.s)
  {
    Bone(variant, Style(Css(width), Css(height)))
  }

  const DefaultLines: int := 3
  const LineHeight: int := 16

  /** `Array.from({ length: lines })`: a negative length gives no elements. */
  function LineCount(lines: int): (n: nat)
    ensures lines >= 0 ==> n == lines
    ensures lines < 0 ==> n == 0
  {
    if lines < 0 then 0 else lines
  }

  /** `SkeletonText`. */
  function SkeletonText(lines: int): (r: seq<Bone>)
    ensures |r| == LineCount(lines)
    ensures forall i :: 0 <= i < |r| ==>
      r[i].variant == TextBone && r[i].style.height == Css(Some(Px(LineHeight)))
    ensures forall i :: 0 <= i < |r| ==>
      r[i].style.width == Some(if i == |r| - 1 then "60%" else "100%")
  {
    var r := seq(LineCount(lines), i requires 0 <= i < LineCount(lines) => Line(i == lines - 1));
    assert forall i :: 0 <= i < |r| ==> r[i] == Line(i == |r| - 1);
    r
  }

  /** One line of `SkeletonText`: 16 pixels high, and 60% wide when it is the last. */
  function Line(isLast: bool): (b: Bone)
    ensures b.variant == TextBone && b.style.height == Css(Some(Px(LineHeight)))
    ensures b.style.width == Some(if isLast then "60%" else "100%")
  {
    SkeletonOf(TextBone, Some(Str(if isLast then "60%" else "100%")), Some(Px(LineHeight)))
  }

  /** Exactly one line, the last, is the short one. */
  lemma OneShortLine(lines: int)
    requires lines >= 1
    ensures SkeletonText(lines)[lines - 1].style.width == Some("60%")
    ensures forall i :: 0 <= i < lines - 1 ==> SkeletonText(lines)[i].style.width == Some("100%")
  {
  }

  const DefaultAvatarSize: int := 40

  /** `SkeletonAvatar`: a circle alone, or a circle beside two text lines. */
  datatype AvatarShape = CircleOnly(circle: Bone) | WithText(circle: Bone, lines: seq<Bone>)

  function SkeletonAvatar(size: int, withText: bool): (a: AvatarShape)
    ensures a.circle.variant == Circle
    ensures a.circle.style.width == a.circle.style.height == Css(Some(Px(size)))
    ensures a.WithText? <==> withText
    ensures a.WithText? ==> (|a.lines| == 2
      && a.lines[0] == SkeletonOf(TextBone, Some(Px(120)), Some(Px(14)))
      && a.lines[1] == SkeletonOf(TextBone, Some(Px(80)), Some(Px(12))))
  {
    var circle := SkeletonOf(Circle, Some(Px(size)), Some(Px(size)));
    if withText then
      WithText(circle, [SkeletonOf(TextBone, Some(Px(120)), Some(Px(14))),
                        SkeletonOf(TextBone, Some(Px(80)), Some(Px(12)))])
    else CircleOnly(circle)
  }

  /** `SkeletonCard`: an optional image block, a title line, and two text lines. The margin
      styles it passes are not part of any bone. */
  function SkeletonCard(withImage: bool): (r: seq<Bone>)
    ensures |r| == (if withImage then 4 else 3)
    ensures r[|r| - 2..] == SkeletonText(2)
    ensures r[|r| - 3] == SkeletonOf(TextBone, Some(Str("70%")), Some(Px(20)))
    ensures r[|r| - 3].style.width == Some("70%")
    ensures withImage ==> r[0] == SkeletonOf(Rectangle, Some(Str("100%")), Some(Px(160)))
  {
    (if withImage then [SkeletonOf(Rectangle, Some(Str("100%")), Some(Px(160)))] else [])
    + [SkeletonOf(TextBone, Some(Str("70%")), Some(Px(20)))]
    + SkeletonText(2)
  }
}
