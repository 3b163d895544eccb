/** FileCard: image detection, the thumbnail placeholder, the type badge versus the meta row,
    the dot separators between meta entries, and where the menu buttons go. */
module FileCard {
  import opened Wrappers
  import Js
  import Ascii

  datatype View = Grid | List

  const DefaultView: View := Grid

  datatype FileCardProps = FileCardProps(name: string, thumbnail: Option<string>,
                                         fileType: Option<string>, modifiedAt: Option<string>,
                                         size: Option<string>, view: View, hasMenu: bool)

  /** The extensions `/^(jpg|jpeg|png|gif|svg|webp)$/i` accepts, once lower-cased. */
  const ImageTypes: seq<string> := ["jpg", "jpeg", "png", "gif", "svg", "webp"]

  /** `isImage`: a truthy thumbnail, or a file type that is one of the image extensions as a
      whole string in any letter case. */
  predicate IsImage(thumbnail: Option<string>, fileType: Option<string>): (r: bool)
    ensures Js.Truthy(thumbnail) ==> r
    ensures r && !Js.Truthy(thumbnail) ==> fileType.Some? && 3 <= |fileType.value| <= 4
  {
    Js.Truthy(thumbnail) || (fileType.Some? && Ascii.LowerString(fileType.value) in ImageTypes)
  }

  /** The `i` flag: the letter case of the file type never matters. */
  lemma IsImageIgnoresCase(thumbnail: Option<string>, fileType: string)
    ensures IsImage(thumbnail, Some(Ascii.UpperString(fileType))) == IsImage(thumbnail, Some(fileType))
  {
    assert Ascii.LowerString(Ascii.UpperString(fileType)) == Ascii.LowerString(fileType);
  }

  /** `PNG` and `Jpeg` are images; `png2`, `.png` and `tiff` are not. */
  lemma IsImageExamples()
    ensures IsImage(None, Some("PNG")) && IsImage(None, Some("Jpeg"))
    ensures !IsImage(None, Some("png2")) && !IsImage(None, Some(".png"))
    ensures !IsImage(None, Some("tiff")) && !IsImage(None, None)
  {
    assert Ascii.LowerString("PNG") == "png";
    assert Ascii.LowerString("Jpeg") == "jpeg";
    assert Ascii.LowerString("png2") == "png2";
    assert Ascii.LowerString(".png") == ".png";
    assert Ascii.LowerString("tiff") == "tiff";
  }

  /** What fills the thumbnail area. */
  datatype Thumbnail = Image(src: string) | Placeholder(imageIcon: bool)

  function ThumbnailOf(p: FileCardProps): (t: Thumbnail)
    ensures t.Image? <==> Js.Truthy(p.thumbnail)
    ensures t.Image? ==> t.src == p.thumbnail.value
    ensures t.Placeholder? ==> (t.imageIcon <==> IsImage(p.thumbnail, p.fileType))
  {
    if Js.Truthy(p.thumbnail) then Image(p.thumbnail.value)
    else Placeholder(IsImage(p.thumbnail, p.fileType))
  }

  /** The upper-case type badge on the thumbnail, shown only in grid view. */
  function Badge(p: FileCardProps): (b: Option<string>)
    ensures b.Some? <==> Js.Truthy(p.fileType) && p.view == Grid
    ensures b.Some? ==> b.value == Ascii.UpperString(p.fileType.value)
  {
    if Js.Truthy(p.fileType) && p.view == Grid then Some(Ascii.UpperString(p.fileType.value))
    else None
  }

  /** One element of the meta row. */
  datatype MetaPart = Text(s: string) | Dot

  /** The meta row exactly as the JSX builds it: the list-view type, then the size preceded
      by a dot when the type is shown, then the date preceded by a dot when either is. */
  function MetaRow(p: FileCardProps): (r: seq<MetaPart>)
    ensures r == [] <==> MetaEntries(p) == []
    ensures r != [] ==> r[0].Text? && r[|r| - 1].Text?
  {
    var ft := Js.Truthy(p.fileType) && p.view == List;
    var sz := Js.Truthy(p.size);
    var md := Js.Truthy(p.modifiedAt);
    (if ft then [Text(Ascii.UpperString(p.fileType.value))] else [])
    + (if sz then (if ft then [Dot] else []) + [Text(p.size.value)] else [])
    + (if md then (if sz || ft then [Dot] else []) + [Text(p.modifiedAt.value)] else [])
  }

  /** The meta entries that are present, in order. */
  function MetaEntries(p: FileCardProps): (es: seq<string>)
    ensures |es| <= 3
  {
    (if Js.Truthy(p.fileType) && p.view == List then [Ascii.UpperString(p.fileType.value)] else [])
    + (if Js.Truthy(p.size) then [p.size.value] else [])
    + (if Js.Truthy(p.modifiedAt) then [p.modifiedAt.value] else [])
  }

  /** Entries with one dot between each neighbouring pair. */
  function JoinWithDots(es: seq<string>): (r: seq<MetaPart>)
    ensures es == [] <==> r == []
    ensures es != [] ==> |r| == 2 * |es| - 1
  {
    if es == [] then []
    else if |es| == 1 then [Text(es[0])]
    else [Text(es[0]), Dot] + JoinWithDots(es[1..])
  }

  /** The joined row alternates entries and dots, starting and ending with an entry. */
  lemma {:induction false} JoinAlternates(es: seq<string>)
    ensures forall k :: 0 <= k < |JoinWithDots(es)| ==>
      JoinWithDots(es)[k] == (if k % 2 == 0 then Text(es[k / 2]) else Dot)
  {
    if |es| > 1 {
      JoinAlternates(es[1..]);
      var r := JoinWithDots(es);
      var t := JoinWithDots(es[1..]);
      assert r == [Text(es[0]), Dot] + t;
      forall k | 2 <= k < |r|
        ensures r[k] == (if k % 2 == 0 then Text(es[k / 2]) else Dot)
      {
        assert r[k] == t[k - 2];
        assert (k - 2) % 2 == k % 2;
        assert (k - 2) / 2 + 1 == k / 2;
      }
    }
  }

  /** The row the JSX builds is the present entries joined with dots: a dot appears exactly
      between consecutive entries, never first or last. */
  lemma MetaRowIsJoined(p: FileCardProps)
    ensures MetaRow(p) == JoinWithDots(MetaEntries(p))
  {
    var ft := Js.Truthy(p.fileType) && p.view == List;
    var sz := Js.Truthy(p.size);
    var md := Js.Truthy(p.modifiedAt);
    var es := MetaEntries(p);
    if |es| == 2 {
      assert JoinWithDots(es) == [Text(es[0]), Dot, Text(es[1])];
    } else if |es| == 3 {
      assert JoinWithDots(es[1..]) == [Text(es[1]), Dot, Text(es[2])];
      assert JoinWithDots(es) == [Text(es[0]), Dot, Text(es[1]), Dot, Text(es[2])];
    }
  }

  /** The file type is shown in grid view as the badge and in list view as the first meta
      entry, never both. */
  lemma TypeInBadgeOrRow(p: FileCardProps)
    requires Js.Truthy(p.fileType)
    ensures Badge(p).Some? <==> p.view == Grid
    ensures p.view == List ==> MetaRow(p)[0] == Text(Ascii.UpperString(p.fileType.value))
    ensures p.view == Grid ==>
      MetaEntries(p) == (if Js.Truthy(p.size) then [p.size.value] else [])
                        + (if Js.Truthy(p.modifiedAt) then [p.modifiedAt.value] else [])
  {
  }

  /** The menu buttons: one in the thumbnail whenever `onMenuClick` is given, and a second,
      trailing one in list view. */
  datatype MenuButtons = MenuButtons(inThumbnail: bool, trailing: bool)

  function MenuButtonsOf(p: FileCardProps): (m: MenuButtons)
    ensures m.inThumbnail <==> p.hasMenu
    ensures m.trailing <==> p.hasMenu && p.view == List
    ensures m.trailing ==> m.inThumbnail
  {
    MenuButtons(p.hasMenu, p.hasMenu && p.view == List)
  }
}
