/** FolderCard: the meta line (custom text, else a pluralised item count) and the icon's
    colour class. */
module FolderCard {
  import opened Wrappers
  import Js
  import Ascii
  import Decimal

  datatype FolderColor = Default | Blue | Green | Purple | Orange | Red | Yellow | Pink

  /** The colour as the prop spells it. */
  function ColorName(c: FolderColor): (s: string)
    ensures |s| >= 3 && forall k :: 0 <= k < |s| ==> 'a' <= s[k] <= 'z'
  {
    match c
    case Default => "default"
    case Blue => "blue"
    case Green => "green"
    case Purple => "purple"
    case Orange => "orange"
    case Red => "red"
    case Yellow => "yellow"
    case Pink => "pink"
  }

  /** `colorClass`: absent for the default colour, otherwise `icon` followed by the colour
      name with its first letter capitalised. */
  function ColorClass(c: FolderColor): (r: Option<string>)
    ensures r.None? <==> c == Default
    ensures r.Some? ==>
      var name := ColorName(c);
      |r.value| == 4 + |name| && r.value[..4] == "icon"
      && r.value[4] == Ascii.Upper(name[0]) && 'A' <= r.value[4] <= 'Z'
      && r.value[5..] == name[1..]
  {
    if c == Default then None
    else
      var name := ColorName(c);
      Some("icon" + [Ascii.Upper(name[0])] + name[1..])
  }

  /** Different colours get different classes. */
  lemma ColorClassInjective(a: FolderColor, b: FolderColor)
    requires ColorClass(a) == ColorClass(b)
    ensures a == b
  {
    if a != Default {
      var x := ColorClass(a).value;
      assert x[5..] == ColorName(a)[1..] && x[5..] == ColorName(b)[1..];
      assert ColorName(a) == [ColorName(a)[0]] + ColorName(a)[1..];
      assert ColorName(b) == [ColorName(b)[0]] + ColorName(b)[1..];
      assert Ascii.Upper(ColorName(a)[0]) == Ascii.Upper(ColorName(b)[0]);
      assert ColorName(a)[0] == ColorName(b)[0];
    }
  }

  lemma ColorClassExamples()
    ensures ColorClass(Blue).value == "iconBlue" && ColorClass(Purple).value == "iconPurple"
  {
    assert ColorClass(Blue).value == "icon" + [Ascii.Upper('b')] + "lue";
    assert ColorClass(Purple).value == "icon" + [Ascii.Upper('p')] + "urple";
  }

  /** `metaText`, rendered only when defined: a truthy `meta` wins; otherwise a defined item
      count `n` gives `"{n} item"`, with `s` appended unless `n` is 1. */
  function MetaText(meta: Option<string>, itemCount: Option<int>): (r: Option<string>)
    ensures r.None? <==> !Js.Truthy(meta) && itemCount.None?
    ensures Js.Truthy(meta) ==> r == meta
    ensures r.Some? ==> r.value != ""
  {
    if Js.Truthy(meta) then meta
    else if itemCount.None? then None
    else
      var n := itemCount.value;
      Some(Decimal.IntToString(n) + " item" + (if n != 1 then "s" else ""))
  }

  /** Without a truthy `meta`, the text starts with the count, which reads back as `n`,
      followed by `" item"`, and ends in `s` exactly when `n` is not 1. */
  lemma CountText(meta: Option<string>, n: int)
    requires !Js.Truthy(meta)
    ensures var t := MetaText(meta, Some(n)).value;
      var digits := Decimal.IntToString(n);
      |digits| < |t| && t[..|digits|] == digits && Decimal.ParseInt(t[..|digits|]) == n
      && t[|digits|..] == " item" + (if n != 1 then "s" else "")
      && (t[|t| - 1] == 's' <==> n != 1)
  {
    Decimal.IntRoundTrip(n);
  }

  lemma MetaTextExamples()
    ensures MetaText(None, Some(0)).value == "0 items"
    ensures MetaText(None, Some(1)).value == "1 item"
    ensures MetaText(Some(""), Some(12)).value == "12 items"
    ensures MetaText(Some("Shared"), Some(3)) == Some("Shared")
  {
    assert Decimal.IntToString(0) == "0" && Decimal.IntToString(1) == "1";
    assert Decimal.NatToString(12) == Decimal.NatToString(1) + [Decimal.DigitChar(2)];
    assert MetaText(None, Some(0)).value == "0" + " item" + "s";
    assert MetaText(None, Some(1)).value == "1" + " item" + "";
    assert MetaText(Some(""), Some(12)).value == "12" + " item" + "s";
  }
}
