/** Avatar: initials from a name, the image/initials/icon choice with its one-way error flag,
    and the AvatarStack slice, order and overflow badge. */
module Avatar {
  import opened Wrappers
  import opened Ascii
  import Js
  import Decimal

  /** The first whitespace at or after `i`, or the end. */
  function WordEnd(s: string, i: nat): (j: nat)
    requires i <= |s|
    ensures i <= j <= |s|
    ensures forall k :: i <= k < j ==> !IsSpace(s[k])
    ensures j < |s| ==> IsSpace(s[j])
    decreases |s| - i
  {
    if i == |s| || IsSpace(s[i]) then i else WordEnd(s, i + 1)
  }

  /** The first non-whitespace at or after `i`, or the end. */
  function RunEnd(s: string, i: nat): (j: nat)
    requires i <= |s|
    ensures i <= j <= |s|
    ensures forall k :: i <= k < j ==> IsSpace(s[k])
    ensures j < |s| ==> !IsSpace(s[j])
    decreases |s| - i
  {
    if i == |s| || !IsSpace(s[i]) then i else RunEnd(s, i + 1)
  }

  /** The index of the last whitespace character, or -1. */
  function LastSpace(s: string): (k: int)
    ensures -1 <= k < |s|
    ensures k >= 0 ==> IsSpace(s[k])
    ensures forall m :: k < m < |s| ==> !IsSpace(s[m])
    ensures k == -1 <==> !HasSpace(s)
    decreases |s|
  {
    if s == [] then -1
    else if IsSpace(s[|s| - 1]) then |s| - 1
    else LastSpace(s[..|s| - 1])
  }

  /** `s.split(/\s+/)`: the pieces between maximal whitespace runs. */
  function Split(s: string): (parts: seq<string>)
    ensures |parts| >= 1
    ensures !HasSpace(s) ==> parts == [s]
    decreases |s|
  {
    var i := WordEnd(s, 0);
    if i == |s| then
      [s]
    else
      var j := RunEnd(s, i);
      [s[..i]] + Split(s[j..])
  }

  /** The facts about one step of `Split` on trimmed text that `SplitWords` and `SplitEnds`
      need. */
  lemma SplitStep(s: string, i: nat, j: nat)
    requires Trimmed(s) && s != []
    requires i == WordEnd(s, 0) && i < |s| && j == RunEnd(s, i)
    ensures i < j < |s|
    ensures s[..i] != [] && s[..i][0] == s[0] && !HasSpace(s[..i])
    ensures Trimmed(s[j..]) && s[j..] != []
    ensures HasSpace(s[j..]) ==> LastSpace(s) == j + LastSpace(s[j..])
    ensures !HasSpace(s[j..]) ==> LastSpace(s) == j - 1
  {
    assert forall k :: 0 <= k < i ==> s[..i][k] == s[k];
    var t := s[j..];
    assert forall k :: 0 <= k < |t| ==> t[k] == s[j + k];
    LastSpaceOfSuffix(s, j);
  }

  /** The last whitespace of `s` when `s[j - 1]` is whitespace: the last one of the suffix
      from `j`, or `j - 1` itself when the suffix has none. */
  lemma LastSpaceOfSuffix(s: string, j: nat)
    requires 0 < j <= |s| && IsSpace(s[j - 1])
    ensures HasSpace(s[j..]) ==> LastSpace(s) == j + LastSpace(s[j..])
    ensures !HasSpace(s[j..]) ==> LastSpace(s) == j - 1
  {
    var t := s[j..];
    if HasSpace(t) {
      var k := LastSpace(t);
      assert t[k] == s[j + k];
      forall m | j + k < m < |s| ensures !IsSpace(s[m]) { assert s[m] == t[m - j]; }
      LastSpaceIs(s, j + k);
    } else {
      forall m | j - 1 < m < |s| ensures !IsSpace(s[m]) { assert s[m] == t[m - j]; }
      LastSpaceIs(s, j - 1);
    }
  }

  /** A whitespace position with none after it is the last whitespace. */
  lemma LastSpaceIs(s: string, k: nat)
    requires k < |s| && IsSpace(s[k])
    requires forall m :: k < m < |s| ==> !IsSpace(s[m])
    ensures LastSpace(s) == k
  {
  }

  /** On trimmed, non-empty text every piece of `Split` is a non-empty word. */
  lemma {:induction false} SplitWords(s: string)
    requires Trimmed(s) && s != []
    ensures forall k :: 0 <= k < |Split(s)| ==> Split(s)[k] != [] && !HasSpace(Split(s)[k])
    decreases |s|
  {
    var i := WordEnd(s, 0);
    if i < |s| {
      var j := RunEnd(s, i);
      SplitStep(s, i, j);
      SplitWords(s[j..]);
      var rest := Split(s[j..]);
      var parts := [s[..i]] + rest;
      assert Split(s) == parts;
      forall k | 0 <= k < |parts| ensures parts[k] != [] && !HasSpace(parts[k]) {
        if k > 0 {
          assert parts[k] == rest[k - 1];
        }
      }
    }
  }

  /** The first word starts the text; there are several words exactly when the text contains
      whitespace, and then the last word is what follows the last whitespace. */
  lemma {:induction false} SplitEnds(s: string)
    requires Trimmed(s) && s != []
    ensures Split(s)[0] != [] && Split(s)[0][0] == s[0]
    ensures HasSpace(s) <==> |Split(s)| >= 2
    ensures HasSpace(s) ==> Split(s)[|Split(s)| - 1] == s[LastSpace(s) + 1..]
    decreases |s|
  {
    var i := WordEnd(s, 0);
    if i < |s| {
      var j := RunEnd(s, i);
      SplitStep(s, i, j);
      SplitEnds(s[j..]);
      var rest := Split(s[j..]);
      assert Split(s) == [s[..i]] + rest;
      if HasSpace(s[j..]) {
        assert s[j..][LastSpace(s[j..]) + 1..] == s[LastSpace(s) + 1..];
      } else {
        assert rest == [s[j..]];
      }
    } else {
      assert !HasSpace(s);
    }
  }

  function Min(a: int, b: int): int
  {
    if a < b then a else b
  }

  /** `getInitials` after its `trim()`: the first two characters of a single word, else the
      first letters of the first and the last word, upper-cased. */
  function InitialsOfTrimmed(t: string): (r: string)
    requires Trimmed(t)
    ensures |r| <= 2
    ensures r == [] <==> t == []
  {
    var parts := Split(t);
    if |parts| == 1 then
      UpperString(Js.Slice(parts[0], 0, 2))
    else
      SplitWords(t);
      UpperString([parts[0][0], parts[|parts| - 1][0]])
  }

  /** `getInitials`. */
  function Initials(name: string): (r: string)
    ensures |r| <= 2
    ensures r == [] <==> AllSpace(name)
  {
    InitialsOfTrimmed(Trim(name))
  }

  /** A single word gives its first two characters, several words the first letters of the
      first and the last word (middle words are ignored), all uppercased. */
  lemma InitialsOfWords(name: string)
    requires !AllSpace(name)
    ensures Initials(name)[0] == Upper(Trim(name)[0])
    ensures HasSpace(Trim(name)) ==>
      (|Initials(name)| == 2 && Initials(name)[1] == Upper(Trim(name)[LastSpace(Trim(name)) + 1]))
    ensures !HasSpace(Trim(name)) ==>
      Initials(name) == UpperString(Trim(name)[..Min(2, |Trim(name)|)])
  {
    var t := Trim(name);
    assert Initials(name) == InitialsOfTrimmed(t);
    if HasSpace(t) {
      InitialsOfSeveral(t);
    } else {
      InitialsOfSingle(t);
    }
  }

  lemma InitialsOfSeveral(t: string)
    requires Trimmed(t) && t != [] && HasSpace(t)
    ensures |InitialsOfTrimmed(t)| == 2
    ensures InitialsOfTrimmed(t)[0] == Upper(t[0])
    ensures InitialsOfTrimmed(t)[1] == Upper(t[LastSpace(t) + 1])
  {
    FirstAndLastWords(t);
    InitialsOfFirstAndLast(t);
  }

  /** With whitespace inside trimmed text, the first word starts the text and the last one
      starts right after the last whitespace. */
  lemma FirstAndLastWords(t: string)
    requires Trimmed(t) && t != [] && HasSpace(t)
    ensures |Split(t)| >= 2 && LastSpace(t) + 1 < |t|
    ensures Split(t)[0] != [] && Split(t)[0][0] == t[0]
    ensures Split(t)[|Split(t)| - 1] != [] && Split(t)[|Split(t)| - 1][0] == t[LastSpace(t) + 1]
  {
    var k := LastSpace(t);
    assert IsSpace(t[k]) && k + 1 < |t|;
    SplitEnds(t);
    var parts := Split(t);
    var last := parts[|parts| - 1];
    assert last == t[k + 1..];
    assert last[0] == t[k + 1];
  }

  /** With several words, the initials are read off the first and the last word. */
  lemma InitialsOfFirstAndLast(t: string)
    requires Trimmed(t) && |Split(t)| >= 2
    requires Split(t)[0] != [] && Split(t)[|Split(t)| - 1] != []
    ensures InitialsOfTrimmed(t) == [Upper(Split(t)[0][0]), Upper(Split(t)[|Split(t)| - 1][0])]
  {
    var parts := Split(t);
    var r := UpperString([parts[0][0], parts[|parts| - 1][0]]);
    assert InitialsOfTrimmed(t) == r;
    assert r == [Upper(parts[0][0]), Upper(parts[|parts| - 1][0])];
  }

  lemma InitialsOfSingle(t: string)
    requires Trimmed(t) && t != [] && !HasSpace(t)
    ensures InitialsOfTrimmed(t) == UpperString(t[..Min(2, |t|)])
  {
    assert Split(t) == [t];
    assert Js.Slice(t, 0, 2) == t[..Min(2, |t|)];
  }

  /** A first and a last word separated by one space give their uppercased first letters. */
  lemma InitialsOfFirstLast(first: string, last: string)
    requires first != [] && last != [] && !HasSpace(first) && !HasSpace(last)
    ensures Initials(first + " " + last) == [Upper(first[0]), Upper(last[0])]
  {
    var s := first + " " + last;
    assert s[0] == first[0] && s[|s| - 1] == last[|last| - 1];
    TrimOfTrimmed(s);
    assert IsSpace(s[|first|]);
    forall m | |first| < m < |s| ensures !IsSpace(s[m]) {
      assert s[m] == last[m - |first| - 1];
    }
    LastSpaceIs(s, |first|);
    InitialsOfWords(s);
    assert s[|first| + 1] == last[0];
  }

  /** "Bob" gives "BO". */
  lemma InitialsOfOneWord(name: string)
    requires name == "Bob"
    ensures Initials(name) == "BO"
  {
    TrimOfTrimmed(name);
    forall k | 0 <= k < |name| ensures !IsSpace(name[k]) { }
    InitialsOfWords(name);
    var r := Initials(name);
    assert |r| == 2 && r[0] == Upper('B') && r[1] == Upper('o');
  }

  /** "Jane Smith" gives "JS". */
  lemma InitialsOfTwoWords(name: string)
    requires name == "Jane Smith"
    ensures Initials(name) == "JS"
  {
    var first, last := "Jane", "Smith";
    forall k | 0 <= k < |first| ensures !IsSpace(first[k]) { }
    forall k | 0 <= k < |last| ensures !IsSpace(last[k]) { }
    InitialsOfFirstLast(first, last);
    assert first + " " + last == name;
  }

  /** What the avatar circle shows. */
  datatype Content = Image(src: string) | InitialsText(text: string) | Icon

  /** The image while `src` is set and has not failed to load, else non-empty initials, else
      the fallback icon. */
  function ContentOf(src: Option<string>, name: Option<string>, imgError: bool): (c: Content)
    ensures c.Image? <==> Js.Truthy(src) && !imgError
    ensures c.Image? ==> c.src == src.value
    ensures c.InitialsText? ==> name.Some? && c.text == Initials(name.value) && c.text != []
    ensures c.Icon? <==> !(Js.Truthy(src) && !imgError) && (name.None? || AllSpace(name.value))
  {
    if Js.Truthy(src) && !imgError then Image(src.value)
    else if Js.Truthy(name) && Initials(name.value) != "" then InitialsText(Initials(name.value))
    else Icon
  }

  /** One mounted Avatar: its only state is the image-error flag. */
  class AvatarInstance {
    var imgError: bool

    constructor ()
      ensures !imgError
    {
      imgError := false;
    }

    function Shown(src: Option<string>, name: Option<string>): Content
      reads this
    {
      ContentOf(src, name, imgError)
    }

    /** The `<img>` failed to load. The flag only goes from false to true, so from now on the
        image is never shown again, whatever the props. */
    method OnError()
      modifies this
      ensures imgError
      ensures forall src, name :: !Shown(src, name).Image?
    {
      imgError := true;
    }
  }

  /** The props of one avatar in a stack. */
  datatype AvatarProps = AvatarProps(src: Option<string>, name: Option<string>)

  const DefaultStackMax: int := 4

  function Reversed<T>(s: seq<T>): (r: seq<T>)
    ensures |r| == |s|
  {
    seq(|s|, k requires 0 <= k < |s| => s[|s| - 1 - k])
  }

  lemma ReversedTwice<T>(s: seq<T>)
    ensures Reversed(Reversed(s)) == s
  {
  }

  /** `avatars.slice(0, max).reverse()`: the stack copies the first `max` avatars and reverses
      the copy in place, so the caller's array is left as it was. */
  method StackedAvatars(avatars: array<AvatarProps>, max: int) returns (shown: seq<AvatarProps>)
    ensures shown == Reversed(Js.Slice(avatars[..], 0, max))
    ensures 0 <= max ==> |shown| == Min(max, avatars.Length)
  {
    var visible := Js.Slice(avatars[..], 0, max);
    var a := new AvatarProps[|visible|](k requires 0 <= k < |visible| => visible[k]);
    var lo, hi := 0, a.Length - 1;
    while lo < hi
      invariant 0 <= lo <= a.Length && hi == a.Length - 1 - lo
      invariant forall k :: 0 <= k < lo ==> a[k] == visible[a.Length - 1 - k]
      invariant forall k :: 0 <= k < lo ==> a[a.Length - 1 - k] == visible[k]
      invariant forall k :: lo <= k <= hi ==> a[k] == visible[k]
    {
      a[lo], a[hi] := a[hi], a[lo];
      lo, hi := lo + 1, hi - 1;
    }
    shown := a[..];
    ReversedBySwaps(shown, visible, lo);
  }

  /** What the swap loop leaves once its two ends meet: the reversal. */
  lemma ReversedBySwaps<T>(r: seq<T>, v: seq<T>, lo: nat)
    requires |r| == |v| && lo <= |r| && |r| - 1 - lo <= lo
    requires forall k :: 0 <= k < lo ==> r[k] == v[|r| - 1 - k]
    requires forall k :: 0 <= k < lo ==> r[|r| - 1 - k] == v[k]
    requires forall k :: lo <= k <= |r| - 1 - lo ==> r[k] == v[k]
    ensures r == Reversed(v)
  {
    forall k | 0 <= k < |r| ensures r[k] == v[|r| - 1 - k] {
      if lo <= k <= |r| - 1 - lo {
        assert k == |r| - 1 - k;
      } else if |r| - 1 - lo < k {
        assert r[|r| - 1 - (|r| - 1 - k)] == v[|r| - 1 - k];
      }
    }
  }

  /** The stack shows the first `max` avatars, last of them first. */
  lemma StackOrder(avatars: seq<AvatarProps>, max: int)
    requires 0 <= max
    ensures var shown := Reversed(Js.Slice(avatars, 0, max));
      |shown| == Min(max, |avatars|)
      && forall k :: 0 <= k < |shown| ==> shown[k] == avatars[|shown| - 1 - k]
  {
  }

  /** The `+n` badge: shown exactly when there are more avatars than `max`. */
  function OverflowBadge(count: nat, max: int): (b: Option<string>)
    ensures b.Some? <==> count > max
    ensures b.Some? ==> b.value == "+" + Decimal.IntToString(count - max)
  {
    var remaining := count - max;
    if remaining > 0 then Some("+" + Decimal.IntToString(remaining)) else None
  }

  /** Nobody is lost or counted twice: the avatars shown plus the number on the badge add up
      to the whole list. */
  lemma StackAccountsForAll(avatars: seq<AvatarProps>, max: int)
    requires 0 <= max
    ensures var badge := OverflowBadge(|avatars|, max);
      |Js.Slice(avatars, 0, max)| + (if badge.Some? then |avatars| - max else 0) == |avatars|
  {
  }
}
