/**
  The crop-shape descriptor of CropImageView: a closed enumeration of the mask
  shapes offered to the user, each with a menu label (`Name`) and an output
  pixel size (`Size`).

  `CGSize` is modelled with exact real dimensions. Swift's `Int(_:)` on a
  `CGFloat` truncates toward zero and traps when the truncated value does not
  fit in a 64-bit `Int`; `Trunc` models the truncation and `NameDefined` is the
  precondition that rules out the trap.
*/
module CropModel {
  import opened Wrappers
  import opened DecimalText

  /** Range of Swift's 64-bit `Int`. */
  const IntMin: int := -0x8000_0000_0000_0000
  const IntMax: int := 0x7FFF_FFFF_FFFF_FFFF

  /** Side length, in pixels, of every non-custom shape. */
  const DefaultSide: real := 300.0

  datatype CGSize = CGSize(width: real, height: real)

  /** `Int(x)`: the integer part of x, rounded toward zero. */
  function Trunc(x: real): (r: int)
    ensures 0.0 <= x ==> 0 <= r && r as real <= x < r as real + 1.0
    ensures x < 0.0 ==> r <= 0 && r as real - 1.0 < x <= r as real
  {
    if x >= 0.0 then x.Floor else -((-x).Floor)
  }

  /** `Int(x)` does not trap: the truncated value is a 64-bit `Int`. */
  predicate FitsInt(x: real) {
    IntMin <= Trunc(x) <= IntMax
  }

  datatype Crop = Circle | Rectangle | Square | Custom(cgSize: CGSize) {

    /** `name()` returns without trapping. */
    predicate NameDefined() {
      Custom? ==> FitsInt(cgSize.width) && FitsInt(cgSize.height)
    }

    /** The label shown for this shape in the mask menu. */
    function Name(): (s: string)
      requires NameDefined()
      ensures Custom? <==> |s| >= 7 && s[..7] == "Custom "
    {
      match this
      case Circle => "Circle"
      case Rectangle => assert "Rectangle"[0] != "Custom "[0]; "Rectangle"
      case Square => "Square"
      case Custom(size) =>
        "Custom " + IntToText(Trunc(size.width)) + "X" + IntToText(Trunc(size.height))
    }

    /** The pixel size of the cropped output. */
    function Size(): CGSize {
      match this
      case Circle => CGSize(DefaultSide, DefaultSide)
      case Rectangle => CGSize(DefaultSide, DefaultSide)
      case Square => CGSize(DefaultSide, DefaultSide)
      case Custom(size) => size
    }

    /** The `==` that Swift synthesizes for `Crop: Equatable`: same case, and for
        `custom` the same width and the same height. */
    function Equals(other: Crop): (r: bool)
      ensures r <==> this == other
    {
      match (this, other)
      case (Circle, Circle) => true
      case (Rectangle, Rectangle) => true
      case (Square, Square) => true
      case (Custom(a), Custom(b)) => a.width == b.width && a.height == b.height
      case _ => false
    }
  }

  /** What a label retains of a crop: the case, and for `custom` the truncated
      dimensions. */
  function Canonical(c: Crop): (r: Crop)
    requires c.NameDefined()
    ensures r.NameDefined()
    ensures r.Name() == c.Name()
    ensures r.Custom? <==> c.Custom?
  {
    match c
    case Custom(size) => Custom(CGSize(Trunc(size.width) as real, Trunc(size.height) as real))
    case _ => c
  }

  /** Position of the first `c` in `s`, or `|s|` when there is none. */
  function IndexOf(s: string, c: char): (k: nat)
    ensures k <= |s|
    ensures k < |s| ==> s[k] == c
    ensures forall i :: 0 <= i < k ==> s[i] != c
    decreases |s|
  {
    if s == [] || s[0] == c then 0 else 1 + IndexOf(s[1..], c)
  }

  /** Reads a menu label back into the canonical crop it names. */
  function ParseName(s: string): Option<Crop> {
    if s == "Circle" then Some(Circle)
    else if s == "Rectangle" then Some(Rectangle)
    else if s == "Square" then Some(Square)
    else if |s| >= 7 && s[..7] == "Custom " then ParseCustom(s[7..])
    else None
  }

  /** Reads "<width>X<height>", the part of a custom label after "Custom ". */
  function ParseCustom(rest: string): Option<Crop> {
    var k := IndexOf(rest, 'X');
    if k == |rest| then None
    else
      var w, h := ParseInt(rest[..k]), ParseInt(rest[k + 1..]);
      if w.Some? && h.Some? && IntMin <= w.value <= IntMax && IntMin <= h.value <= IntMax
      then Some(Custom(CGSize(w.value as real, h.value as real)))
      else None
  }

  lemma ParseCustomOfText(w: int, h: int)
    requires IntMin <= w <= IntMax && IntMin <= h <= IntMax
    ensures ParseCustom(IntToText(w) + "X" + IntToText(h)) == Some(Custom(CGSize(w as real, h as real)))
  {
    var width, height := IntToText(w), IntToText(h);
    var rest := width + "X" + height;
    assert rest[|width|] == 'X';
    assert forall i :: 0 <= i < |width| ==> rest[i] == width[i];
    assert IndexOf(rest, 'X') == |width|;
    assert rest[..|width|] == width;
    assert rest[|width| + 1..] == height;
    ParseIntToText(w);
    ParseIntToText(h);
  }

  /** Every label reads back as the canonical form of the crop it was made from. */
  lemma ParseNameOfName(c: Crop)
    requires c.NameDefined()
    ensures ParseName(c.Name()) == Some(Canonical(c))
  {
    if c.Custom? {
      var w, h := Trunc(c.cgSize.width), Trunc(c.cgSize.height);
      var s := c.Name();
      assert |s| >= 7 && s[..7] == "Custom ";
      assert s != "Circle" && s != "Rectangle" && s != "Square";
      assert s[7..] == IntToText(w) + "X" + IntToText(h);
      ParseCustomOfText(w, h);
      assert ParseName(s) == ParseCustom(s[7..]);
    }
  }

  /** A whole number truncates to itself. */
  lemma TruncOfInt(n: int)
    ensures Trunc(n as real) == n
  {
  }

  lemma NameOfParseCustom(rest: string, c: Crop)
    requires ParseCustom(rest) == Some(c)
    ensures c.NameDefined() && c.Name() == "Custom " + rest
  {
    var k := IndexOf(rest, 'X');
    var width, height := rest[..k], rest[k + 1..];
    var w, h := ParseInt(width).value, ParseInt(height).value;
    assert c == Custom(CGSize(w as real, h as real));
    TruncOfInt(w);
    TruncOfInt(h);
    IntToTextParse(width, w);
    IntToTextParse(height, h);
    assert rest == width + "X" + height;
    calc {
      c.Name();
      "Custom " + IntToText(w) + "X" + IntToText(h);
      "Custom " + rest;
    }
  }

  /** Every string that reads back as a crop is exactly that crop's label. */
  lemma NameOfParseName(s: string, c: Crop)
    requires ParseName(s) == Some(c)
    ensures c.NameDefined() && c.Name() == s
  {
    if s != "Circle" && s != "Rectangle" && s != "Square" {
      NameOfParseCustom(s[7..], c);
      assert s == s[..7] + s[7..];
    }
  }

  /** Two crops get the same label exactly when they have the same canonical form. */
  lemma NameEqIff(a: Crop, b: Crop)
    requires a.NameDefined() && b.NameDefined()
    ensures a.Name() == b.Name() <==> Canonical(a) == Canonical(b)
  {
    ParseNameOfName(a);
    ParseNameOfName(b);
  }

  /** The labels of the three fixed shapes. */
  lemma FixedNames()
    ensures Circle.Name() == "Circle"
    ensures Rectangle.Name() == "Rectangle"
    ensures Square.Name() == "Square"
  {
  }

  /** No two different shapes without a size share a label, and no custom label
      equals a fixed one. */
  lemma NameSeparatesCases(a: Crop, b: Crop)
    requires a.NameDefined() && b.NameDefined()
    requires a.Custom? != b.Custom? || (!a.Custom? && a != b)
    ensures a.Name() != b.Name()
  {
  }

  /** Different sizes that truncate to the same integers share a label, so the
      label does not identify a custom crop while `==` does. */
  lemma NameNotInjectiveOnCustom()
    ensures Custom(CGSize(0.5, 300.0)) != Custom(CGSize(-0.5, 300.0))
    ensures !Custom(CGSize(0.5, 300.0)).Equals(Custom(CGSize(-0.5, 300.0)))
    ensures Custom(CGSize(0.5, 300.0)).Name() == "Custom 0X300"
    ensures Custom(CGSize(-0.5, 300.0)).Name() == "Custom 0X300"
  {
  }

  /** Every non-custom shape has the 300 x 300 output size. */
  lemma FixedSizes(c: Crop)
    requires !c.Custom?
    ensures c.Size() == CGSize(300.0, 300.0)
  {
  }

  /** A custom size is returned as given, with no validation. The clause holds
      for every size, so zero and negative dimensions pass through too. */
  lemma CustomSizePassesThrough(size: CGSize)
    ensures Custom(size).Size() == size
  {
  }

  /** Two crops have the same output size exactly when both are fixed shapes,
      both are custom with the same size, or one is fixed and the other is a
      custom 300 x 300. */
  lemma SizeEqIff(a: Crop, b: Crop)
    ensures a.Size() == b.Size() <==>
      || (!a.Custom? && !b.Custom?)
      || (a.Custom? && b.Custom? && a.cgSize == b.cgSize)
      || (a.Custom? && !b.Custom? && a.cgSize == CGSize(DefaultSide, DefaultSide))
      || (!a.Custom? && b.Custom? && b.cgSize == CGSize(DefaultSide, DefaultSide))
  {
  }

  /** The menu offered by the home screen. */
  const AppOptions: seq<Crop> := [Circle, Square, Rectangle, Custom(CGSize(300.0, 300.0))]

  /** The labels of the menu buttons, one per option, in order. */
  function MenuLabels(options: seq<Crop>): (labels: seq<string>)
    requires forall i :: 0 <= i < |options| ==> options[i].NameDefined()
    ensures |labels| == |options|
  {
    seq(|options|, i requires 0 <= i < |options| => options[i].Name())
  }

  /** Each button's label reads back as the canonical form of the option at the
      same position. */
  lemma MenuLabelsReadBack(options: seq<Crop>)
    requires forall i :: 0 <= i < |options| ==> options[i].NameDefined()
    ensures forall i :: 0 <= i < |options| ==> ParseName(MenuLabels(options)[i]) == Some(Canonical(options[i]))
  {
    forall i | 0 <= i < |options|
      ensures ParseName(MenuLabels(options)[i]) == Some(Canonical(options[i]))
    {
      ParseNameOfName(options[i]);
    }
  }

  /** Two menu buttons carry the same label exactly when their options have the
      same canonical form. */
  lemma MenuLabelsEqIff(options: seq<Crop>, i: nat, j: nat)
    requires forall k :: 0 <= k < |options| ==> options[k].NameDefined()
    requires i < |options| && j < |options|
    ensures MenuLabels(options)[i] == MenuLabels(options)[j] <==> Canonical(options[i]) == Canonical(options[j])
  {
    var labels := MenuLabels(options);
    MenuLabelsReadBack(options);
    if labels[i] == labels[j] {
      assert Some(Canonical(options[i])) == ParseName(labels[i]) == ParseName(labels[j]) == Some(Canonical(options[j]));
    } else {
      assert Canonical(options[i]).Name() == labels[i];
      assert Canonical(options[j]).Name() == labels[j];
    }
  }

  /** The four offered shapes all crop to 300 x 300, yet their menu labels are
      pairwise distinct. */
  lemma AppMenu()
    ensures forall i :: 0 <= i < |AppOptions| ==> AppOptions[i].Size() == CGSize(300.0, 300.0)
    ensures MenuLabels(AppOptions) == ["Circle", "Square", "Rectangle", "Custom 300X300"]
    ensures forall i, j :: 0 <= i < j < |AppOptions| ==> MenuLabels(AppOptions)[i] != MenuLabels(AppOptions)[j]
  {
    assert Trunc(300.0) == 300;
    assert IntToText(300) == "300";
    assert AppOptions[3].Name() == "Custom 300X300";
  }
}
