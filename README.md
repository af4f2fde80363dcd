# CropImageView crop-shape descriptor in Dafny

CropImageView is a SwiftUI app that lets a user pick a photo and choose a mask
shape to crop it with. The shapes are the Swift enum `Crop`: `circle`,
`rectangle`, `square` and `custom(CGSize)`. Each shape has two accessors.
`name()` is the label of the shape's button in the mask menu. `size()` is the
pixel size of the cropped output. The enum also gets Swift's synthesized
`Equatable` conformance.

This project models that enum and proves what its two accessors reveal and
hide about a shape:

- `DecimalText.dfy` models how Swift interpolates an `Int` into a string
  (`"\(n)"`). `ParseInt` is its inverse, and the two are proved to be a
  bijection between the integers and canonical decimal strings.
- `Crop.dfy` holds the `Crop` datatype with `Name`, `Size` and `Equals`.
  `CGSize` has exact real dimensions. `Trunc` is Swift's `Int(_:)`, which
  truncates toward zero. `NameDefined` is the precondition under which
  `name()` does not trap: both truncated custom dimensions must fit in a
  64-bit `Int`. `ParseName` reads a label back. The round-trip lemmas show
  that a label determines exactly the case and, for `custom`, the truncated
  width and height, and nothing more.

Custom sizes are not validated: `size()` does not check that the dimensions
are positive, and a custom size is passed through unchanged even when a
dimension is zero or negative. The model follows the code here
(`CustomSizePassesThrough`) rather than assuming positive dimensions.

## Model

| member | source | states |
|---|---|---|
| `CropModel.Crop.Name` | CropImageView/Model/Crop.swift:17-28 | the label of a shape begins with "Custom " exactly when the shape is `custom` |
| `CropModel.FixedNames` | CropImageView/Model/Crop.swift:19-24 | the labels of circle, rectangle and square are "Circle", "Rectangle" and "Square" |
| `CropModel.Trunc` | CropImageView/Model/Crop.swift:26 | `Int(x)` keeps the integer part of x and rounds toward zero: for x >= 0 it is the floor, for x < 0 the ceiling |
| `CropModel.TruncOfInt` | CropImageView/Model/Crop.swift:26 | a whole-number dimension truncates to itself |
| `CropModel.Canonical` | CropImageView/Model/Crop.swift:25-26 | replacing a custom size by its truncated width and height keeps the shape's case and its label |
| `CropModel.ParseNameOfName` | CropImageView/Model/Crop.swift:17-28 | every label reads back as the case it came from, with a custom size's truncated width and height |
| `CropModel.NameOfParseCustom` | CropImageView/Model/Crop.swift:25-26 | any "<w>X<h>" text that reads back as custom dimensions is exactly the tail of that crop's label |
| `CropModel.NameOfParseName` | CropImageView/Model/Crop.swift:17-28 | every string that reads back as a crop is exactly that crop's label, and that crop's `name()` does not trap |
| `CropModel.NameEqIff` | CropImageView/Model/Crop.swift:17-28 | two shapes have the same label if and only if they are the same case and, for custom, have the same truncated width and height |
| `CropModel.NameSeparatesCases` | CropImageView/Model/Crop.swift:19-26 | different fixed shapes have different labels, and no custom label equals a fixed shape's label |
| `CropModel.NameNotInjectiveOnCustom` | CropImageView/Model/Crop.swift:11-26 | custom 0.5 x 300 and custom -0.5 x 300 are unequal under `==` but both are labelled "Custom 0X300" |
| `CropModel.FixedSizes` | CropImageView/Model/Crop.swift:30-37 | circle, rectangle and square all give a 300 x 300 output size |
| `CropModel.CustomSizePassesThrough` | CropImageView/Model/Crop.swift:38-39 | a custom shape's size is its own size unchanged, with no clamping of zero or negative dimensions |
| `CropModel.SizeEqIff` | CropImageView/Model/Crop.swift:30-41 | two shapes have the same output size if and only if both are fixed, or both are custom of equal size, or one is fixed and the other is custom 300 x 300; so the size alone cannot tell the fixed shapes apart |
| `CropModel.Crop.Equals` | CropImageView/Model/Crop.swift:11-15 | the synthesized `==` holds if and only if the two values are structurally equal: same case, and for custom the same width and height |
| `CropModel.MenuLabelsReadBack` | CropImageView/View/CustomImagePicker.swift:59-60 | the menu has one button per offered option, and button i's label reads back as the canonical form of option i |
| `CropModel.MenuLabelsEqIff` | CropImageView/View/CustomImagePicker.swift:59-60 | two menu buttons carry the same label if and only if their options are the same case with the same truncated dimensions |
| `CropModel.AppMenu` | CropImageView/View/Home.swift:42 | the four shapes the app offers all crop to 300 x 300, yet their labels "Circle", "Square", "Rectangle", "Custom 300X300" are pairwise distinct |
| `DecimalText.NatToText` | CropImageView/Model/Crop.swift:26 | the text of a natural number is a non-empty digit string with no leading zero, and it starts with '0' only for zero |
| `DecimalText.IntToText` | CropImageView/Model/Crop.swift:26 | the text of an `Int` starts with '-' exactly for negative values, with a digit otherwise, and every later character is a digit |
| `DecimalText.ParseIntToText` | CropImageView/Model/Crop.swift:26 | reading back the text of an integer gives that integer |
| `DecimalText.IntToTextParse` | CropImageView/Model/Crop.swift:26 | every string that reads back as an integer is exactly the text of that integer |
| `DecimalText.IntToTextInjective` | CropImageView/Model/Crop.swift:26 | two integers have the same text if and only if they are equal |

## Left out

- `CGFloat` is IEEE double precision. The model uses exact reals, so rounding, NaN, infinities and negative zero are not modelled. NaN and infinite widths would make `Int(_:)` trap; reals exclude them by type.
- `CropModel.MenuLabels` states only the number of labels in its own contract. What each label is follows from `MenuLabelsReadBack` and `MenuLabelsEqIff`.
- `CropModel.Crop.Size` has no contract of its own. Its behaviour is stated by `FixedSizes`, `CustomSizePassesThrough` and `SizeEqIff`.
- The interactive pan and zoom, the clamping of the image against the crop window, and the rendering of the cropped bitmap are not part of this model. That code belongs to the crop screen `ImageHome` (ContentView.swift:15), whose source is not modelled.
- The mask menu's buttons have empty actions (CustomImagePicker.swift:60-62), so no crop is ever performed from a menu choice. The menu is modelled only as its list of labels.
- The photo picker, its asynchronous image loading and the SwiftUI dialogs in CustomImagePicker.swift are user interface and I/O.
- VideoHome.swift is left out whole: file import and copy, transcoding through the external FFmpegKit tool, disk reads and asynchronous load state are all I/O or a foreign tool.
- Home.swift and ContentView.swift are layout and navigation. Only the option list at Home.swift:42 is modelled, as `AppOptions`.
