# SvgHtmlHelpers in Dafny

A model of the four ASP.NET MVC HTML helpers in `SvgHtmlHelpers.cs`:
`SvgLine`, `SvgPolyLine`, `SvgText` and `SvgCircle`. Each helper fills a
`TagBuilder` in two steps. First it adds the element's required attributes,
which are the coordinates or the polyline's `points`. Then it adds `id` and
`class` when those are set, and last it adds an inline `style` string built
by concatenation. `SvgText` also sets the text and may append a `<title>`
child element.

The model follows each helper statement by statement, up to the element the
builder holds. That element is a tag, an attribute list and a list of
inner parts. The attribute list records the order of the `Add` calls; the
builder's own storage order and its rendering into markup are not
modelled.

- `WhiteSpace`: `char.IsWhiteSpace` with its full .NET character set, and
  `string.IsNullOrWhiteSpace` as a scan over the characters. A C# `null`
  string is `None`.
- `Host`: C# `float` and `double` are kept as their IEEE bit patterns. The
  `Env` record holds three functions the model never looks inside:
  culture-dependent number formatting and `HtmlHelper.Encode`. Every
  theorem about the helpers holds for every choice of these functions. The
  worked scenarios fix the formatter on the numbers they use, and
  `Points.ParseChunks` assumes a formatter that writes no separators.
- `TagBuilder`: `Attributes.Add` is a dictionary insert that fails with
  `DuplicateKey` on a repeated key. A helper body is a list of `Step`s run
  by `Run`, which stops at the first exception. `Contributions`,
  `InnerAfter` and `Effect` give an independent reading of what the steps
  build. `RunSucceedsIffDistinct` ties that reading to `Run`.
- `Styles`: the two style strings, exactly as the helpers concatenate them.
  Each also has a structured view as a list of `Piece`s (declarations and
  raw text). Lemmas relate the two views.
- `Points`: the `Aggregate` fold that builds the polyline's `points` string.
  It has a front-to-back reference reading and a parser that reads the
  string back into coordinate pairs.
- `SvgHtmlHelpers`: the four helpers, plus one theorem per helper stating
  that no `Add` throws and giving the resulting attribute layout and inner
  content.
- `Scenarios`: concrete calls written out as the elements they build.

`float.ToString()` and `string.Format` format numbers in the current
culture, so the number formatter is a free parameter of `Env`.

Two quirks are kept as written: the text style's key is `colour`, not
`color`, and its `text-anchor` segment has no trailing `;`.

## Model

| member | source | states |
|---|---|---|
| WhiteSpace.BlankIffAllWhiteSpace | SvgHtmlHelpers.cs:32 | the `IsNullOrWhiteSpace` guard treats a string as blank exactly when every character is whitespace, the empty string included |
| TagBuilder.AddInserts | SvgHtmlHelpers.cs:27-30 | on distinct keys, `Attributes.Add` throws exactly when the key is already stored; otherwise keys stay distinct, the new key maps to the new value, every other key keeps its value or stays absent, and tag and inner content are untouched |
| TagBuilder.RunSucceedsIffDistinct | SvgHtmlHelpers.cs:25-50 | a helper body runs without exception exactly when the attribute names it adds are distinct from each other and from the builder's own; it then yields the builder's attributes plus each statement's addition in order, and the inner content the statements leave |
| TagBuilder.AppendOptional | SvgHtmlHelpers.cs:32-35 | a guarded `Add` of a key not yet present keeps names distinct and adds the key exactly when the parameter is set, under which the encoded parameter is then found |
| TagBuilder.IdClassAfter | SvgHtmlHelpers.cs:32-40 | after the required attributes, `id` then `class` each appear exactly when set, holding the encoded parameter; names stay distinct and `style` is still free |
| TagBuilder.IdClassStyleTail | SvgHtmlHelpers.cs:175-194 | required attributes, then optional `id` and `class`, then `style`, give distinct names in that order; the required attributes stay in front, unchanged, and id, class and style hold their encoded values |
| Styles.StrokeStyleNeverBlank | SvgHtmlHelpers.cs:42-50 | the stroke style always contains `stroke-width: w;`, so it is never blank and the style attribute is always added |
| Styles.TextStyleNeverBlank | SvgHtmlHelpers.cs:136-152 | the text style always begins with `font-size: s;`, so it is never blank and the style attribute is always added |
| Styles.StrokePieces | SvgHtmlHelpers.cs:86-90 | the stroke style's pieces come in the order stroke, stroke-width, fill, raw styles, each at most once and nothing else; stroke-width is always there; each other piece is there exactly when its parameter is set and carries the parameter's text; every declaration ends in `;` |
| Styles.StrokeStyleRendersPieces | SvgHtmlHelpers.cs:185-189 | the concatenated stroke style equals its pieces rendered in order, so the structured view is the string itself |
| Styles.TextPieces | SvgHtmlHelpers.cs:137-147 | the text style's declarations come in the order font-size, colour (key `colour`), font-family, font-weight, text-anchor, and nothing else; font-size comes first and is always there; each other declaration is there exactly when set and carries its text; text-anchor is the one declaration without `;` |
| Styles.TextStyleRendersPieces | SvgHtmlHelpers.cs:136-147 | the concatenated text style equals its declarations rendered in order |
| Points.Chunk | SvgHtmlHelpers.cs:69 | one vertex's `x, y ` text is never blank and ends in a space, whatever the formatter returns |
| Points.PointValues | SvgHtmlHelpers.cs:67-69 | the folded points string is blank exactly when there are no vertices, and otherwise ends in a space |
| Points.PointValuesIsChunks | SvgHtmlHelpers.cs:67-68 | the left fold from the empty string equals the front-to-back concatenation of the vertex chunks |
| Points.ParseChunks | SvgHtmlHelpers.cs:69 | if the formatted coordinates contain no `,` (x) and no space (y), reading the points string back yields the formatted pairs in vertex order |
| SvgHtmlHelpers.LineCoordinatesPlain | SvgHtmlHelpers.cs:27-30 | the line's four coordinate names are distinct and none is id, class or style |
| SvgHtmlHelpers.CircleGeometryPlain | SvgHtmlHelpers.cs:171-173 | the circle's three geometry names are distinct and none is id, class or style |
| SvgHtmlHelpers.IdClassStyleContributions | SvgHtmlHelpers.cs:175-194 | the shared tail adds id when set, class when set, and then always the encoded style |
| SvgHtmlHelpers.RequiredThenIdClassStyle | SvgHtmlHelpers.cs:65-95 | on a fresh builder, statements that only add distinct required attributes followed by the shared tail succeed, leave no inner content and produce the documented layout |
| SvgHtmlHelpers.AddEachThenIdClassStyle | SvgHtmlHelpers.cs:25-50 | one unconditional `Add` per required attribute, then the shared tail, builds the documented layout without exception |
| SvgHtmlHelpers.SvgLineBuilds | SvgHtmlHelpers.cs:13-53 | `SvgLine` never throws; the line has x1, x2, y1, y2 in that order, then id and class exactly when set, then the encoded stroke style; names are distinct and there is no inner content |
| SvgHtmlHelpers.SvgCircleBuilds | SvgHtmlHelpers.cs:157-197 | `SvgCircle` never throws; the circle has cx, cy, r, then id and class exactly when set, then the encoded style including the raw styles; names are distinct and there is no inner content |
| SvgHtmlHelpers.PointsStepAdds | SvgHtmlHelpers.cs:71-74 | the guarded points `Add` adds the unencoded points string exactly when there is at least one vertex, and touches nothing else |
| SvgHtmlHelpers.PointsFirst | SvgHtmlHelpers.cs:67-74 | in a polyline's layout, `points` is present exactly when the array is non-empty, and then holds the folded vertices |
| SvgHtmlHelpers.SvgPolyLineBuilds | SvgHtmlHelpers.cs:55-98 | `SvgPolyLine` fails exactly when the array is null, with `ArgumentNullException` on `source`; otherwise it builds points (present iff non-empty), then id and class exactly when set, then the encoded style, with distinct names and no inner content |
| SvgHtmlHelpers.TextStepsEffect | SvgHtmlHelpers.cs:116-134 | the text helper's statements add x, y, optional id, optional class and style, and leave the text followed by the title child exactly when the title is set |
| SvgHtmlHelpers.TextStepsBuild | SvgHtmlHelpers.cs:114-152 | for any non-blank style, the text helper's statements on a fresh builder succeed with that attribute layout and inner content |
| SvgHtmlHelpers.SvgTextBuilds | SvgHtmlHelpers.cs:100-155 | `SvgText` never throws; the text element has x, y, then id and class exactly when set, then the encoded text style; its inner content is the text, followed by `<title>` holding the encoded title exactly when the title is set |
| Scenarios.CircleWithFill | SvgHtmlHelpers.cs:157-197 | `SvgCircle(10, 20, 5, fill: "red")` builds cx, cy, r and the encoded style `stroke-width: 1;fill: red;` |
| Scenarios.PolyLineOfTwoPoints | SvgHtmlHelpers.cs:55-98 | a polyline through (1, 2) and (3, 4) gets points `1, 2 3, 4 ` unencoded and the default style |
| Scenarios.PolyLineOfNoPoints | SvgHtmlHelpers.cs:67-74 | an empty vertex array gives no points attribute, only the style |
| Scenarios.PolyLineOfNull | SvgHtmlHelpers.cs:67-69 | a null vertex array throws `ArgumentNullException` whatever the other arguments |
| Scenarios.TextWithTitle | SvgHtmlHelpers.cs:100-155 | a text with default font size and family, anchor `middle` and title `tip` gets x, y and the encoded style `font-size: 12;font-family: Arial;text-anchor: middle`, and its inner content is the text followed by the title child |
| Scenarios.TitledText | SvgHtmlHelpers.cs:116-129 | with a title and no id or class, the text element carries x, y and style, and its inner content is the text followed by the encoded title child |
| Scenarios.AnchoredTextStyle | SvgHtmlHelpers.cs:137-147 | the default text style with an anchor ends in `text-anchor: middle` with no trailing `;` |
| Scenarios.FillStyle | SvgHtmlHelpers.cs:185-189 | a fill and the default width give `stroke-width: 1;fill: red;` |
| Scenarios.DefaultStyle | SvgHtmlHelpers.cs:86-90 | with only the default width the stroke style is `stroke-width: 1;` |
| Scenarios.TwoPointValues | SvgHtmlHelpers.cs:67-69 | the fold over (1, 2), (3, 4) gives `1, 2 3, 4 ` |

## Left out

- Rendering: `TagBuilder.ToString(TagRenderMode.Normal)` and `MvcHtmlString.Create` are not modelled. They turn the element into markup, and the model stops at the element's tag, ordered attributes and inner parts.
- The HTML encoding that `SetInnerText` applies to the text is not modelled. The text is kept as it was passed, as `InnerText`.
- Appending the title is modelled as appending a child part. The source writes the title's markup with `InnerHtml +=`, and that string is not modelled.
- `HtmlHelper.Encode`, `float.ToString()` and `string.Format` of a `float` or `double` are not modelled: they are the free functions of `Env`. The culture-dependent digits, decimal separator and exponent forms are therefore not modelled either.
- Points.ParseChunks: the read-back needs a formatter that writes no `,` in x and no space in y. A culture whose decimal separator is `,` breaks the round trip, and the lemma does not cover that case.
- A null `Tuple` inside the vertex array is left out. The source would throw `NullReferenceException` inside the fold; the model's vertices are never null.
- C# strings are UTF-16 code units; the model's `char` is a Unicode scalar value. Unpaired surrogates cannot be represented.
- The `this HtmlHelper` extension-method plumbing is left out; only its `Encode` is used.
- Styles.StrokeStyleNeverBlank: it states only that the style is not blank. Which segments are present, and their order, is stated by `Styles.StrokePieces` together with `Styles.StrokeStyleRendersPieces`.
