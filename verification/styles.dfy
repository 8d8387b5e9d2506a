/** The inline `style` attribute values the helpers assemble by string
    concatenation, and a structured view of them as a list of pieces. */
module Styles {
  import opened Wrappers
  import opened WhiteSpace

  /** One piece of an inline style: a `property: value` declaration, followed
      by `;` when terminated, or free text appended verbatim. */
  datatype Piece =
    | Declaration(property: string, value: string, terminated: bool)
    | Raw(text: string)

  function Render(p: Piece): string
  {
    match p
    case Declaration(property, value, terminated) =>
      property + ": " + value + (if terminated then ";" else "")
    case Raw(text) => text
  }

  /** The pieces rendered one after the other, with no separator. */
  function RenderAll(ps: seq<Piece>): string
  {
    if |ps| == 0 then "" else Render(ps[0]) + RenderAll(ps[1..])
  }

  lemma {:induction false} RenderAllAppend(ps: seq<Piece>, qs: seq<Piece>)
    ensures RenderAll(ps + qs) == RenderAll(ps) + RenderAll(qs)
    decreases |ps|
  {
    if |ps| == 0 {
      assert ps + qs == qs;
    } else {
      assert (ps + qs)[1..] == ps[1..] + qs;
      RenderAllAppend(ps[1..], qs);
    }
  }

  /** The value of the first declaration of `property`, if there is one. */
  function Find(ps: seq<Piece>, property: string): Option<string>
  {
    if |ps| == 0 then None
    else if ps[0].Declaration? && ps[0].property == property then Some(ps[0].value)
    else Find(ps[1..], property)
  }

  /** The text of the first raw piece, if there is one. */
  function FindRaw(ps: seq<Piece>): Option<string>
  {
    if |ps| == 0 then None
    else if ps[0].Raw? then Some(ps[0].text)
    else FindRaw(ps[1..])
  }

  /** Where a piece belongs in a line, polyline or circle style:
      stroke, stroke-width, fill, then raw text. */
  function StrokeRank(p: Piece): nat
  {
    match p
    case Raw(_) => 3
    case Declaration(property, _, _) =>
      if property == "stroke" then 0
      else if property == "stroke-width" then 1
      else if property == "fill" then 2
      else 4
  }

  /** Where a piece belongs in a text style: font-size, colour, font-family,
      font-weight, text-anchor. */
  function TextRank(p: Piece): nat
  {
    match p
    case Raw(_) => 5
    case Declaration(property, _, _) =>
      if property == "font-size" then 0
      else if property == "colour" then 1
      else if property == "font-family" then 2
      else if property == "font-weight" then 3
      else if property == "text-anchor" then 4
      else 5
  }

  /** The pieces appear in strictly increasing rank: each kind at most once,
      and in the order the rank lays down. */
  predicate InOrder(rank: Piece -> nat, ps: seq<Piece>)
  {
    forall i, j :: 0 <= i < j < |ps| ==> rank(ps[i]) < rank(ps[j])
  }

  /** Every piece ranks below `k`. */
  predicate RanksBelow(rank: Piece -> nat, ps: seq<Piece>, k: nat)
  {
    forall i :: 0 <= i < |ps| ==> rank(ps[i]) < k
  }

  /** Appending at most one piece of rank `k` to pieces in order and ranked
      below `k` keeps them in order, now ranked below `k + 1`. */
  lemma {:induction false} Extend(rank: Piece -> nat, ps: seq<Piece>, qs: seq<Piece>, k: nat)
    requires InOrder(rank, ps) && RanksBelow(rank, ps, k)
    requires |qs| <= 1 && forall i :: 0 <= i < |qs| ==> rank(qs[i]) == k
    ensures InOrder(rank, ps + qs) && RanksBelow(rank, ps + qs, k + 1)
  {
    forall i, j | 0 <= i < j < |ps + qs|
      ensures rank((ps + qs)[i]) < rank((ps + qs)[j])
    {
      assert (ps + qs)[i] == ps[i];
      if j < |ps| {
        assert (ps + qs)[j] == ps[j];
      } else {
        assert (ps + qs)[j] == qs[j - |ps|];
      }
    }
    forall i | 0 <= i < |ps + qs|
      ensures rank((ps + qs)[i]) < k + 1
    {
      if i < |ps| {
        assert (ps + qs)[i] == ps[i];
      } else {
        assert (ps + qs)[i] == qs[i - |ps|];
      }
    }
  }

  /** Looking a property up in a concatenation searches the front part first. */
  lemma {:induction false} FindAppend(ps: seq<Piece>, qs: seq<Piece>, property: string)
    ensures Find(ps + qs, property) == if Find(ps, property).Some? then Find(ps, property) else Find(qs, property)
    ensures FindRaw(ps + qs) == if FindRaw(ps).Some? then FindRaw(ps) else FindRaw(qs)
    decreases |ps|
  {
    if |ps| == 0 {
      assert ps + qs == qs;
    } else {
      assert (ps + qs)[0] == ps[0];
      assert (ps + qs)[1..] == ps[1..] + qs;
      FindAppend(ps[1..], qs, property);
    }
  }

  /** A declaration of `property` when the parameter is not null or
      whitespace, nothing otherwise. */
  function DeclarationUnlessBlank(property: string, param: Option<string>, terminated: bool): seq<Piece>
  {
    if IsNullOrWhiteSpace(param) then [] else [Declaration(property, param.value, terminated)]
  }

  /** `string.Format("<property>: {0}<terminator>", param)` when the
      parameter is set, the empty string otherwise. */
  function SegmentUnlessBlank(property: string, param: Option<string>, terminator: string): string
  {
    if !IsNullOrWhiteSpace(param) then property + ": " + param.value + terminator else ""
  }

  /** The parameter's own text when it is set, the empty string otherwise. */
  function TextUnlessBlank(param: Option<string>): string
  {
    if !IsNullOrWhiteSpace(param) then param.value else ""
  }

  /** The style of a line, polyline or circle, concatenated as the helpers do:
      `stroke: s;` when stroke is set, `stroke-width: w;` always, `fill: f;`
      when fill is set, then the caller's raw style text when set (the line
      helper has none and passes null). `strokeWidth` is the formatted width. */
  function StrokeStyle(stroke: Option<string>, strokeWidth: string, fill: Option<string>, styles: Option<string>)
    : string
  {
    SegmentUnlessBlank("stroke", stroke, ";")
    + "stroke-width: " + strokeWidth + ";"
    + SegmentUnlessBlank("fill", fill, ";")
    + TextUnlessBlank(styles)
  }

  /** Whatever the parameters, the line, polyline and circle style holds the
      `stroke-width: w;` segment, so it is never blank and the guard in
      front of the style attribute always lets it through. */
  lemma {:induction false} StrokeStyleNeverBlank(stroke: Option<string>, strokeWidth: string, fill: Option<string>, styles: Option<string>)
    ensures !IsBlank(StrokeStyle(stroke, strokeWidth, fill, styles))
  {
    var before := SegmentUnlessBlank("stroke", stroke, ";");
    var style := StrokeStyle(stroke, strokeWidth, fill, styles);
    assert style[|before|] == 's';
    NotBlankAt(style, |before|);
  }

  /** The style of a text element, concatenated as the helper does: the font
      size always, then colour (under the key `colour`), font family, font
      weight and text anchor, each only when set; the text anchor alone has
      no trailing `;`. `fontSize` is the formatted size. */
  function TextStyle(fontSize: string, colour: Option<string>, fontFamily: Option<string>,
                     fontWeight: Option<string>, textAnchor: Option<string>)
    : string
  {
    "font-size: " + fontSize + ";"
    + SegmentUnlessBlank("colour", colour, ";")
    + SegmentUnlessBlank("font-family", fontFamily, ";")
    + SegmentUnlessBlank("font-weight", fontWeight, ";")
    + SegmentUnlessBlank("text-anchor", textAnchor, "")
  }

  /** Whatever the parameters, the text style starts with the
      `font-size: s;` segment, so it is never blank and the guard in front
      of the style attribute always lets it through. */
  lemma {:induction false} TextStyleNeverBlank(fontSize: string, colour: Option<string>, fontFamily: Option<string>,
                            fontWeight: Option<string>, textAnchor: Option<string>)
    ensures "font-size: " + fontSize + ";" <= TextStyle(fontSize, colour, fontFamily, fontWeight, textAnchor)
    ensures !IsBlank(TextStyle(fontSize, colour, fontFamily, fontWeight, textAnchor))
  {
    var style := TextStyle(fontSize, colour, fontFamily, fontWeight, textAnchor);
    var head := "font-size: " + fontSize + ";";
    assert style == head + style[|head|..];
    assert style[0] == head[0] == 'f';
  }

  /** The pieces of a line, polyline or circle style. */
  function StrokeDeclarations(stroke: Option<string>, strokeWidth: string, fill: Option<string>, styles: Option<string>)
    : seq<Piece>
  {
    DeclarationUnlessBlank("stroke", stroke, true)
    + [Declaration("stroke-width", strokeWidth, true)]
    + DeclarationUnlessBlank("fill", fill, true)
    + (if IsNullOrWhiteSpace(styles) then [] else [Raw(styles.value)])
  }

  /** The declarations of a text style. */
  function TextDeclarations(fontSize: string, colour: Option<string>, fontFamily: Option<string>,
                            fontWeight: Option<string>, textAnchor: Option<string>)
    : seq<Piece>
  {
    [Declaration("font-size", fontSize, true)]
    + DeclarationUnlessBlank("colour", colour, true)
    + DeclarationUnlessBlank("font-family", fontFamily, true)
    + DeclarationUnlessBlank("font-weight", fontWeight, true)
    + DeclarationUnlessBlank("text-anchor", textAnchor, false)
  }

  /** The declaration for an optional parameter, if any, carries its value. */
  lemma {:induction false} DeclarationUnlessBlankFind(property: string, param: Option<string>, terminated: bool, other: string)
    ensures var ps := DeclarationUnlessBlank(property, param, terminated);
      && |ps| <= 1
      && Find(ps, property) == (if IsNullOrWhiteSpace(param) then None else Some(param.value))
      && (other != property ==> Find(ps, other) == None)
      && FindRaw(ps) == None
  {
  }

  /** Looking up in four concatenated parts searches them front to back. */
  lemma {:induction false} FindAll4(a: seq<Piece>, b: seq<Piece>, c: seq<Piece>, d: seq<Piece>, property: string)
    ensures Find(a + b + c + d, property)
      == if Find(a, property).Some? then Find(a, property)
         else if Find(b, property).Some? then Find(b, property)
         else if Find(c, property).Some? then Find(c, property)
         else Find(d, property)
    ensures FindRaw(a + b + c + d)
      == if FindRaw(a).Some? then FindRaw(a)
         else if FindRaw(b).Some? then FindRaw(b)
         else if FindRaw(c).Some? then FindRaw(c)
         else FindRaw(d)
  {
    FindAppend(a, b, property);
    FindAppend(a + b, c, property);
    FindAppend(a + b + c, d, property);
  }

  /** Rendering a single piece, or none. */
  lemma {:induction false} RenderAllShort(ps: seq<Piece>)
    requires |ps| <= 1
    ensures RenderAll(ps) == if |ps| == 0 then "" else Render(ps[0])
  {
    if |ps| == 1 {
      assert ps[1..] == [];
    }
  }

  /** A line, polyline or circle style, as pieces: stroke, stroke-width, fill,
      raw text, in that order and nothing else; stroke-width always, each other piece exactly
      when its parameter is set, carrying the parameter's text; every
      declaration terminated by `;`. */
  lemma {:induction false} StrokePieces(stroke: Option<string>, strokeWidth: string, fill: Option<string>, styles: Option<string>)
    ensures var ps := StrokeDeclarations(stroke, strokeWidth, fill, styles);
      && InOrder(StrokeRank, ps) && RanksBelow(StrokeRank, ps, 4)
      && (forall i :: 0 <= i < |ps| && ps[i].Declaration? ==> ps[i].terminated)
      && Find(ps, "stroke-width") == Some(strokeWidth)
      && Find(ps, "stroke") == (if IsNullOrWhiteSpace(stroke) then None else Some(stroke.value))
      && Find(ps, "fill") == (if IsNullOrWhiteSpace(fill) then None else Some(fill.value))
      && FindRaw(ps) == (if IsNullOrWhiteSpace(styles) then None else Some(styles.value))
  {
    StrokePiecesOrder(stroke, strokeWidth, fill, styles);
    StrokePiecesFind(stroke, strokeWidth, fill, styles);
  }

  lemma {:induction false} StrokePiecesOrder(stroke: Option<string>, strokeWidth: string, fill: Option<string>, styles: Option<string>)
    ensures var ps := StrokeDeclarations(stroke, strokeWidth, fill, styles);
      && InOrder(StrokeRank, ps) && RanksBelow(StrokeRank, ps, 4)
      && (forall i :: 0 <= i < |ps| && ps[i].Declaration? ==> ps[i].terminated)
  {
    var a := DeclarationUnlessBlank("stroke", stroke, true);
    var b := [Declaration("stroke-width", strokeWidth, true)];
    var c := DeclarationUnlessBlank("fill", fill, true);
    var d := if IsNullOrWhiteSpace(styles) then [] else [Raw(styles.value)];
    var ps := a + b + c + d;
    assert StrokeDeclarations(stroke, strokeWidth, fill, styles) == ps;
    assert InOrder(StrokeRank, a + b) && RanksBelow(StrokeRank, a + b, 2) by {
      Extend(StrokeRank, [], a, 0);
      assert [] + a == a;
      Extend(StrokeRank, a, b, 1);
    }
    assert InOrder(StrokeRank, ps) && RanksBelow(StrokeRank, ps, 4) by {
      Extend(StrokeRank, a + b, c, 2);
      Extend(StrokeRank, a + b + c, d, 3);
    }
    forall i | 0 <= i < |ps| && ps[i].Declaration? ensures ps[i].terminated {
      if i < |a + b + c| {
        assert ps[i] == (a + b + c)[i];
        assert ps[i] in a || ps[i] in b || ps[i] in c;
      }
    }
  }

  lemma {:induction false} StrokePiecesFind(stroke: Option<string>, strokeWidth: string, fill: Option<string>, styles: Option<string>)
    ensures var ps := StrokeDeclarations(stroke, strokeWidth, fill, styles);
      && Find(ps, "stroke-width") == Some(strokeWidth)
      && Find(ps, "stroke") == (if IsNullOrWhiteSpace(stroke) then None else Some(stroke.value))
      && Find(ps, "fill") == (if IsNullOrWhiteSpace(fill) then None else Some(fill.value))
      && FindRaw(ps) == (if IsNullOrWhiteSpace(styles) then None else Some(styles.value))
  {
    var a := DeclarationUnlessBlank("stroke", stroke, true);
    var b := [Declaration("stroke-width", strokeWidth, true)];
    var c := DeclarationUnlessBlank("fill", fill, true);
    var d := if IsNullOrWhiteSpace(styles) then [] else [Raw(styles.value)];
    assert StrokeDeclarations(stroke, strokeWidth, fill, styles) == a + b + c + d;
    DeclarationUnlessBlankFind("stroke", stroke, true, "stroke-width");
    DeclarationUnlessBlankFind("stroke", stroke, true, "fill");
    DeclarationUnlessBlankFind("fill", fill, true, "stroke-width");
    DeclarationUnlessBlankFind("fill", fill, true, "stroke");
    FindAll4(a, b, c, d, "stroke");
    FindAll4(a, b, c, d, "stroke-width");
    FindAll4(a, b, c, d, "fill");
  }

  /** A text style, as declarations: font-size first and always, then colour,
      font-family, font-weight and text-anchor and nothing else, each exactly when its
      parameter is set and carrying its text; text-anchor is the one
      declaration without a trailing `;`. */
  lemma {:induction false} TextPieces(fontSize: string, colour: Option<string>, fontFamily: Option<string>,
                   fontWeight: Option<string>, textAnchor: Option<string>)
    ensures var ps := TextDeclarations(fontSize, colour, fontFamily, fontWeight, textAnchor);
      && InOrder(TextRank, ps) && RanksBelow(TextRank, ps, 5)
      && |ps| > 0 && ps[0] == Declaration("font-size", fontSize, true)
      && (forall i :: 0 <= i < |ps| ==> ps[i].Declaration?)
      && (forall i :: 0 <= i < |ps| ==> (ps[i].terminated <==> ps[i].property != "text-anchor"))
      && Find(ps, "colour") == (if IsNullOrWhiteSpace(colour) then None else Some(colour.value))
      && Find(ps, "font-family") == (if IsNullOrWhiteSpace(fontFamily) then None else Some(fontFamily.value))
      && Find(ps, "font-weight") == (if IsNullOrWhiteSpace(fontWeight) then None else Some(fontWeight.value))
      && Find(ps, "text-anchor") == (if IsNullOrWhiteSpace(textAnchor) then None else Some(textAnchor.value))
  {
    TextPiecesOrder(fontSize, colour, fontFamily, fontWeight, textAnchor);
    TextPiecesFind(fontSize, colour, fontFamily, fontWeight, textAnchor);
  }

  lemma {:induction false} TextPiecesOrder(fontSize: string, colour: Option<string>, fontFamily: Option<string>,
                        fontWeight: Option<string>, textAnchor: Option<string>)
    ensures var ps := TextDeclarations(fontSize, colour, fontFamily, fontWeight, textAnchor);
      && InOrder(TextRank, ps) && RanksBelow(TextRank, ps, 5)
      && |ps| > 0 && ps[0] == Declaration("font-size", fontSize, true)
      && (forall i :: 0 <= i < |ps| ==> ps[i].Declaration?)
      && (forall i :: 0 <= i < |ps| ==> (ps[i].terminated <==> ps[i].property != "text-anchor"))
  {
    var a := [Declaration("font-size", fontSize, true)];
    var b := DeclarationUnlessBlank("colour", colour, true);
    var c := DeclarationUnlessBlank("font-family", fontFamily, true);
    var d := DeclarationUnlessBlank("font-weight", fontWeight, true);
    var e := DeclarationUnlessBlank("text-anchor", textAnchor, false);
    var ps := a + b + c + d + e;
    assert TextDeclarations(fontSize, colour, fontFamily, fontWeight, textAnchor) == ps;
    assert InOrder(TextRank, a + b + c) && RanksBelow(TextRank, a + b + c, 3) by {
      Extend(TextRank, [], a, 0);
      assert [] + a == a;
      Extend(TextRank, a, b, 1);
      Extend(TextRank, a + b, c, 2);
    }
    assert InOrder(TextRank, ps) && RanksBelow(TextRank, ps, 5) by {
      Extend(TextRank, a + b + c, d, 3);
      Extend(TextRank, a + b + c + d, e, 4);
    }
    assert ps[0] == a[0];
    TextPiecesTerminated(a, b, c, d, e, fontSize, colour, fontFamily, fontWeight, textAnchor);
  }

  lemma {:induction false} TextPiecesTerminated(a: seq<Piece>, b: seq<Piece>, c: seq<Piece>, d: seq<Piece>, e: seq<Piece>,
                             fontSize: string, colour: Option<string>, fontFamily: Option<string>,
                             fontWeight: Option<string>, textAnchor: Option<string>)
    requires a == [Declaration("font-size", fontSize, true)]
    requires b == DeclarationUnlessBlank("colour", colour, true)
    requires c == DeclarationUnlessBlank("font-family", fontFamily, true)
    requires d == DeclarationUnlessBlank("font-weight", fontWeight, true)
    requires e == DeclarationUnlessBlank("text-anchor", textAnchor, false)
    ensures var ps := a + b + c + d + e;
      forall i :: 0 <= i < |ps| ==> ps[i].Declaration? && (ps[i].terminated <==> ps[i].property != "text-anchor")
  {
    var ps := a + b + c + d + e;
    forall i | 0 <= i < |ps|
      ensures ps[i].Declaration? && (ps[i].terminated <==> ps[i].property != "text-anchor")
    {
      if i < |a + b + c + d| {
        assert ps[i] == (a + b + c + d)[i];
        assert ps[i] in a || ps[i] in b || ps[i] in c || ps[i] in d;
      } else {
        assert ps[i] == e[i - |a + b + c + d|];
      }
    }
  }

  lemma {:induction false} TextPiecesFind(fontSize: string, colour: Option<string>, fontFamily: Option<string>,
                       fontWeight: Option<string>, textAnchor: Option<string>)
    ensures var ps := TextDeclarations(fontSize, colour, fontFamily, fontWeight, textAnchor);
      && Find(ps, "colour") == (if IsNullOrWhiteSpace(colour) then None else Some(colour.value))
      && Find(ps, "font-family") == (if IsNullOrWhiteSpace(fontFamily) then None else Some(fontFamily.value))
      && Find(ps, "font-weight") == (if IsNullOrWhiteSpace(fontWeight) then None else Some(fontWeight.value))
      && Find(ps, "text-anchor") == (if IsNullOrWhiteSpace(textAnchor) then None else Some(textAnchor.value))
  {
    var a := [Declaration("font-size", fontSize, true)];
    var b := DeclarationUnlessBlank("colour", colour, true);
    var c := DeclarationUnlessBlank("font-family", fontFamily, true);
    var d := DeclarationUnlessBlank("font-weight", fontWeight, true);
    var e := DeclarationUnlessBlank("text-anchor", textAnchor, false);
    assert TextDeclarations(fontSize, colour, fontFamily, fontWeight, textAnchor) == a + b + c + d + e;
    FindAll4(a + b, c, d, e, "colour");
    FindAll4(a + b, c, d, e, "font-family");
    FindAll4(a + b, c, d, e, "font-weight");
    FindAll4(a + b, c, d, e, "text-anchor");
    FindAppend(a, b, "colour");
    FindAppend(a, b, "font-family");
    FindAppend(a, b, "font-weight");
    FindAppend(a, b, "text-anchor");
    DeclarationUnlessBlankFind("colour", colour, true, "font-family");
    DeclarationUnlessBlankFind("colour", colour, true, "font-weight");
    DeclarationUnlessBlankFind("colour", colour, true, "text-anchor");
    DeclarationUnlessBlankFind("font-family", fontFamily, true, "colour");
    DeclarationUnlessBlankFind("font-family", fontFamily, true, "font-weight");
    DeclarationUnlessBlankFind("font-family", fontFamily, true, "text-anchor");
    DeclarationUnlessBlankFind("font-weight", fontWeight, true, "colour");
    DeclarationUnlessBlankFind("font-weight", fontWeight, true, "font-family");
    DeclarationUnlessBlankFind("font-weight", fontWeight, true, "text-anchor");
    DeclarationUnlessBlankFind("text-anchor", textAnchor, false, "colour");
    DeclarationUnlessBlankFind("text-anchor", textAnchor, false, "font-family");
    DeclarationUnlessBlankFind("text-anchor", textAnchor, false, "font-weight");
  }

  /** An optional declaration renders as its optional segment. */
  lemma {:induction false} RenderDeclarationUnlessBlank(property: string, param: Option<string>, terminated: bool)
    ensures RenderAll(DeclarationUnlessBlank(property, param, terminated))
         == SegmentUnlessBlank(property, param, if terminated then ";" else "")
  {
    var ps := DeclarationUnlessBlank(property, param, terminated);
    if |ps| == 1 {
      assert ps[1..] == [];
    }
  }

  /** Rendering the stroke pieces yields the stroke segments, in order. */
  lemma {:induction false} RenderStrokeDeclarations(stroke: Option<string>, strokeWidth: string, fill: Option<string>, styles: Option<string>)
    ensures RenderAll(StrokeDeclarations(stroke, strokeWidth, fill, styles))
         == SegmentUnlessBlank("stroke", stroke, ";") + ("stroke-width: " + strokeWidth + ";")
            + SegmentUnlessBlank("fill", fill, ";") + TextUnlessBlank(styles)
  {
    var a := DeclarationUnlessBlank("stroke", stroke, true);
    var b := [Declaration("stroke-width", strokeWidth, true)];
    var c := DeclarationUnlessBlank("fill", fill, true);
    var d := if IsNullOrWhiteSpace(styles) then [] else [Raw(styles.value)];
    RenderDeclarationUnlessBlank("stroke", stroke, true);
    RenderDeclarationUnlessBlank("fill", fill, true);
    RenderAllShort(b);
    RenderAllShort(d);
    assert RenderAll(b) == "stroke-width: " + strokeWidth + ";";
    assert RenderAll(d) == TextUnlessBlank(styles);
    RenderAllAppend(a, b);
    RenderAllAppend(a + b, c);
    RenderAllAppend(a + b + c, d);
    assert StrokeDeclarations(stroke, strokeWidth, fill, styles) == a + b + c + d;
    assert RenderAll(a + b + c + d) == RenderAll(a) + RenderAll(b) + RenderAll(c) + RenderAll(d);
  }

  /** The concatenated line, polyline and circle style is exactly its pieces
      rendered in order. */
  lemma {:induction false} StrokeStyleRendersPieces(stroke: Option<string>, strokeWidth: string, fill: Option<string>, styles: Option<string>)
    ensures StrokeStyle(stroke, strokeWidth, fill, styles) == RenderAll(StrokeDeclarations(stroke, strokeWidth, fill, styles))
  {
    var before := SegmentUnlessBlank("stroke", stroke, ";");
    var width := "stroke-width: " + strokeWidth + ";";
    assert before + "stroke-width: " + strokeWidth + ";" == before + width;
    RenderStrokeDeclarations(stroke, strokeWidth, fill, styles);
  }

  /** The concatenated text style is exactly its declarations rendered in order. */
  lemma {:induction false} TextStyleRendersPieces(fontSize: string, colour: Option<string>, fontFamily: Option<string>,
                               fontWeight: Option<string>, textAnchor: Option<string>)
    ensures TextStyle(fontSize, colour, fontFamily, fontWeight, textAnchor)
         == RenderAll(TextDeclarations(fontSize, colour, fontFamily, fontWeight, textAnchor))
  {
    var a := [Declaration("font-size", fontSize, true)];
    var b := DeclarationUnlessBlank("colour", colour, true);
    var c := DeclarationUnlessBlank("font-family", fontFamily, true);
    var d := DeclarationUnlessBlank("font-weight", fontWeight, true);
    var e := DeclarationUnlessBlank("text-anchor", textAnchor, false);
    RenderAllShort(a);
    assert RenderAll(a) == "font-size: " + fontSize + ";";
    RenderDeclarationUnlessBlank("colour", colour, true);
    RenderDeclarationUnlessBlank("font-family", fontFamily, true);
    RenderDeclarationUnlessBlank("font-weight", fontWeight, true);
    RenderDeclarationUnlessBlank("text-anchor", textAnchor, false);
    RenderAllAppend(a, b);
    RenderAllAppend(a + b, c);
    RenderAllAppend(a + b + c, d);
    RenderAllAppend(a + b + c + d, e);
    assert TextDeclarations(fontSize, colour, fontFamily, fontWeight, textAnchor) == a + b + c + d + e;
  }
}
