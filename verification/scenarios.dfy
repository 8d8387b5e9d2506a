/** Worked calls of the helpers with concrete arguments, written out as the
    element each one builds. The formatter is only pinned down on the
    numbers each call uses, as the invariant culture would print them; the
    encoder stays arbitrary. */
module Scenarios {
  import opened Wrappers
  import opened WhiteSpace
  import opened Styles
  import opened Host
  import opened TagBuilder
  import opened Points
  import opened SvgHtmlHelpers

  /** `10f`, `20f`, `5f`, `1f` .. `4f` as binary32 bit patterns. */
  const Ten := Single(0x4120_0000)
  const Twenty := Single(0x41A0_0000)
  const Five := Single(0x40A0_0000)
  const One := Single(0x3F80_0000)
  const Two := Single(0x4000_0000)
  const Three := Single(0x4040_0000)
  const Four := Single(0x4080_0000)

  /** `SvgCircle(10, 20, 5, fill: "red")`: the centre and radius, then a
      style of the default stroke width and the fill; no stroke, id or class. */
  lemma {:induction false} CircleWithFill(env: Env)
    requires env.formatSingle(Ten) == "10" && env.formatSingle(Twenty) == "20" && env.formatSingle(Five) == "5"
    requires env.formatDouble(DefaultStrokeWidth) == "1"
    ensures SvgCircle(env, Ten, Twenty, Five, fill := Some("red"))
         == Success(Element("circle",
                            [ Attribute("cx", "10"), Attribute("cy", "20"), Attribute("r", "5"),
                              Attribute("style", env.encode("stroke-width: 1;fill: red;")) ],
                            []))
  {
    var style := StrokeStyle(None, "1", Some("red"), None);
    var required := CircleGeometry(env, Ten, Twenty, Five);
    assert SvgCircle(env, Ten, Twenty, Five, fill := Some("red"))
        == Run(New("circle"), AddEach(required) + IdClassStyleSteps(env, None, None, style));
    assert Run(New("circle"), AddEach(required) + IdClassStyleSteps(env, None, None, style))
        == Success(Element("circle", LaidOut(required, env, None, None, style), [])) by {
      CircleGeometryPlain(env, Ten, Twenty, Five);
      StrokeStyleNeverBlank(None, "1", Some("red"), None);
      AddEachThenIdClassStyle(New("circle"), required, env, None, None, style);
    }
    assert LaidOut(required, env, None, None, style)
        == [ Attribute("cx", "10"), Attribute("cy", "20"), Attribute("r", "5"),
             Attribute("style", env.encode("stroke-width: 1;fill: red;")) ] by {
      FillStyle();
      assert OptionalAttribute("id", None, env.encode) == [];
      assert OptionalAttribute("class", None, env.encode) == [];
    }
  }

  /** `SvgPolyLine([(1, 2), (3, 4)])`: the folded vertices, unencoded, then
      the default style. */
  lemma {:induction false} PolyLineOfTwoPoints(env: Env)
    requires env.formatSingle(One) == "1" && env.formatSingle(Two) == "2"
    requires env.formatSingle(Three) == "3" && env.formatSingle(Four) == "4"
    requires env.formatDouble(DefaultStrokeWidth) == "1"
    ensures SvgPolyLine(env, Some([Point(One, Two), Point(Three, Four)]))
         == Success(Element("polyline",
                            [ Attribute("points", "1, 2 3, 4 "),
                              Attribute("style", env.encode("stroke-width: 1;")) ],
                            []))
  {
    var ps := [Point(One, Two), Point(Three, Four)];
    TwoPointValues(env);
    var style := StrokeStyle(None, "1", None, None);
    DefaultStyle();
    PointsStepAdds(env, ps);
    StrokeStyleNeverBlank(None, "1", None, None);
    RequiredThenIdClassStyle(New("polyline"), [PointsStep(env, ps)], PointsAttribute(env, ps), env, None, None, style);
    assert LaidOut(PointsAttribute(env, ps), env, None, None, style)
        == [ Attribute("points", "1, 2 3, 4 "), Attribute("style", env.encode("stroke-width: 1;")) ];
  }

  /** `SvgPolyLine` of an empty array: no points attribute, only the style. */
  lemma {:induction false} PolyLineOfNoPoints(env: Env)
    requires env.formatDouble(DefaultStrokeWidth) == "1"
    ensures SvgPolyLine(env, Some([]))
         == Success(Element("polyline", [Attribute("style", env.encode("stroke-width: 1;"))], []))
  {
    var style := StrokeStyle(None, "1", None, None);
    DefaultStyle();
    PointsStepAdds(env, []);
    StrokeStyleNeverBlank(None, "1", None, None);
    RequiredThenIdClassStyle(New("polyline"), [PointsStep(env, [])], PointsAttribute(env, []), env, None, None, style);
    assert LaidOut(PointsAttribute(env, []), env, None, None, style)
        == [Attribute("style", env.encode("stroke-width: 1;"))];
  }

  /** `SvgPolyLine` of a null array throws before anything is built. */
  lemma {:induction false} PolyLineOfNull(env: Env, id: Option<string>, cssClass: Option<string>, stroke: Option<string>,
                                          strokeWidth: Double, fill: Option<string>, styles: Option<string>)
    ensures SvgPolyLine(env, None, id, cssClass, stroke, strokeWidth, fill, styles) == Failure(ArgumentNull("source"))
  {
  }

  /** `SvgText(10, 20, "Hi", textAnchor: "middle", title: "tip")` with the
      default font size and family: the text anchor closes the style without
      a `;`, and the title follows the text. */
  lemma {:induction false} TextWithTitle(env: Env)
    requires env.formatSingle(Ten) == "10" && env.formatSingle(Twenty) == "20"
    requires env.formatSingle(DefaultFontSize) == "12"
    ensures SvgText(env, Ten, Twenty, Some("Hi"), textAnchor := Some("middle"), title := Some("tip"))
         == Success(Element("text",
                            [ Attribute("x", "10"), Attribute("y", "20"),
                              Attribute("style", env.encode("font-size: 12;" + "font-family: Arial;" + "text-anchor: middle")) ],
                            [ InnerText(Some("Hi")), ChildElement("title", env.encode("tip")) ]))
  {
    var style := TextStyle("12", None, DefaultFontFamily, None, Some("middle"));
    AnchoredTextStyle();
    TextStyleNeverBlank("12", None, DefaultFontFamily, None, Some("middle"));
    assert !IsNullOrWhiteSpace(Some("tip")) by { assert !IsWhiteSpace("tip"[0]); }
    TitledText(env, Ten, Twenty, Some("Hi"), Some("tip"), style);
  }

  /** A text element with a title and neither id nor class, for any style. */
  lemma {:induction false} TitledText(env: Env, x: Single, y: Single, text: Option<string>, title: Option<string>,
                                      style: string)
    requires !IsBlank(style) && !IsNullOrWhiteSpace(title)
    ensures Run(New("text"), TextHead(env, x, y, text) + TextTail(env, None, title, None, style))
         == Success(Element("text",
                            [ Attribute("x", env.formatSingle(x)), Attribute("y", env.formatSingle(y)),
                              Attribute("style", env.encode(style)) ],
                            [ InnerText(text), ChildElement("title", env.encode(title.value)) ]))
  {
    var required := [Attribute("x", env.formatSingle(x)), Attribute("y", env.formatSingle(y))];
    var steps := TextHead(env, x, y, text) + TextTail(env, None, title, None, style);
    var inner := [InnerText(text), ChildElement("title", env.encode(title.value))];
    assert Run(New("text"), steps) == Success(Element("text", LaidOut(required, env, None, None, style), inner)) by {
      TextStepsEffect(env, x, y, text, None, None, title, style);
      assert Plain(required) by {
        assert Names(required) == ["x", "y"];
      }
      BuildsWithLayout(New("text"), steps, required, env, None, None, style);
    }
    assert LaidOut(required, env, None, None, style)
        == [ Attribute("x", env.formatSingle(x)), Attribute("y", env.formatSingle(y)),
             Attribute("style", env.encode(style)) ] by {
      assert OptionalAttribute("id", None, env.encode) == [];
      assert OptionalAttribute("class", None, env.encode) == [];
    }
  }

  lemma {:induction false} FillStyle()
    ensures StrokeStyle(None, "1", Some("red"), None) == "stroke-width: 1;fill: red;"
  {
    assert !IsNullOrWhiteSpace(Some("red")) by { assert !IsWhiteSpace("red"[0]); }
  }

  lemma {:induction false} DefaultStyle()
    ensures StrokeStyle(None, "1", None, None) == "stroke-width: 1;"
  {
  }

  lemma {:induction false} AnchoredTextStyle()
    ensures TextStyle("12", None, DefaultFontFamily, None, Some("middle"))
         == "font-size: 12;" + "font-family: Arial;" + "text-anchor: middle"
  {
    var fontSize := "font-size: " + "12" + ";";
    var fontFamily := SegmentUnlessBlank("font-family", Some("Arial"), ";");
    var textAnchor := SegmentUnlessBlank("text-anchor", Some("middle"), "");
    assert fontSize == "font-size: 12;";
    assert fontFamily == "font-family: Arial;" by {
      assert !IsWhiteSpace("Arial"[0]);
    }
    assert textAnchor == "text-anchor: middle" by {
      assert !IsWhiteSpace("middle"[0]);
    }
    assert TextStyle("12", None, DefaultFontFamily, None, Some("middle"))
        == fontSize + "" + fontFamily + "" + textAnchor;
    assert fontSize + "" + fontFamily + "" + textAnchor == fontSize + fontFamily + textAnchor;
  }

  lemma {:induction false} TwoPointValues(env: Env)
    requires env.formatSingle(One) == "1" && env.formatSingle(Two) == "2"
    requires env.formatSingle(Three) == "3" && env.formatSingle(Four) == "4"
    ensures PointValues(env.formatSingle, [Point(One, Two), Point(Three, Four)]) == "1, 2 3, 4 "
  {
    var ps := [Point(One, Two), Point(Three, Four)];
    assert ps[..1] == [Point(One, Two)];
    assert ps[..1][..0] == [];
    assert PointValues(env.formatSingle, ps[..1]) == "1, 2 ";
  }
}
