/** The four SVG helpers. Each builds one element by a fixed sequence of
    builder statements: required attributes, then id and class when set,
    then the style, with the text helper also setting its inner text and
    an optional title child. The result is the element as built (tag,
    attributes in insertion order, inner content) or the exception a call
    would raise. */
module SvgHtmlHelpers {
  import opened Wrappers
  import opened WhiteSpace
  import opened Host
  import opened TagBuilder
  import opened Styles
  import opened Points

  /** `12f`, the default font size. */
  const DefaultFontSize := Single(0x4140_0000)

  const DefaultFontFamily: Option<string> := Some("Arial")

  /** `1d`, the default stroke width. */
  const DefaultStrokeWidth := Double(0x3FF0_0000_0000_0000)

  /** The statements shared by all four helpers, after their own: id and
      class when set, then the style unless it is blank. */
  function IdClassStyleSteps(env: Env, id: Option<string>, cssClass: Option<string>, style: string): seq<Step>
  {
    [ AddAttributeUnlessBlank("id", id, env.encode),
      AddAttributeUnlessBlank("class", cssClass, env.encode),
      AddAttributeUnlessBlank("style", Some(style), env.encode) ]
  }

  /** The end points of a line, in the order the helper adds them: x1, x2,
      y1, y2. */
  function LineCoordinates(env: Env, x1: Single, y1: Single, x2: Single, y2: Single): seq<Attribute>
  {
    [ Attribute("x1", env.formatSingle(x1)), Attribute("x2", env.formatSingle(x2)),
      Attribute("y1", env.formatSingle(y1)), Attribute("y2", env.formatSingle(y2)) ]
  }

  /** The line's coordinate names are distinct and none is id, class or style. */
  lemma {:induction false} LineCoordinatesPlain(env: Env, x1: Single, y1: Single, x2: Single, y2: Single)
    ensures Plain(LineCoordinates(env, x1, y1, x2, y2))
  {
    assert Names(LineCoordinates(env, x1, y1, x2, y2)) == ["x1", "x2", "y1", "y2"];
  }

  /** `SvgLine`: one unconditional `Add` per coordinate, then the shared tail. */
  function SvgLine(env: Env, x1: Single, y1: Single, x2: Single, y2: Single,
                   id: Option<string> := None, cssClass: Option<string> := None, stroke: Option<string> := None,
                   strokeWidth: Double := DefaultStrokeWidth, fill: Option<string> := None)
    : Result<Element, Error>
  {
    var style := StrokeStyle(stroke, env.formatDouble(strokeWidth), fill, None);
    Run(New("line"), AddEach(LineCoordinates(env, x1, y1, x2, y2)) + IdClassStyleSteps(env, id, cssClass, style))
  }

  /** The contributions of the shared tail: id and class when set, then
      the style, which is never blank here. */
  lemma {:induction false} IdClassStyleContributions(env: Env, id: Option<string>, cssClass: Option<string>, style: string)
    requires !IsBlank(style)
    ensures Contributions(IdClassStyleSteps(env, id, cssClass, style))
         == OptionalAttribute("id", id, env.encode) + OptionalAttribute("class", cssClass, env.encode)
            + [Attribute("style", env.encode(style))]
  {
    var steps := IdClassStyleSteps(env, id, cssClass, style);
    assert steps[1..][1..][1..] == [];
    assert Contribution(steps[2]) == [Attribute("style", env.encode(style))];
    assert Contributions(steps[1..][1..]) == Contribution(steps[2]) + Contributions(steps[1..][1..][1..]);
    assert Contributions(steps[1..]) == Contribution(steps[1]) + Contributions(steps[1..][1..]);
    assert Contributions(steps) == Contribution(steps[0]) + Contributions(steps[1..]);
  }

  /** Required attributes as the helpers add them first: distinct names,
      none of them id, class or style. */
  predicate Plain(required: seq<Attribute>)
  {
    DistinctNames(required) && "id" !in Names(required) && "class" !in Names(required) && "style" !in Names(required)
  }

  /** The attributes every helper ends up with: the required ones, then id
      and class when set, holding the encoded parameter, then the encoded
      style. */
  function LaidOut(required: seq<Attribute>, env: Env, id: Option<string>, cssClass: Option<string>, style: string)
    : seq<Attribute>
  {
    required + OptionalAttribute("id", id, env.encode) + OptionalAttribute("class", cssClass, env.encode)
    + [Attribute("style", env.encode(style))]
  }

  /** Any run on a fresh builder whose statements add some required
      attributes (distinct names other than id, class and style), then id and
      class when set, then the style, builds without an exception and lays
      its attributes out as `Layout` says. */
  lemma {:induction false} BuildsWithLayout(e: Element, steps: seq<Step>, required: seq<Attribute>, env: Env,
                                            id: Option<string>, cssClass: Option<string>, style: string)
    requires e.attributes == []
    requires Plain(required)
    requires Contributions(steps) == LaidOut(required, env, id, cssClass, style)
    ensures Run(e, steps) == Success(Element(e.tag, LaidOut(required, env, id, cssClass, style), InnerAfter(e.inner, steps)))
    ensures Layout(LaidOut(required, env, id, cssClass, style), required, id, cssClass, env.encode(style), env.encode)
  {
    IdClassStyleTail(required, id, cssClass, env.encode(style), env.encode);
    assert e.attributes + Contributions(steps) == Contributions(steps);
    RunSucceedsIffDistinct(e, steps);
  }

  /** The shape of the line, polyline and circle helpers: statements that
      only add the required attributes, then the shared tail, on a fresh
      builder. */
  lemma {:induction false} RequiredThenIdClassStyle(e: Element, head: seq<Step>, required: seq<Attribute>, env: Env,
                                                    id: Option<string>, cssClass: Option<string>, style: string)
    requires e.attributes == [] && e.inner == []
    requires AttributeSteps(head)
    requires Contributions(head) == required
    requires Plain(required)
    requires !IsBlank(style)
    ensures Run(e, head + IdClassStyleSteps(env, id, cssClass, style))
         == Success(Element(e.tag, LaidOut(required, env, id, cssClass, style), []))
    ensures Layout(LaidOut(required, env, id, cssClass, style), required, id, cssClass, env.encode(style), env.encode)
  {
    var tail := IdClassStyleSteps(env, id, cssClass, style);
    var steps := head + tail;
    HeadThenIdClassStyleContributions(head, env, id, cssClass, style);
    assert InnerAfter([], steps) == [] by {
      HeadThenIdClassStyleTouchAttributesOnly(head, env, id, cssClass, style);
      InnerAfterAttributeSteps([], steps);
    }
    BuildsWithLayout(e, steps, required, env, id, cssClass, style);
  }

  /** Whatever the head adds, followed by id and class when set and the style. */
  lemma {:induction false} HeadThenIdClassStyleContributions(head: seq<Step>, env: Env,
                                                             id: Option<string>, cssClass: Option<string>, style: string)
    requires !IsBlank(style)
    ensures Contributions(head + IdClassStyleSteps(env, id, cssClass, style))
         == LaidOut(Contributions(head), env, id, cssClass, style)
  {
    var tail := IdClassStyleSteps(env, id, cssClass, style);
    var o1 := OptionalAttribute("id", id, env.encode);
    var o2 := OptionalAttribute("class", cssClass, env.encode);
    var s := [Attribute("style", env.encode(style))];
    assert Contributions(head + tail) == Contributions(head) + (o1 + o2 + s) by {
      IdClassStyleContributions(env, id, cssClass, style);
      ContributionsAppend(head, tail);
    }
    assert Contributions(head) + (o1 + o2 + s) == LaidOut(Contributions(head), env, id, cssClass, style);
  }

  lemma {:induction false} HeadThenIdClassStyleTouchAttributesOnly(head: seq<Step>, env: Env,
                                                                    id: Option<string>, cssClass: Option<string>, style: string)
    requires AttributeSteps(head)
    ensures AttributeSteps(head + IdClassStyleSteps(env, id, cssClass, style))
  {
    var tail := IdClassStyleSteps(env, id, cssClass, style);
    var steps := head + tail;
    forall i | 0 <= i < |steps| ensures AttributeStep(steps[i]) {
      if i >= |head| {
        assert steps[i] == tail[i - |head|];
      } else {
        assert steps[i] == head[i];
      }
    }
  }

  /** The line and circle shape: one unconditional `Add` per required
      attribute, then the shared tail. */
  lemma {:induction false} AddEachThenIdClassStyle(e: Element, required: seq<Attribute>, env: Env,
                                                   id: Option<string>, cssClass: Option<string>, style: string)
    requires e.attributes == [] && e.inner == []
    requires Plain(required)
    requires !IsBlank(style)
    ensures Run(e, AddEach(required) + IdClassStyleSteps(env, id, cssClass, style))
         == Success(Element(e.tag, LaidOut(required, env, id, cssClass, style), []))
    ensures Layout(LaidOut(required, env, id, cssClass, style), required, id, cssClass, env.encode(style), env.encode)
  {
    ContributionsAddEach(required);
    RequiredThenIdClassStyle(e, AddEach(required), required, env, id, cssClass, style);
  }

  /** No `Add` in `SvgLine` meets a key already present and the style guard
      always passes, so the line is built without an exception. It carries
      x1, x2, y1, y2 with the formatted coordinates first, then id and class
      exactly when set, holding the encoded parameter, then the encoded
      style; all names distinct; no inner content. */
  lemma {:induction false} SvgLineBuilds(env: Env, x1: Single, y1: Single, x2: Single, y2: Single,
                      id: Option<string>, cssClass: Option<string>, stroke: Option<string>,
                      strokeWidth: Double, fill: Option<string>)
    ensures var r := SvgLine(env, x1, y1, x2, y2, id, cssClass, stroke, strokeWidth, fill);
      && r.Success?
      && r.value.tag == "line" && r.value.inner == []
      && Layout(r.value.attributes,
                [Attribute("x1", env.formatSingle(x1)), Attribute("x2", env.formatSingle(x2)),
                 Attribute("y1", env.formatSingle(y1)), Attribute("y2", env.formatSingle(y2))],
                id, cssClass, env.encode(StrokeStyle(stroke, env.formatDouble(strokeWidth), fill, None)), env.encode)
  {
    var style := StrokeStyle(stroke, env.formatDouble(strokeWidth), fill, None);
    var required := LineCoordinates(env, x1, y1, x2, y2);
    LineCoordinatesPlain(env, x1, y1, x2, y2);
    StrokeStyleNeverBlank(stroke, env.formatDouble(strokeWidth), fill, None);
    AddEachThenIdClassStyle(New("line"), required, env, id, cssClass, style);
  }

  /** The centre and radius of a circle, in the order the helper adds them. */
  function CircleGeometry(env: Env, x: Single, y: Single, radius: Single): seq<Attribute>
  {
    [ Attribute("cx", env.formatSingle(x)), Attribute("cy", env.formatSingle(y)),
      Attribute("r", env.formatSingle(radius)) ]
  }

  /** The circle's geometry names are distinct and none is id, class or style. */
  lemma {:induction false} CircleGeometryPlain(env: Env, x: Single, y: Single, radius: Single)
    ensures Plain(CircleGeometry(env, x, y, radius))
  {
    assert Names(CircleGeometry(env, x, y, radius)) == ["cx", "cy", "r"];
  }

  /** `SvgCircle`: one unconditional `Add` per geometry attribute, then the
      shared tail. */
  function SvgCircle(env: Env, x: Single, y: Single, radius: Single,
                     id: Option<string> := None, cssClass: Option<string> := None, stroke: Option<string> := None,
                     strokeWidth: Double := DefaultStrokeWidth, fill: Option<string> := None,
                     styles: Option<string> := None)
    : Result<Element, Error>
  {
    var style := StrokeStyle(stroke, env.formatDouble(strokeWidth), fill, styles);
    Run(New("circle"), AddEach(CircleGeometry(env, x, y, radius)) + IdClassStyleSteps(env, id, cssClass, style))
  }

  /** The circle is built without an exception. It carries cx, cy, r with
      the formatted centre and radius first, then id and class exactly when
      set, holding the encoded parameter, then the encoded style (which now
      also takes the free-form `styles`); all names distinct; no inner
      content. */
  lemma {:induction false} SvgCircleBuilds(env: Env, x: Single, y: Single, radius: Single,
                        id: Option<string>, cssClass: Option<string>, stroke: Option<string>,
                        strokeWidth: Double, fill: Option<string>, styles: Option<string>)
    ensures var r := SvgCircle(env, x, y, radius, id, cssClass, stroke, strokeWidth, fill, styles);
      && r.Success?
      && r.value.tag == "circle" && r.value.inner == []
      && Layout(r.value.attributes,
                [Attribute("cx", env.formatSingle(x)), Attribute("cy", env.formatSingle(y)),
                 Attribute("r", env.formatSingle(radius))],
                id, cssClass, env.encode(StrokeStyle(stroke, env.formatDouble(strokeWidth), fill, styles)), env.encode)
  {
    var style := StrokeStyle(stroke, env.formatDouble(strokeWidth), fill, styles);
    var required := CircleGeometry(env, x, y, radius);
    CircleGeometryPlain(env, x, y, radius);
    StrokeStyleNeverBlank(stroke, env.formatDouble(strokeWidth), fill, styles);
    AddEachThenIdClassStyle(New("circle"), required, env, id, cssClass, style);
  }

  /** The points string goes into the attribute as it is, not encoded. */
  function Verbatim(s: string): string
  {
    s
  }

  /** `SvgPolyLine`: a null array makes `Aggregate` throw before any
      attribute is added. */
  function SvgPolyLine(env: Env, points: Option<seq<Point>>,
                       id: Option<string> := None, cssClass: Option<string> := None, stroke: Option<string> := None,
                       strokeWidth: Double := DefaultStrokeWidth, fill: Option<string> := None,
                       styles: Option<string> := None)
    : Result<Element, Error>
  {
    match points
    case None => Failure(ArgumentNull("source"))
    case Some(ps) =>
      var style := StrokeStyle(stroke, env.formatDouble(strokeWidth), fill, styles);
      Run(New("polyline"),
          [PointsStep(env, ps)] + IdClassStyleSteps(env, id, cssClass, style))
  }

  /** The points attribute when the array holds at least one vertex. */
  function PointsAttribute(env: Env, ps: seq<Point>): seq<Attribute>
  {
    if |ps| == 0 then [] else [Attribute("points", PointValues(env.formatSingle, ps))]
  }

  /** The statement that adds the points attribute unless the string is blank. */
  function PointsStep(env: Env, ps: seq<Point>): Step
  {
    AddAttributeUnlessBlank("points", Some(PointValues(env.formatSingle, ps)), Verbatim)
  }

  /** The points statement adds the points attribute exactly when there is
      a vertex; no other attribute is involved. */
  lemma {:induction false} PointsStepAdds(env: Env, ps: seq<Point>)
    ensures Contributions([PointsStep(env, ps)]) == PointsAttribute(env, ps)
    ensures AttributeSteps([PointsStep(env, ps)])
    ensures Plain(PointsAttribute(env, ps))
  {
    assert [PointsStep(env, ps)][1..] == [];
    assert Names(PointsAttribute(env, ps)) == if |ps| == 0 then [] else ["points"];
  }

  /** In a layout led by the points attribute, that attribute is present
      exactly when there is a vertex, and then holds the folded vertices. */
  lemma {:induction false} PointsFirst(attrs: seq<Attribute>, env: Env, ps: seq<Point>,
                                       id: Option<string>, cssClass: Option<string>, style: string)
    requires Layout(attrs, PointsAttribute(env, ps), id, cssClass, style, env.encode)
    ensures "points" in Names(attrs) <==> |ps| > 0
    ensures |ps| > 0 ==> Lookup(attrs, "points") == Some(PointValues(env.formatSingle, ps))
  {
    assert Names(PointsAttribute(env, ps)) == if |ps| == 0 then [] else ["points"];
    if |ps| > 0 {
      assert attrs[0] == PointsAttribute(env, ps)[0] == Attribute("points", PointValues(env.formatSingle, ps));
    }
  }

  /** The polyline fails exactly when the array is null, with the
      `ArgumentNullException` of `Aggregate`. Otherwise it is built: the
      points attribute comes first and is present exactly when there is at
      least one vertex, holding the folded vertices unencoded; then id and
      class exactly when set, then the encoded style; all names distinct; no
      inner content. */
  lemma {:induction false} SvgPolyLineBuilds(env: Env, points: Option<seq<Point>>,
                          id: Option<string>, cssClass: Option<string>, stroke: Option<string>,
                          strokeWidth: Double, fill: Option<string>, styles: Option<string>)
    ensures var r := SvgPolyLine(env, points, id, cssClass, stroke, strokeWidth, fill, styles);
      && (r.Success? <==> points.Some?)
      && (points.None? ==> r.error == ArgumentNull("source"))
      && (points.Some? ==>
            && r.value.tag == "polyline" && r.value.inner == []
            && ("points" in Names(r.value.attributes) <==> |points.value| > 0)
            && (|points.value| > 0 ==>
                  Lookup(r.value.attributes, "points") == Some(PointValues(env.formatSingle, points.value)))
            && Layout(r.value.attributes, PointsAttribute(env, points.value), id, cssClass,
                      env.encode(StrokeStyle(stroke, env.formatDouble(strokeWidth), fill, styles)), env.encode))
  {
    if points.Some? {
      var ps := points.value;
      var style := StrokeStyle(stroke, env.formatDouble(strokeWidth), fill, styles);
      var required := PointsAttribute(env, ps);
      var attrs := LaidOut(required, env, id, cssClass, style);
      PointsStepAdds(env, ps);
      StrokeStyleNeverBlank(stroke, env.formatDouble(strokeWidth), fill, styles);
      RequiredThenIdClassStyle(New("polyline"), [PointsStep(env, ps)], required, env, id, cssClass, style);
      PointsFirst(attrs, env, ps, id, cssClass, env.encode(style));
    }
  }

  /** The head of the text helper: x and y, then the inner text. */
  function TextHead(env: Env, x: Single, y: Single, text: Option<string>): seq<Step>
  {
    [ AddAttribute("x", env.formatSingle(x)),
      AddAttribute("y", env.formatSingle(y)),
      SetInnerText(text) ]
  }

  /** The head adds x and y, holding the formatted coordinates, and leaves
      the text as the only inner content. */
  lemma {:induction false} TextHeadEffect(env: Env, x: Single, y: Single, text: Option<string>)
    ensures Contributions(TextHead(env, x, y, text))
         == [Attribute("x", env.formatSingle(x)), Attribute("y", env.formatSingle(y))]
    ensures InnerAfter([], TextHead(env, x, y, text)) == [InnerText(text)]
  {
    var head := TextHead(env, x, y, text);
    assert head[1..][1..][1..] == [];
    assert Contributions(head[1..][1..]) == [];
    assert Contributions(head[1..]) == [Attribute("y", env.formatSingle(y))];
    assert InnerAfter([], head) == InnerAfter([], head[1..]);
    assert InnerAfter([], head[1..]) == InnerAfter([], head[1..][1..]);
    assert InnerAfter([], head[1..][1..]) == InnerAfter([InnerText(text)], head[1..][1..][1..]);
  }

  /** The tail of the text helper: id when set, the title child when set,
      class when set, then the style unless it is blank. */
  function TextTail(env: Env, id: Option<string>, title: Option<string>, cssClass: Option<string>, style: string): seq<Step>
  {
    [ AddAttributeUnlessBlank("id", id, env.encode),
      AppendChildUnlessBlank("title", title, env.encode),
      AddAttributeUnlessBlank("class", cssClass, env.encode),
      AddAttributeUnlessBlank("style", Some(style), env.encode) ]
  }

  /** `SvgText`. */
  function SvgText(env: Env, x: Single, y: Single, text: Option<string>,
                   id: Option<string> := None, cssClass: Option<string> := None,
                   fontSize: Single := DefaultFontSize, colour: Option<string> := None,
                   fontFamily: Option<string> := DefaultFontFamily, fontWeight: Option<string> := None,
                   textAnchor: Option<string> := None, title: Option<string> := None)
    : Result<Element, Error>
  {
    var style := TextStyle(env.formatSingle(fontSize), colour, fontFamily, fontWeight, textAnchor);
    Run(New("text"), TextHead(env, x, y, text) + TextTail(env, id, title, cssClass, style))
  }

  /** The title statement adds no attribute: the tail contributes id and
      class when set, then the style. */
  lemma {:induction false} TextTailContributions(env: Env, id: Option<string>, title: Option<string>,
                                                 cssClass: Option<string>, style: string)
    requires !IsBlank(style)
    ensures Contributions(TextTail(env, id, title, cssClass, style))
         == OptionalAttribute("id", id, env.encode) + OptionalAttribute("class", cssClass, env.encode)
            + [Attribute("style", env.encode(style))]
  {
    var steps := TextTail(env, id, title, cssClass, style);
    assert steps[1..][1..][1..][1..] == [];
    assert Contributions(steps[1..][1..][1..]) == Contribution(steps[3]) + Contributions(steps[1..][1..][1..][1..]);
    assert Contributions(steps[1..][1..]) == Contribution(steps[2]) + Contributions(steps[1..][1..][1..]);
    assert Contributions(steps[1..]) == Contribution(steps[1]) + Contributions(steps[1..][1..]);
    assert Contributions(steps) == Contribution(steps[0]) + Contributions(steps[1..]);
  }

  /** The tail appends the title child, holding the encoded title, exactly
      when the title is set, and otherwise leaves the inner content alone. */
  lemma {:induction false} TextTailInner(env: Env, inner: seq<InnerPart>, id: Option<string>, title: Option<string>,
                                         cssClass: Option<string>, style: string)
    ensures InnerAfter(inner, TextTail(env, id, title, cssClass, style))
         == if IsNullOrWhiteSpace(title) then inner else inner + [ChildElement("title", env.encode(title.value))]
  {
    var steps := TextTail(env, id, title, cssClass, style);
    var inner' := if IsNullOrWhiteSpace(title) then inner else inner + [ChildElement("title", env.encode(title.value))];
    assert steps[1..][1..][1..][1..] == [];
    assert InnerAfter(inner', steps[1..][1..]) == inner' by {
      InnerAfterAttributeSteps(inner', steps[1..][1..]);
    }
    assert InnerAfter(inner, steps[1..]) == InnerAfter(inner', steps[1..][1..]);
  }

  /** No `Add` in `SvgText` meets a key already present and the style guard
      always passes, so the text element is built without an exception. It
      carries x and y with the formatted coordinates first, then id and
      class exactly when set, holding the encoded parameter, then the
      encoded style; all names distinct. Its inner content is the text,
      followed by a title child holding the encoded title exactly when the
      title is set. */
  lemma {:induction false} SvgTextBuilds(env: Env, x: Single, y: Single, text: Option<string>,
                      id: Option<string>, cssClass: Option<string>, fontSize: Single, colour: Option<string>,
                      fontFamily: Option<string>, fontWeight: Option<string>, textAnchor: Option<string>,
                      title: Option<string>)
    ensures var r := SvgText(env, x, y, text, id, cssClass, fontSize, colour, fontFamily, fontWeight, textAnchor, title);
      && r.Success?
      && r.value.tag == "text"
      && |r.value.inner| == (if IsNullOrWhiteSpace(title) then 1 else 2)
      && r.value.inner[0] == InnerText(text)
      && (!IsNullOrWhiteSpace(title) ==> r.value.inner[1] == ChildElement("title", env.encode(title.value)))
      && Layout(r.value.attributes,
                [Attribute("x", env.formatSingle(x)), Attribute("y", env.formatSingle(y))],
                id, cssClass,
                env.encode(TextStyle(env.formatSingle(fontSize), colour, fontFamily, fontWeight, textAnchor)),
                env.encode)
  {
    var style := TextStyle(env.formatSingle(fontSize), colour, fontFamily, fontWeight, textAnchor);
    TextStyleNeverBlank(env.formatSingle(fontSize), colour, fontFamily, fontWeight, textAnchor);
    TextStepsBuild(env, x, y, text, id, cssClass, title, style);
  }

  /** The text helper's statements on a fresh builder, for any non-blank style. */
  lemma {:induction false} TextStepsBuild(env: Env, x: Single, y: Single, text: Option<string>,
                                          id: Option<string>, cssClass: Option<string>, title: Option<string>,
                                          style: string)
    requires !IsBlank(style)
    ensures var required := [Attribute("x", env.formatSingle(x)), Attribute("y", env.formatSingle(y))];
      && Run(New("text"), TextHead(env, x, y, text) + TextTail(env, id, title, cssClass, style))
         == Success(Element("text", LaidOut(required, env, id, cssClass, style),
                            if IsNullOrWhiteSpace(title) then [InnerText(text)]
                            else [InnerText(text), ChildElement("title", env.encode(title.value))]))
      && Layout(LaidOut(required, env, id, cssClass, style), required, id, cssClass, env.encode(style), env.encode)
  {
    var required := [Attribute("x", env.formatSingle(x)), Attribute("y", env.formatSingle(y))];
    var steps := TextHead(env, x, y, text) + TextTail(env, id, title, cssClass, style);
    TextStepsEffect(env, x, y, text, id, cssClass, title, style);
    assert Plain(required) by {
      assert Names(required) == ["x", "y"];
    }
    BuildsWithLayout(New("text"), steps, required, env, id, cssClass, style);
  }

  /** The statements of the text helper add x and y, id and class when set
      and the style; they leave the text followed by the title child when
      set as the inner content. */
  lemma {:induction false} TextStepsEffect(env: Env, x: Single, y: Single, text: Option<string>,
                                           id: Option<string>, cssClass: Option<string>, title: Option<string>,
                                           style: string)
    requires !IsBlank(style)
    ensures var steps := TextHead(env, x, y, text) + TextTail(env, id, title, cssClass, style);
      && Contributions(steps)
         == LaidOut([Attribute("x", env.formatSingle(x)), Attribute("y", env.formatSingle(y))], env, id, cssClass, style)
      && InnerAfter([], steps)
         == if IsNullOrWhiteSpace(title) then [InnerText(text)]
            else [InnerText(text), ChildElement("title", env.encode(title.value))]
  {
    var head := TextHead(env, x, y, text);
    var tail := TextTail(env, id, title, cssClass, style);
    assert InnerAfter([], head + tail)
        == if IsNullOrWhiteSpace(title) then [InnerText(text)]
           else [InnerText(text), ChildElement("title", env.encode(title.value))] by {
      TextHeadEffect(env, x, y, text);
      InnerAfterAppend([], head, tail);
      TextTailInner(env, [InnerText(text)], id, title, cssClass, style);
    }
    assert Contributions(head + tail)
        == LaidOut([Attribute("x", env.formatSingle(x)), Attribute("y", env.formatSingle(y))], env, id, cssClass, style) by {
      TextHeadEffect(env, x, y, text);
      TextTailContributions(env, id, title, cssClass, style);
      ContributionsAppend(head, tail);
    }
  }
}
