/** The part of ASP.NET MVC's `TagBuilder` the helpers rely on: a tag name,
    an attribute dictionary that refuses a second entry with the same key,
    and inner content. The attribute list records the order of the `Add`
    calls; the builder's own storage order and its rendering are not
    modelled. */
module TagBuilder {
  import opened Wrappers
  import opened WhiteSpace

  datatype Attribute = Attribute(name: string, value: string)

  /** One piece of an element's inner content: text set with `SetInnerText`,
      which HTML-encodes it into the inner HTML at once (that encoding is not
      modelled; null leaves it empty), or a child element appended as raw
      markup. */
  datatype InnerPart =
    | InnerText(text: Option<string>)
    | ChildElement(tag: string, innerHtml: string)

  datatype Element = Element(tag: string, attributes: seq<Attribute>, inner: seq<InnerPart>)

  /** Exceptions the modelled calls can raise. */
  datatype Error =
    | DuplicateKey(key: string)     // ArgumentException from Dictionary.Add
    | ArgumentNull(param: string)   // ArgumentNullException

  /** The attribute names, in insertion order. */
  function Names(attrs: seq<Attribute>): (ns: seq<string>)
    ensures |ns| == |attrs|
    ensures forall i :: 0 <= i < |attrs| ==> ns[i] == attrs[i].name
  {
    if |attrs| == 0 then [] else [attrs[0].name] + Names(attrs[1..])
  }

  /** No attribute name occurs twice. */
  predicate DistinctNames(attrs: seq<Attribute>)
  {
    forall i, j :: 0 <= i < j < |attrs| ==> attrs[i].name != attrs[j].name
  }

  /** The value stored under `name`, if any (the first one, should there be several). */
  function Lookup(attrs: seq<Attribute>, name: string): (v: Option<string>)
    ensures v.None? <==> name !in Names(attrs)
    ensures v.Some? ==> Attribute(name, v.value) in attrs
  {
    if |attrs| == 0 then None
    else if attrs[0].name == name then Some(attrs[0].value)
    else Lookup(attrs[1..], name)
  }

  /** `new TagBuilder(tag)`: no attributes, no content. */
  function New(tag: string): Element
  {
    Element(tag, [], [])
  }

  /** `Attributes.Add(name, value)`: throws when the key is already present,
      otherwise records the new entry and leaves everything else as it was. */
  function Add(e: Element, name: string, value: string): Result<Element, Error>
  {
    if name in Names(e.attributes) then Failure(DuplicateKey(name))
    else Success(e.(attributes := e.attributes + [Attribute(name, value)]))
  }

  /** One statement of a helper's body, as it acts on the builder. */
  datatype Step =
      /** `Attributes.Add(name, value)` */
    | AddAttribute(name: string, value: string)
      /** `if (!IsNullOrWhiteSpace(param)) Attributes.Add(name, encode(param))` */
    | AddAttributeUnlessBlank(name: string, param: Option<string>, encode: string -> string)
      /** `SetInnerText(text)` */
    | SetInnerText(text: Option<string>)
      /** `if (!IsNullOrWhiteSpace(param)) InnerHtml += <tag>encode(param)</tag>` */
    | AppendChildUnlessBlank(tag: string, param: Option<string>, encode: string -> string)

  /** Executes one statement; only an `Add` can throw. */
  function Exec(e: Element, s: Step): Result<Element, Error>
  {
    match s
    case AddAttribute(name, value) => Add(e, name, value)
    case AddAttributeUnlessBlank(name, param, encode) =>
      if !IsNullOrWhiteSpace(param) then Add(e, name, encode(param.value)) else Success(e)
    case SetInnerText(text) => Success(e.(inner := [InnerText(text)]))
    case AppendChildUnlessBlank(tag, param, encode) =>
      if !IsNullOrWhiteSpace(param) then Success(e.(inner := e.inner + [ChildElement(tag, encode(param.value))]))
      else Success(e)
  }

  /** Executes the statements in order, stopping at the first exception. */
  function Run(e: Element, steps: seq<Step>): Result<Element, Error>
    decreases |steps|
  {
    if |steps| == 0 then Success(e)
    else
      match Exec(e, steps[0])
      case Failure(err) => Failure(err)
      case Success(e') => Run(e', steps[1..])
  }

  /** The attribute a statement adds, if any. */
  function Contribution(s: Step): seq<Attribute>
  {
    match s
    case AddAttribute(name, value) => [Attribute(name, value)]
    case AddAttributeUnlessBlank(name, param, encode) =>
      if IsNullOrWhiteSpace(param) then [] else [Attribute(name, encode(param.value))]
    case _ => []
  }

  /** The attributes the statements add, in order. */
  function Contributions(steps: seq<Step>): seq<Attribute>
  {
    if |steps| == 0 then [] else Contribution(steps[0]) + Contributions(steps[1..])
  }

  /** The inner content after the statements, starting from `inner`. */
  function InnerAfter(inner: seq<InnerPart>, steps: seq<Step>): seq<InnerPart>
    decreases |steps|
  {
    if |steps| == 0 then inner
    else
      var inner' :=
        match steps[0]
        case SetInnerText(text) => [InnerText(text)]
        case AppendChildUnlessBlank(tag, param, encode) =>
          if IsNullOrWhiteSpace(param) then inner else inner + [ChildElement(tag, encode(param.value))]
        case _ => inner;
      InnerAfter(inner', steps[1..])
  }

  /** The element the statements build when none of them throws. */
  function Effect(e: Element, steps: seq<Step>): Element
  {
    Element(e.tag, e.attributes + Contributions(steps), InnerAfter(e.inner, steps))
  }

  lemma {:induction false} ContributionsAppend(ps: seq<Step>, qs: seq<Step>)
    ensures Contributions(ps + qs) == Contributions(ps) + Contributions(qs)
    decreases |ps|
  {
    if |ps| == 0 {
      assert ps + qs == qs;
    } else {
      assert (ps + qs)[0] == ps[0];
      assert (ps + qs)[1..] == ps[1..] + qs;
      ContributionsAppend(ps[1..], qs);
    }
  }

  /** Appending one attribute keeps names distinct exactly when its name is new. */
  lemma {:induction false} DistinctNamesSnoc(attrs: seq<Attribute>, a: Attribute)
    ensures DistinctNames(attrs + [a]) <==> DistinctNames(attrs) && a.name !in Names(attrs)
  {
    if DistinctNames(attrs + [a]) {
      forall i, j | 0 <= i < j < |attrs| ensures attrs[i].name != attrs[j].name {
        assert attrs[i] == (attrs + [a])[i] && attrs[j] == (attrs + [a])[j];
      }
      forall i | 0 <= i < |attrs| ensures Names(attrs)[i] != a.name {
        assert (attrs + [a])[i] == attrs[i] && (attrs + [a])[|attrs|] == a;
      }
    }
  }

  /** Names that are distinct in a whole list are distinct in its front part. */
  lemma {:induction false} DistinctNamesPrefix(attrs: seq<Attribute>, more: seq<Attribute>)
    requires DistinctNames(attrs + more)
    ensures DistinctNames(attrs)
  {
    forall i, j | 0 <= i < j < |attrs| ensures attrs[i].name != attrs[j].name {
      assert attrs[i] == (attrs + more)[i] && attrs[j] == (attrs + more)[j];
    }
  }

  /** Running the statements on a builder whose names are distinct succeeds
      exactly when every added name is new, that is when the names of the
      final attribute list are distinct; it then builds `Effect`. */
  lemma {:induction false} RunSucceedsIffDistinct(e: Element, steps: seq<Step>)
    requires DistinctNames(e.attributes)
    ensures Run(e, steps).Success? <==> DistinctNames(e.attributes + Contributions(steps))
    ensures Run(e, steps).Success? ==> Run(e, steps).value == Effect(e, steps)
    decreases |steps|
  {
    if |steps| == 0 {
      assert e.attributes + [] == e.attributes;
    } else {
      var s := steps[0];
      var rest := steps[1..];
      var c := Contribution(s);
      assert e.attributes + Contributions(steps) == (e.attributes + c) + Contributions(rest);
      match Exec(e, s)
      case Failure(err) =>
        assert |c| == 1 && c[0].name in Names(e.attributes);
        DistinctNamesSnoc(e.attributes, c[0]);
        if DistinctNames(e.attributes + Contributions(steps)) {
          DistinctNamesPrefix(e.attributes + c, Contributions(rest));
        }
      case Success(e') =>
        assert e'.attributes == e.attributes + c;
        assert e'.tag == e.tag;
        if |c| == 1 {
          DistinctNamesSnoc(e.attributes, c[0]);
        } else {
          assert e'.attributes == e.attributes;
        }
        RunSucceedsIffDistinct(e', rest);
    }
  }

  /** `Attributes.Add` as an insert into a dictionary whose keys are distinct:
      it throws exactly when the key is already stored; otherwise the keys
      stay distinct, the new key maps to the new value and every other key
      keeps the value it had (or stays absent). */
  lemma {:induction false} AddInserts(e: Element, name: string, value: string)
    requires DistinctNames(e.attributes)
    ensures Add(e, name, value).Failure? <==> Lookup(e.attributes, name).Some?
    ensures var r := Add(e, name, value);
      r.Success? ==>
        && r.value.tag == e.tag && r.value.inner == e.inner
        && DistinctNames(r.value.attributes)
        && Lookup(r.value.attributes, name) == Some(value)
        && forall other :: other != name ==> Lookup(r.value.attributes, other) == Lookup(e.attributes, other)
  {
    var a := Attribute(name, value);
    if Lookup(e.attributes, name).None? {
      var attrs := e.attributes + [a];
      assert Add(e, name, value) == Success(e.(attributes := attrs));
      DistinctNamesSnoc(e.attributes, a);
      LookupAppend(e.attributes, [a], name);
      assert [a][1..] == [];
      forall other | other != name
        ensures Lookup(attrs, other) == Lookup(e.attributes, other)
      {
        LookupAppend(e.attributes, [a], other);
      }
    }
  }

  /** The attribute an optional parameter contributes: `encode(param)` under
      `name` when the parameter is set, nothing otherwise. */
  function OptionalAttribute(name: string, param: Option<string>, encode: string -> string): seq<Attribute>
  {
    if IsNullOrWhiteSpace(param) then [] else [Attribute(name, encode(param.value))]
  }

  /** The name of an optional attribute, when its parameter is set. */
  function NameUnlessBlank(name: string, param: Option<string>): seq<string>
  {
    if IsNullOrWhiteSpace(param) then [] else [name]
  }

  /** The value an optional attribute carries, when its parameter is set. */
  function EncodedUnlessBlank(param: Option<string>, encode: string -> string): Option<string>
  {
    if IsNullOrWhiteSpace(param) then None else Some(encode(param.value))
  }

  lemma {:induction false} NamesAppend(a: seq<Attribute>, b: seq<Attribute>)
    ensures Names(a + b) == Names(a) + Names(b)
  {
  }

  /** Looking a name up in a concatenation searches the front part first. */
  lemma {:induction false} LookupAppend(a: seq<Attribute>, b: seq<Attribute>, name: string)
    ensures Lookup(a + b, name) == if Lookup(a, name).Some? then Lookup(a, name) else Lookup(b, name)
    decreases |a|
  {
    if |a| == 0 {
      assert a + b == b;
    } else {
      assert (a + b)[0] == a[0];
      assert (a + b)[1..] == a[1..] + b;
      LookupAppend(a[1..], b, name);
    }
  }

  /** Appending an optional attribute under a new name keeps the names
      distinct and adds the name, with the encoded parameter, exactly when
      the parameter is set. */
  lemma {:induction false} AppendOptional(front: seq<Attribute>, name: string, param: Option<string>, encode: string -> string)
    requires DistinctNames(front) && name !in Names(front)
    ensures var attrs := front + OptionalAttribute(name, param, encode);
      && DistinctNames(attrs)
      && Names(attrs) == Names(front) + NameUnlessBlank(name, param)
      && Lookup(attrs, name) == EncodedUnlessBlank(param, encode)
  {
    var o := OptionalAttribute(name, param, encode);
    LookupAppend(front, o, name);
    if IsNullOrWhiteSpace(param) {
      assert front + o == front;
    } else {
      var a := Attribute(name, encode(param.value));
      assert o == [a];
      DistinctNamesSnoc(front, a);
      assert Names(front + [a]) == Names(front) + [name] by {
        NamesAppend(front, [a]);
      }
      assert Lookup([a], name) == Some(encode(param.value));
    }
  }

  /** The id and class attributes after some front part: present exactly
      when their parameter is set, carrying the encoded parameter, with
      names kept distinct and the front part left in place. */
  lemma {:induction false} IdClassAfter(front: seq<Attribute>, id: Option<string>, cssClass: Option<string>, encode: string -> string)
    requires DistinctNames(front)
    requires "id" !in Names(front) && "class" !in Names(front) && "style" !in Names(front)
    ensures var attrs := front + OptionalAttribute("id", id, encode) + OptionalAttribute("class", cssClass, encode);
      && DistinctNames(attrs)
      && Names(attrs) == Names(front) + NameUnlessBlank("id", id) + NameUnlessBlank("class", cssClass)
      && "style" !in Names(attrs)
      && Lookup(attrs, "id") == EncodedUnlessBlank(id, encode)
      && Lookup(attrs, "class") == EncodedUnlessBlank(cssClass, encode)
  {
    var a1 := front + OptionalAttribute("id", id, encode);
    var a2 := a1 + OptionalAttribute("class", cssClass, encode);
    IdAfter(front, id, encode);
    assert DistinctNames(a2) && Names(a2) == Names(a1) + NameUnlessBlank("class", cssClass)
        && Lookup(a2, "class") == EncodedUnlessBlank(cssClass, encode) by {
      AppendOptional(a1, "class", cssClass, encode);
    }
    assert "style" !in Names(a2);
    assert Lookup(a2, "id") == EncodedUnlessBlank(id, encode) by {
      LookupAppend(a1, OptionalAttribute("class", cssClass, encode), "id");
      LookupOptionalOther("class", cssClass, encode, "id");
    }
  }

  /** An optional attribute holds no other name. */
  lemma {:induction false} LookupOptionalOther(name: string, param: Option<string>, encode: string -> string, other: string)
    requires other != name
    ensures Lookup(OptionalAttribute(name, param, encode), other) == None
  {
    var o := OptionalAttribute(name, param, encode);
    if |o| == 1 {
      assert o[0].name != other;
      assert o[1..] == [];
    }
  }

  /** The id attribute after some front part, as `AppendOptional` gives it,
      leaving the names class and style free. */
  lemma {:induction false} IdAfter(front: seq<Attribute>, id: Option<string>, encode: string -> string)
    requires DistinctNames(front)
    requires "id" !in Names(front) && "class" !in Names(front) && "style" !in Names(front)
    ensures var a1 := front + OptionalAttribute("id", id, encode);
      && DistinctNames(a1)
      && Names(a1) == Names(front) + NameUnlessBlank("id", id)
      && Lookup(a1, "id") == EncodedUnlessBlank(id, encode)
      && "class" !in Names(a1) && "style" !in Names(a1)
  {
    AppendOptional(front, "id", id, encode);
  }

  /** The attribute layout every helper builds: the required attributes
      first, then id and class exactly when their parameter is set, carrying
      the encoded parameter, then the style; no name twice. */
  predicate Layout(attrs: seq<Attribute>, required: seq<Attribute>, id: Option<string>, cssClass: Option<string>,
                   style: string, encode: string -> string)
  {
    && DistinctNames(attrs)
    && Names(attrs) == Names(required) + NameUnlessBlank("id", id) + NameUnlessBlank("class", cssClass) + ["style"]
    && required <= attrs
    && Lookup(attrs, "id") == EncodedUnlessBlank(id, encode)
    && Lookup(attrs, "class") == EncodedUnlessBlank(cssClass, encode)
    && Lookup(attrs, "style") == Some(style)
  }

  /** Required attributes with distinct names other than id, class and
      style, followed by id and class when set and then the style, are laid
      out as `Layout` says. */
  lemma {:induction false} IdClassStyleTail(front: seq<Attribute>, id: Option<string>, cssClass: Option<string>,
                                            style: string, encode: string -> string)
    requires DistinctNames(front)
    requires "id" !in Names(front) && "class" !in Names(front) && "style" !in Names(front)
    ensures Layout(front + OptionalAttribute("id", id, encode) + OptionalAttribute("class", cssClass, encode)
                   + [Attribute("style", style)], front, id, cssClass, style, encode)
  {
    IdClassStyleTailNames(front, id, cssClass, style, encode);
    IdClassStyleTailLookups(front, id, cssClass, style, encode);
  }

  lemma {:induction false} IdClassStyleTailNames(front: seq<Attribute>, id: Option<string>, cssClass: Option<string>,
                                                 style: string, encode: string -> string)
    requires DistinctNames(front)
    requires "id" !in Names(front) && "class" !in Names(front) && "style" !in Names(front)
    ensures var attrs := front + OptionalAttribute("id", id, encode) + OptionalAttribute("class", cssClass, encode)
                         + [Attribute("style", style)];
      && DistinctNames(attrs)
      && Names(attrs) == Names(front) + NameUnlessBlank("id", id) + NameUnlessBlank("class", cssClass) + ["style"]
      && front <= attrs
  {
    var a2 := front + OptionalAttribute("id", id, encode) + OptionalAttribute("class", cssClass, encode);
    var st := Attribute("style", style);
    var attrs := a2 + [st];
    assert DistinctNames(attrs) by {
      IdClassAfter(front, id, cssClass, encode);
      DistinctNamesSnoc(a2, st);
    }
    assert Names(attrs) == Names(front) + NameUnlessBlank("id", id) + NameUnlessBlank("class", cssClass) + ["style"] by {
      IdClassAfter(front, id, cssClass, encode);
      NamesAppend(a2, [st]);
      assert Names([st]) == ["style"];
    }
    assert front <= attrs by {
      forall i | 0 <= i < |front| ensures attrs[i] == front[i] {
        assert attrs[i] == a2[i];
      }
    }
  }

  lemma {:induction false} IdClassStyleTailLookups(front: seq<Attribute>, id: Option<string>, cssClass: Option<string>,
                                                   style: string, encode: string -> string)
    requires DistinctNames(front)
    requires "id" !in Names(front) && "class" !in Names(front) && "style" !in Names(front)
    ensures var attrs := front + OptionalAttribute("id", id, encode) + OptionalAttribute("class", cssClass, encode)
                         + [Attribute("style", style)];
      && Lookup(attrs, "id") == EncodedUnlessBlank(id, encode)
      && Lookup(attrs, "class") == EncodedUnlessBlank(cssClass, encode)
      && Lookup(attrs, "style") == Some(style)
  {
    var a2 := front + OptionalAttribute("id", id, encode) + OptionalAttribute("class", cssClass, encode);
    var st := Attribute("style", style);
    var attrs := a2 + [st];
    assert Lookup(attrs, "id") == EncodedUnlessBlank(id, encode) by {
      IdClassAfter(front, id, cssClass, encode);
      LookupAppend(a2, [st], "id");
    }
    assert Lookup(attrs, "class") == EncodedUnlessBlank(cssClass, encode) by {
      IdClassAfter(front, id, cssClass, encode);
      LookupAppend(a2, [st], "class");
    }
    assert Lookup(attrs, "style") == Some(style) by {
      IdClassAfter(front, id, cssClass, encode);
      LookupAppend(a2, [st], "style");
    }
  }

  /** A statement that only touches the attributes. */
  predicate AttributeStep(s: Step)
  {
    s.AddAttribute? || s.AddAttributeUnlessBlank?
  }

  /** Statements that all only touch the attributes. */
  predicate AttributeSteps(steps: seq<Step>)
  {
    forall i :: 0 <= i < |steps| ==> AttributeStep(steps[i])
  }

  /** One unconditional `Add` per attribute, in order. */
  function AddEach(attrs: seq<Attribute>): (steps: seq<Step>)
    ensures |steps| == |attrs|
    ensures forall i :: 0 <= i < |attrs| ==> steps[i] == AddAttribute(attrs[i].name, attrs[i].value)
  {
    if |attrs| == 0 then [] else [AddAttribute(attrs[0].name, attrs[0].value)] + AddEach(attrs[1..])
  }

  lemma {:induction false} ContributionsAddEach(attrs: seq<Attribute>)
    ensures Contributions(AddEach(attrs)) == attrs
    decreases |attrs|
  {
    if |attrs| > 0 {
      var steps := AddEach(attrs);
      assert steps[1..] == AddEach(attrs[1..]);
      ContributionsAddEach(attrs[1..]);
      assert [attrs[0]] + attrs[1..] == attrs;
    }
  }

  lemma {:induction false} InnerAfterAppend(inner: seq<InnerPart>, ps: seq<Step>, qs: seq<Step>)
    ensures InnerAfter(inner, ps + qs) == InnerAfter(InnerAfter(inner, ps), qs)
    decreases |ps|
  {
    if |ps| == 0 {
      assert ps + qs == qs;
    } else {
      assert (ps + qs)[0] == ps[0];
      assert (ps + qs)[1..] == ps[1..] + qs;
      var inner' :=
        match ps[0]
        case SetInnerText(text) => [InnerText(text)]
        case AppendChildUnlessBlank(tag, param, encode) =>
          if IsNullOrWhiteSpace(param) then inner else inner + [ChildElement(tag, encode(param.value))]
        case _ => inner;
      InnerAfterAppend(inner', ps[1..], qs);
    }
  }

  /** Statements that only touch the attributes leave the inner content alone. */
  lemma {:induction false} InnerAfterAttributeSteps(inner: seq<InnerPart>, steps: seq<Step>)
    requires AttributeSteps(steps)
    ensures InnerAfter(inner, steps) == inner
    decreases |steps|
  {
    if |steps| > 0 {
      InnerAfterAttributeSteps(inner, steps[1..]);
    }
  }
}
