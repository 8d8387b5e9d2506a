/** The `points` attribute of a polyline: the vertices folded into one
    string, each as `x, y ` (formatted x, comma, space, formatted y, space). */
module Points {
  import opened Host
  import opened WhiteSpace

  /** A `Tuple<float, float>` vertex. */
  datatype Point = Point(x: Single, y: Single)

  /** One vertex as the fold writes it: `string.Format("{0}, {1} ", x, y)`
      with each coordinate already formatted. */
  function Chunk(fmt: Single -> string, p: Point): (c: string)
    ensures !IsBlank(c)
    ensures |c| > 0 && c[|c| - 1] == ' '
  {
    var c := fmt(p.x) + ", " + fmt(p.y) + " ";
    assert c[|fmt(p.x)|] == ',';
    NotBlankAt(c, |fmt(p.x)|);
    c
  }

  /** `points.Aggregate(string.Empty, (acc, p) => acc + Chunk(p))`: a left
      fold that appends each vertex's chunk to what came before. */
  function PointValues(fmt: Single -> string, ps: seq<Point>): (s: string)
    ensures IsBlank(s) <==> |ps| == 0
    ensures |ps| > 0 ==> |s| > 0 && s[|s| - 1] == ' '
  {
    if |ps| == 0 then ""
    else
      var acc := PointValues(fmt, ps[..|ps| - 1]);
      var c := Chunk(fmt, ps[|ps| - 1]);
      BlankConcat(acc, c);
      acc + c
  }

  /** The chunks of the vertices, front to back: the reference reading of the
      points string, independent of the order in which the fold builds it. */
  function Chunks(fmt: Single -> string, ps: seq<Point>): string
  {
    if |ps| == 0 then "" else Chunk(fmt, ps[0]) + Chunks(fmt, ps[1..])
  }

  lemma {:induction false} ChunksAppend(fmt: Single -> string, ps: seq<Point>, qs: seq<Point>)
    ensures Chunks(fmt, ps + qs) == Chunks(fmt, ps) + Chunks(fmt, qs)
    decreases |ps|
  {
    if |ps| == 0 {
      assert ps + qs == qs;
    } else {
      assert (ps + qs)[0] == ps[0];
      assert (ps + qs)[1..] == ps[1..] + qs;
      ChunksAppend(fmt, ps[1..], qs);
    }
  }

  /** The fold yields exactly the in-order concatenation of the chunks. */
  lemma {:induction false} PointValuesIsChunks(fmt: Single -> string, ps: seq<Point>)
    ensures PointValues(fmt, ps) == Chunks(fmt, ps)
    decreases |ps|
  {
    if |ps| > 0 {
      var init := ps[..|ps| - 1];
      var last := ps[|ps| - 1];
      PointValuesIsChunks(fmt, init);
      ChunksAppend(fmt, init, [last]);
      assert init + [last] == ps;
      assert [last][1..] == [];
    }
  }

  /** The text before the first `c` in `s`, or all of `s` when there is none. */
  function Before(s: string, c: char): (r: string)
    ensures r <= s
    ensures c !in r
  {
    if |s| == 0 || s[0] == c then "" else [s[0]] + Before(s[1..], c)
  }

  /** The text after the first `c` in `s`, or nothing when there is none. */
  function After(s: string, c: char): (r: string)
    ensures |s| > 0 ==> |r| < |s|
  {
    var b := Before(s, c);
    if |b| < |s| then s[|b| + 1..] else ""
  }

  lemma {:induction false} SplitConcat(a: string, c: char, b: string)
    requires c !in a
    ensures Before(a + [c] + b, c) == a
    ensures After(a + [c] + b, c) == b
    decreases |a|
  {
    if |a| == 0 {
      assert a + [c] + b == [c] + b;
    } else {
      assert (a + [c] + b)[1..] == a[1..] + [c] + b;
      SplitConcat(a[1..], c, b);
      assert [a[0]] + a[1..] == a;
    }
  }

  /** Reads a points string back into formatted coordinate pairs: up to the
      comma, skip the space after it, up to the next space, and repeat. */
  function ParsePoints(s: string): seq<(string, string)>
    decreases |s|
  {
    if |s| == 0 then []
    else
      var x := Before(s, ',');
      var rest := After(s, ',');
      var rest := if |rest| > 0 then rest[1..] else rest;
      var y := Before(rest, ' ');
      [(x, y)] + ParsePoints(After(rest, ' '))
  }

  /** The formatted coordinate pairs of the vertices. */
  function Formatted(fmt: Single -> string, ps: seq<Point>): seq<(string, string)>
  {
    seq(|ps|, i requires 0 <= i < |ps| => (fmt(ps[i].x), fmt(ps[i].y)))
  }

  /** A formatter that never writes the separators the points string uses. */
  predicate SeparatorFree(fmt: Single -> string, ps: seq<Point>)
  {
    forall i :: 0 <= i < |ps| ==> ',' !in fmt(ps[i].x) && ' ' !in fmt(ps[i].y)
  }

  /** Reading back one chunk in front of the rest. */
  lemma {:induction false} ParseOneChunk(x: string, y: string, tail: string)
    requires ',' !in x && ' ' !in y
    ensures ParsePoints(x + ", " + y + " " + tail) == [(x, y)] + ParsePoints(tail)
  {
    var s := x + ", " + y + " " + tail;
    var r := " " + y + " " + tail;
    assert s == x + [','] + r;
    SplitConcat(x, ',', r);
    assert r[1..] == y + [' '] + tail;
    SplitConcat(y, ' ', tail);
  }

  /** When the formatted coordinates contain neither separator, the points
      string determines the formatted pairs: reading it back gives them in
      order. */
  lemma {:induction false} ParseChunks(fmt: Single -> string, ps: seq<Point>)
    requires SeparatorFree(fmt, ps)
    ensures ParsePoints(Chunks(fmt, ps)) == Formatted(fmt, ps)
    decreases |ps|
  {
    if |ps| > 0 {
      var x := fmt(ps[0].x);
      var y := fmt(ps[0].y);
      assert Chunks(fmt, ps) == x + ", " + y + " " + Chunks(fmt, ps[1..]);
      ParseOneChunk(x, y, Chunks(fmt, ps[1..]));
      SeparatorFreeTail(fmt, ps);
      ParseChunks(fmt, ps[1..]);
      FormattedCons(fmt, ps);
    }
  }

  lemma {:induction false} SeparatorFreeTail(fmt: Single -> string, ps: seq<Point>)
    requires |ps| > 0 && SeparatorFree(fmt, ps)
    ensures SeparatorFree(fmt, ps[1..])
  {
    forall i | 0 <= i < |ps[1..]|
      ensures ',' !in fmt(ps[1..][i].x) && ' ' !in fmt(ps[1..][i].y)
    {
      assert ps[1..][i] == ps[i + 1];
    }
  }

  lemma {:induction false} FormattedCons(fmt: Single -> string, ps: seq<Point>)
    requires |ps| > 0
    ensures Formatted(fmt, ps) == [(fmt(ps[0].x), fmt(ps[0].y))] + Formatted(fmt, ps[1..])
  {
    var r := [(fmt(ps[0].x), fmt(ps[0].y))] + Formatted(fmt, ps[1..]);
    forall i | 0 <= i < |ps| ensures Formatted(fmt, ps)[i] == r[i] {
      if i > 0 {
        assert ps[1..][i - 1] == ps[i];
      }
    }
  }
}
