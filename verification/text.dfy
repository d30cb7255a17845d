/**
 * The `points` attribute of an SVG polygon: every vertex written as `x,y`,
 * the pairs joined by single spaces.  How a float is turned into digits is
 * not modelled: it is a parameter, and only the structure of the text is.
 */
module Text {
  import opened Geometry

  /** Python's `sep.join(parts)` for a one-character separator. */
  function Join(parts: seq<string>, sep: char): (s: string)
    ensures parts == [] ==> s == []
    ensures |parts| == 1 ==> s == parts[0]
  {
    if parts == [] then []
    else if |parts| == 1 then parts[0]
    else parts[0] + [sep] + Join(parts[1..], sep)
  }

  /** Python's `s.split(sep)`: the pieces between separators, always at least one. */
  function Split(s: string, sep: char): (parts: seq<string>)
    ensures |parts| >= 1
  {
    if s == [] then [[]]
    else
      var rest := Split(s[1..], sep);
      if s[0] == sep then [[]] + rest else [[s[0]] + rest[0]] + rest[1..]
  }

  /** A piece without separators splits to itself. */
  lemma {:induction false} SplitPiece(a: string, sep: char)
    requires sep !in a
    ensures Split(a, sep) == [a]
  {
    if a != [] {
      SplitPiece(a[1..], sep);
      assert a[0] != sep && [a[0]] + a[1..] == a;
    }
  }

  /** A piece without separators, a separator, then the rest: the piece comes off first. */
  lemma {:induction false} SplitFirst(a: string, sep: char, b: string)
    requires sep !in a
    ensures Split(a + [sep] + b, sep) == [a] + Split(b, sep)
  {
    if a == [] {
      assert a + [sep] + b == [sep] + b;
      assert ([sep] + b)[1..] == b;
    } else {
      SplitFirst(a[1..], sep, b);
      assert (a + [sep] + b)[1..] == a[1..] + [sep] + b;
      assert [a[0]] + a[1..] == a;
    }
  }

  /** Splitting undoes joining when no part holds the separator. */
  lemma {:induction false} SplitJoin(parts: seq<string>, sep: char)
    requires parts != []
    requires forall i :: 0 <= i < |parts| ==> sep !in parts[i]
    ensures Split(Join(parts, sep), sep) == parts
  {
    if |parts| == 1 {
      SplitPiece(parts[0], sep);
    } else {
      SplitJoin(parts[1..], sep);
      SplitFirst(parts[0], sep, Join(parts[1..], sep));
    }
  }

  /**
   * The digits of a vertex's two coordinates, `f"{x}"` and `f"{y}"`, as the
   * program's float formatting writes them.
   */
  type Format = Point -> (string, string)

  /** `f"{x},{y}"` for one vertex. */
  function PairText(p: Point, fmt: Format): string
  {
    fmt(p).0 + [','] + fmt(p).1
  }

  /** `" ".join(f"{x},{y}" for x, y in vertices)`. */
  function PointsText(vertices: seq<Point>, fmt: Format): string
  {
    Join(seq(|vertices|, i requires 0 <= i < |vertices| => PairText(vertices[i], fmt)), ' ')
  }

  /** Formatted numbers hold neither of the two separators. */
  ghost predicate PlainNumbers(fmt: Format)
  {
    forall p :: ' ' !in fmt(p).0 && ',' !in fmt(p).0 && ' ' !in fmt(p).1 && ',' !in fmt(p).1
  }

  /**
   * The points text can be read back: splitting it at spaces gives one piece
   * per vertex in vertex order, and splitting piece i at the comma gives the
   * two coordinates of vertex i.
   */
  lemma PointsTextReadBack(vertices: seq<Point>, fmt: Format)
    requires vertices != [] && PlainNumbers(fmt)
    ensures |Split(PointsText(vertices, fmt), ' ')| == |vertices|
    ensures forall i :: 0 <= i < |vertices| ==>
      Split(Split(PointsText(vertices, fmt), ' ')[i], ',') == [fmt(vertices[i]).0, fmt(vertices[i]).1]
  {
    var pairs := seq(|vertices|, i requires 0 <= i < |vertices| => PairText(vertices[i], fmt));
    forall i | 0 <= i < |pairs|
      ensures ' ' !in pairs[i]
      ensures Split(pairs[i], ',') == [fmt(vertices[i]).0, fmt(vertices[i]).1]
    {
      var x, y := fmt(vertices[i]).0, fmt(vertices[i]).1;
      assert pairs[i] == x + [','] + y;
      SplitFirst(x, ',', y);
      SplitPiece(y, ',');
    }
    SplitJoin(pairs, ' ');
  }
}
