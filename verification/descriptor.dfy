/**
 * The test descriptor encoded in a clip's file name (the parsing block of
 * `Conversor.Start`):
 *
 *   name_x1xy1[xx2xy2]_rxgxb_rectXxrectYxwidthxheight_startxend
 *
 * The C# code indexes the split arrays and calls `int.Parse` / `byte.Parse`
 * without catching anything, so every malformed name raises an exception; here
 * that is a `Fail` carrying which token and which part was at fault.
 */
module Descriptor {
  import opened Wrappers
  import opened Text
  import opened Colors

  /** A sample point, `Vector2` built from two parsed integers. */
  datatype Point = Point(x: int, y: int)

  /** The compare region, `Rect(x, y, width, height)` built from four parsed integers. */
  datatype Rect = Rect(x: int, y: int, width: int, height: int)

  datatype TestDescriptor = TestDescriptor(
    name: string,
    points: seq<Point>,
    target: Color32,
    area: Rect,
    start: int,
    end: int)

  /** Where parsing stopped: an `IndexOutOfRangeException` on the token array
      (`MissingToken`) or on a token's `x`-parts (`MissingPart`), or a
      `FormatException`/`OverflowException` from the number parser (`BadNumber`). */
  datatype ParseError =
    | MissingToken(token: nat)
    | MissingPart(token: nat, part: nat)
    | BadNumber(token: nat, part: nat)

  /** `args[token].Split('x')`. */
  function Parts(args: seq<string>, token: nat): Result<seq<string>, ParseError>
  {
    if token < |args| then Ok(Split(args[token], 'x')) else Fail(MissingToken(token))
  }

  /** `int.Parse(parts[part])`. */
  function IntAt(parts: seq<string>, token: nat, part: nat): Result<int, ParseError>
  {
    if part >= |parts| then Fail(MissingPart(token, part))
    else match ParseInt(parts[part])
      case Some(v) => Ok(v)
      case None => Fail(BadNumber(token, part))
  }

  /** `byte.Parse(parts[part])`. */
  function ByteAt(parts: seq<string>, token: nat, part: nat): Result<byte, ParseError>
  {
    if part >= |parts| then Fail(MissingPart(token, part))
    else match ParseByte(parts[part])
      case Some(v) => Ok(v as byte)
      case None => Fail(BadNumber(token, part))
  }

  /** Token 1: more than two parts give two points from parts 0..3, otherwise one point from parts 0..1. */
  function ParsePoints(pos: seq<string>): (r: Result<seq<Point>, ParseError>)
    ensures r.Ok? ==> (|pos| == 2 && |r.value| == 1) || (|pos| >= 4 && |r.value| == 2)
  {
    if |pos| > 2 then
      var x1 :- IntAt(pos, 1, 0);
      var y1 :- IntAt(pos, 1, 1);
      var x2 :- IntAt(pos, 1, 2);
      var y2 :- IntAt(pos, 1, 3);
      Ok([Point(x1, y1), Point(x2, y2)])
    else
      var x1 :- IntAt(pos, 1, 0);
      var y1 :- IntAt(pos, 1, 1);
      Ok([Point(x1, y1)])
  }

  /** Token 2: the target colour from parts 0..2, alpha fixed at 1. */
  function ParseColor(cl: seq<string>): (r: Result<Color32, ParseError>)
    ensures r.Ok? ==> |cl| >= 3 && r.value.a == 1
  {
    var r :- ByteAt(cl, 2, 0);
    var g :- ByteAt(cl, 2, 1);
    var b :- ByteAt(cl, 2, 2);
    Ok(Color32(r, g, b, 1))
  }

  /** Token 3: the compare region from parts 0..3. */
  function ParseArea(area: seq<string>): Result<Rect, ParseError>
  {
    var x :- IntAt(area, 3, 0);
    var y :- IntAt(area, 3, 1);
    var w :- IntAt(area, 3, 2);
    var h :- IntAt(area, 3, 3);
    Ok(Rect(x, y, w, h))
  }

  /** Token 4: the detection window from parts 0..1. */
  function ParseWindow(seeker: seq<string>): Result<(int, int), ParseError>
  {
    var start :- IntAt(seeker, 4, 0);
    var end :- IntAt(seeker, 4, 1);
    Ok((start, end))
  }

  /** The five tokens, read left to right in the order the C# code evaluates them. */
  function ParseTokens(args: seq<string>): (r: Result<TestDescriptor, ParseError>)
    requires |args| >= 1
    ensures r.Ok? ==> |args| >= 5 && r.value.name == args[0] && r.value.target.a == 1
    ensures r.Ok? ==>
      var pos := Split(args[1], 'x');
      (|pos| == 2 && |r.value.points| == 1) || (|pos| >= 4 && |r.value.points| == 2)
  {
    var pos :- Parts(args, 1);
    var points :- ParsePoints(pos);
    var cl :- Parts(args, 2);
    var target :- ParseColor(cl);
    var area :- Parts(args, 3);
    var rect :- ParseArea(area);
    var seeker :- Parts(args, 4);
    var window :- ParseWindow(seeker);
    Ok(TestDescriptor(args[0], points, target, rect, window.0, window.1))
  }

  /** Parses a file name without its extension. */
  function Parse(stem: string): (r: Result<TestDescriptor, ParseError>)
    ensures r.Ok? ==> |Split(stem, '_')| >= 5 && r.value.name == Split(stem, '_')[0]
    ensures r.Ok? ==>
      var pos := Split(Split(stem, '_')[1], 'x');
      (|pos| == 2 && |r.value.points| == 1) || (|pos| >= 4 && |r.value.points| == 2)
    ensures r.Ok? ==> r.value.target.a == 1
    ensures |Split(stem, '_')| < 5 ==> r.Fail?
  {
    ParseTokens(Split(stem, '_'))
  }

  /** Tokens after the fifth are never looked at. */
  lemma ExtraTokensIgnored(stem: string, extra: string)
    requires |Split(stem, '_')| >= 5
    ensures Parse(stem + "_" + extra) == Parse(stem)
  {
    var args := Split(stem, '_');
    SplitAtSeparator(stem, extra, '_');
    var longer := args + Split(extra, '_');
    assert Split(stem + "_" + extra, '_') == longer;
    assert longer[..5] == args[..5];
    assert longer[0] == args[0] && longer[1] == args[1] && longer[2] == args[2];
    assert longer[3] == args[3] && longer[4] == args[4];
  }

  // ---------------------------------------------------------------------
  // Exactly which names parse, and what they read as
  // ---------------------------------------------------------------------

  /** The first `n` parts are all numerals `int.Parse` accepts. */
  predicate IntsAt(parts: seq<string>, n: nat)
    requires n <= |parts|
  {
    forall i :: 0 <= i < n ==> ParseInt(parts[i]).Some?
  }

  function IntOf(s: string): int
    requires ParseInt(s).Some?
  {
    ParseInt(s).value
  }

  /** Token 1 reads when it has exactly two numerals, or more than two of which the first four are numerals. */
  predicate PointsReadable(pos: seq<string>)
  {
    if |pos| > 2 then |pos| >= 4 && IntsAt(pos, 4) else |pos| == 2 && IntsAt(pos, 2)
  }

  function PointsOf(pos: seq<string>): seq<Point>
    requires PointsReadable(pos)
  {
    var first := Point(IntOf(pos[0]), IntOf(pos[1]));
    if |pos| > 2 then [first, Point(IntOf(pos[2]), IntOf(pos[3]))] else [first]
  }

  /** Token 2 reads when its first three parts are numerals `byte.Parse` accepts. */
  predicate ColorReadable(cl: seq<string>)
  {
    |cl| >= 3 && ParseByte(cl[0]).Some? && ParseByte(cl[1]).Some? && ParseByte(cl[2]).Some?
  }

  function ColorOf(cl: seq<string>): Color32
    requires ColorReadable(cl)
  {
    Color32(ParseByte(cl[0]).value as byte, ParseByte(cl[1]).value as byte, ParseByte(cl[2]).value as byte, 1)
  }

  /** The whole stem reads: five tokens, each with enough numerals in its leading `x`-parts. */
  predicate Readable(args: seq<string>)
  {
    && |args| >= 5
    && PointsReadable(Split(args[1], 'x'))
    && ColorReadable(Split(args[2], 'x'))
    && |Split(args[3], 'x')| >= 4 && IntsAt(Split(args[3], 'x'), 4)
    && |Split(args[4], 'x')| >= 2 && IntsAt(Split(args[4], 'x'), 2)
  }

  /** The descriptor a readable stem stands for, read field by field. */
  function Reading(args: seq<string>): TestDescriptor
    requires Readable(args)
  {
    var area, seeker := Split(args[3], 'x'), Split(args[4], 'x');
    TestDescriptor(
      args[0],
      PointsOf(Split(args[1], 'x')),
      ColorOf(Split(args[2], 'x')),
      Rect(IntOf(area[0]), IntOf(area[1]), IntOf(area[2]), IntOf(area[3])),
      IntOf(seeker[0]),
      IntOf(seeker[1]))
  }

  lemma IntAtReads(parts: seq<string>, token: nat, i: nat)
    ensures IntAt(parts, token, i).Ok? <==> i < |parts| && ParseInt(parts[i]).Some?
    ensures IntAt(parts, token, i).Ok? ==> IntAt(parts, token, i).value == IntOf(parts[i])
  {
  }

  lemma ParsePointsReads(pos: seq<string>)
    ensures ParsePoints(pos).Ok? <==> PointsReadable(pos)
    ensures PointsReadable(pos) ==> ParsePoints(pos).value == PointsOf(pos)
  {
    IntAtReads(pos, 1, 0);
    IntAtReads(pos, 1, 1);
    IntAtReads(pos, 1, 2);
    IntAtReads(pos, 1, 3);
  }

  lemma ParseColorReads(cl: seq<string>)
    ensures ParseColor(cl).Ok? <==> ColorReadable(cl)
    ensures ColorReadable(cl) ==> ParseColor(cl).value == ColorOf(cl)
  {
  }

  lemma ParseAreaReads(area: seq<string>)
    ensures ParseArea(area).Ok? <==> |area| >= 4 && IntsAt(area, 4)
    ensures ParseArea(area).Ok? ==>
      ParseArea(area).value == Rect(IntOf(area[0]), IntOf(area[1]), IntOf(area[2]), IntOf(area[3]))
  {
    IntAtReads(area, 3, 0);
    IntAtReads(area, 3, 1);
    IntAtReads(area, 3, 2);
    IntAtReads(area, 3, 3);
  }

  lemma ParseWindowReads(seeker: seq<string>)
    ensures ParseWindow(seeker).Ok? <==> |seeker| >= 2 && IntsAt(seeker, 2)
    ensures ParseWindow(seeker).Ok? ==> ParseWindow(seeker).value == (IntOf(seeker[0]), IntOf(seeker[1]))
  {
    IntAtReads(seeker, 4, 0);
    IntAtReads(seeker, 4, 1);
  }

  /** A name parses exactly when it is readable, and then it parses to its reading:
      a missing token, a token with too few `x`-parts, or a part that is not a
      numeral in range makes the parse fail. */
  lemma ParseReads(stem: string)
    ensures Parse(stem).Ok? <==> Readable(Split(stem, '_'))
    ensures Readable(Split(stem, '_')) ==> Parse(stem) == Ok(Reading(Split(stem, '_')))
  {
    var args := Split(stem, '_');
    if |args| >= 5 {
      ParsePointsReads(Split(args[1], 'x'));
      ParseColorReads(Split(args[2], 'x'));
      ParseAreaReads(Split(args[3], 'x'));
      ParseWindowReads(Split(args[4], 'x'));
    }
  }

  // ---------------------------------------------------------------------
  // Writing a descriptor back as a file name
  // ---------------------------------------------------------------------

  function Numerals(ns: seq<int>): (r: seq<string>)
    ensures |r| == |ns|
  {
    seq(|ns|, i requires 0 <= i < |ns| => FormatInt(ns[i]))
  }

  function Coordinates(points: seq<Point>): seq<int>
    requires 1 <= |points| <= 2
  {
    if |points| == 1 then [points[0].x, points[0].y]
    else [points[0].x, points[0].y, points[1].x, points[1].y]
  }

  function Tokens(d: TestDescriptor): seq<string>
    requires 1 <= |d.points| <= 2
  {
    [ d.name,
      Join(Numerals(Coordinates(d.points)), 'x'),
      Join(Numerals([d.target.r as int, d.target.g as int, d.target.b as int]), 'x'),
      Join(Numerals([d.area.x, d.area.y, d.area.width, d.area.height]), 'x'),
      Join(Numerals([d.start, d.end]), 'x') ]
  }

  /** The file name a descriptor is written as: `name_x1xy1[xx2xy2]_rxgxb_xxyxwxh_startxend`. */
  function Format(d: TestDescriptor): string
    requires 1 <= |d.points| <= 2
  {
    Join(Tokens(d), '_')
  }

  predicate Int32(n: int) { Int32Min <= n <= Int32Max }

  /** What a parsed descriptor always satisfies, and all a round trip needs. */
  predicate WellFormed(d: TestDescriptor)
  {
    && '_' !in d.name
    && 1 <= |d.points| <= 2
    && (forall i :: 0 <= i < |d.points| ==> Int32(d.points[i].x) && Int32(d.points[i].y))
    && Int32(d.area.x) && Int32(d.area.y) && Int32(d.area.width) && Int32(d.area.height)
    && Int32(d.start) && Int32(d.end)
    && d.target.a == 1
  }

  /** A numeral contains neither separator, and its `x`-join splits back into the numerals. */
  lemma NumeralsSplit(ns: seq<int>)
    requires |ns| >= 1
    ensures FreeOf(Numerals(ns), 'x') && FreeOf(Numerals(ns), '_')
    ensures '_' !in Join(Numerals(ns), 'x')
    ensures Split(Join(Numerals(ns), 'x'), 'x') == Numerals(ns)
  {
    var parts := Numerals(ns);
    forall i | 0 <= i < |parts|
      ensures 'x' !in parts[i] && '_' !in parts[i]
    {
      var s := FormatInt(ns[i]);
      assert parts[i] == s;
      assert forall j :: 0 <= j < |s| ==> s[j] != 'x' && s[j] != '_';
    }
    JoinFreeOf(parts, 'x', '_');
    SplitJoin(parts, 'x');
  }

  lemma NumeralParses(ns: seq<int>, i: nat)
    requires i < |ns| && Int32(ns[i])
    ensures ParseInt(Numerals(ns)[i]) == Some(ns[i])
  {
    ParseFormatInt(ns[i]);
  }

  /** A written 32-bit numeral reads back as its value wherever it stands. */
  lemma IntAtNumerals(ns: seq<int>, token: nat, i: nat)
    requires i < |ns| && Int32(ns[i])
    ensures IntAt(Numerals(ns), token, i) == Ok(ns[i])
  {
    ParseFormatInt(ns[i]);
  }

  lemma ByteAtNumerals(ns: seq<int>, token: nat, i: nat)
    requires i < |ns| && 0 <= ns[i] < 256
    ensures ByteAt(Numerals(ns), token, i) == Ok(ns[i] as byte)
  {
    ParseFormatByte(ns[i]);
  }

  lemma ParsePointsFormat(points: seq<Point>)
    requires 1 <= |points| <= 2
    requires forall i :: 0 <= i < |points| ==> Int32(points[i].x) && Int32(points[i].y)
    ensures ParsePoints(Numerals(Coordinates(points))) == Ok(points)
  {
    var cs := Coordinates(points);
    var ns := Numerals(cs);
    IntAtNumerals(cs, 1, 0);
    IntAtNumerals(cs, 1, 1);
    if |points| == 2 {
      IntAtNumerals(cs, 1, 2);
      IntAtNumerals(cs, 1, 3);
      ParsePointsOfFour(ns, points);
    } else {
      ParsePointsOfTwo(ns, points);
    }
  }

  lemma ParsePointsOfFour(ns: seq<string>, points: seq<Point>)
    requires |ns| == 4 && |points| == 2
    requires IntAt(ns, 1, 0) == Ok(points[0].x) && IntAt(ns, 1, 1) == Ok(points[0].y)
    requires IntAt(ns, 1, 2) == Ok(points[1].x) && IntAt(ns, 1, 3) == Ok(points[1].y)
    ensures ParsePoints(ns) == Ok(points)
  {
    assert points == [Point(points[0].x, points[0].y), Point(points[1].x, points[1].y)];
  }

  lemma ParsePointsOfTwo(ns: seq<string>, points: seq<Point>)
    requires |ns| == 2 && |points| == 1
    requires IntAt(ns, 1, 0) == Ok(points[0].x) && IntAt(ns, 1, 1) == Ok(points[0].y)
    ensures ParsePoints(ns) == Ok(points)
  {
    assert points == [Point(points[0].x, points[0].y)];
  }

  lemma ParseColorFormat(c: Color32)
    requires c.a == 1
    ensures ParseColor(Numerals([c.r as int, c.g as int, c.b as int])) == Ok(c)
  {
    var rgb := [c.r as int, c.g as int, c.b as int];
    ByteAtNumerals(rgb, 2, 0);
    ByteAtNumerals(rgb, 2, 1);
    ByteAtNumerals(rgb, 2, 2);
    ParseColorOf(Numerals(rgb), c);
  }

  lemma ParseColorOf(ns: seq<string>, c: Color32)
    requires c.a == 1
    requires ByteAt(ns, 2, 0) == Ok(c.r) && ByteAt(ns, 2, 1) == Ok(c.g) && ByteAt(ns, 2, 2) == Ok(c.b)
    ensures ParseColor(ns) == Ok(c)
  {
  }

  lemma ParseAreaFormat(a: Rect)
    requires Int32(a.x) && Int32(a.y) && Int32(a.width) && Int32(a.height)
    ensures ParseArea(Numerals([a.x, a.y, a.width, a.height])) == Ok(a)
  {
    var rect := [a.x, a.y, a.width, a.height];
    IntAtNumerals(rect, 3, 0);
    IntAtNumerals(rect, 3, 1);
    IntAtNumerals(rect, 3, 2);
    IntAtNumerals(rect, 3, 3);
    ParseAreaOf(Numerals(rect), a);
  }

  lemma ParseAreaOf(ns: seq<string>, a: Rect)
    requires IntAt(ns, 3, 0) == Ok(a.x) && IntAt(ns, 3, 1) == Ok(a.y)
    requires IntAt(ns, 3, 2) == Ok(a.width) && IntAt(ns, 3, 3) == Ok(a.height)
    ensures ParseArea(ns) == Ok(a)
  {
  }

  lemma ParseWindowFormat(start: int, end: int)
    requires Int32(start) && Int32(end)
    ensures ParseWindow(Numerals([start, end])) == Ok((start, end))
  {
    IntAtNumerals([start, end], 4, 0);
    IntAtNumerals([start, end], 4, 1);
  }

  lemma ParseTokensOf(args: seq<string>, d: TestDescriptor)
    requires |args| == 5 && args[0] == d.name
    requires ParsePoints(Split(args[1], 'x')) == Ok(d.points)
    requires ParseColor(Split(args[2], 'x')) == Ok(d.target)
    requires ParseArea(Split(args[3], 'x')) == Ok(d.area)
    requires ParseWindow(Split(args[4], 'x')) == Ok((d.start, d.end))
    ensures ParseTokens(args) == Ok(d)
  {
  }

  /** Parsing a written descriptor gives the descriptor back. */
  lemma ParseFormat(d: TestDescriptor)
    requires WellFormed(d)
    ensures Parse(Format(d)) == Ok(d)
  {
    var cs := Coordinates(d.points);
    var rgb := [d.target.r as int, d.target.g as int, d.target.b as int];
    var rect := [d.area.x, d.area.y, d.area.width, d.area.height];
    var window := [d.start, d.end];
    NumeralsSplit(cs);
    NumeralsSplit(rgb);
    NumeralsSplit(rect);
    NumeralsSplit(window);
    var tokens := Tokens(d);
    assert FreeOf(tokens, '_');
    SplitJoin(tokens, '_');
    ParsePointsFormat(d.points);
    ParseColorFormat(d.target);
    ParseAreaFormat(d.area);
    ParseWindowFormat(d.start, d.end);
    ParseTokensOf(tokens, d);
  }

  lemma SmallNumerals()
    ensures FormatInt(0) == "0" && FormatInt(5) == "5" && FormatInt(10) == "10"
    ensures FormatInt(20) == "20" && FormatInt(50) == "50" && FormatInt(255) == "255"
  {
    assert NatToDigits(25) == "25";
  }

  lemma BallTokens(d: TestDescriptor)
    requires d == TestDescriptor("ball", [Point(10, 20)], Color32(255, 0, 0, 1), Rect(5, 5, 50, 50), 0, 10)
    ensures Tokens(d) == ["ball", "10x20", "255x0x0", "5x5x50x50", "0x10"]
  {
    SmallNumerals();
    assert Numerals([10, 20]) == ["10", "20"];
    assert Numerals([255, 0, 0]) == ["255", "0", "0"];
    assert Numerals([5, 5, 50, 50]) == ["5", "5", "50", "50"];
    assert Numerals([0, 10]) == ["0", "10"];
    assert Join(["10", "20"], 'x') == "10x20";
    assert Join(["255", "0", "0"], 'x') == "255x0x0";
    assert Join(["5", "5", "50", "50"], 'x') == "5x5x50x50";
    assert Join(["0", "10"], 'x') == "0x10";
  }

  lemma BallName()
    ensures Join(["ball", "10x20", "255x0x0", "5x5x50x50", "0x10"], '_') == "ball_10x20_255x0x0_5x5x50x50_0x10"
  {
    var parts := ["ball", "10x20", "255x0x0", "5x5x50x50", "0x10"];
    assert parts[1..][1..][1..][1..] == ["0x10"];
    assert parts[1..][1..][1..] == ["5x5x50x50", "0x10"];
    assert parts[1..][1..] == ["255x0x0", "5x5x50x50", "0x10"];
    assert parts[1..] == ["10x20", "255x0x0", "5x5x50x50", "0x10"];
    assert "5x5x50x50" + "_" + "0x10" == "5x5x50x50_0x10";
    assert "255x0x0" + "_" + "5x5x50x50_0x10" == "255x0x0_5x5x50x50_0x10";
    assert "10x20" + "_" + "255x0x0_5x5x50x50_0x10" == "10x20_255x0x0_5x5x50x50_0x10";
    assert "ball" + "_" + "10x20_255x0x0_5x5x50x50_0x10" == "ball_10x20_255x0x0_5x5x50x50_0x10";
  }

  /** An example clip name reads as one point (10, 20), colour
      (255, 0, 0), region (5, 5, 50, 50) and window 0..10. */
  lemma BallExample(name: string)
    requires name == "ball_10x20_255x0x0_5x5x50x50_0x10"
    ensures Parse(name) == Ok(TestDescriptor("ball", [Point(10, 20)], Color32(255, 0, 0, 1), Rect(5, 5, 50, 50), 0, 10))
  {
    var d := TestDescriptor("ball", [Point(10, 20)], Color32(255, 0, 0, 1), Rect(5, 5, 50, 50), 0, 10);
    BallTokens(d);
    BallName();
    assert Format(d) == name;
    assert WellFormed(d);
    ParseFormat(d);
  }
}
