/**
 The data path of `draw_visualization`, from the raw `result` array to the
 list of dots drawn on the canvas, with every way the run can end early:
 no data, an uncaught `TypeError` in the filter loop, nothing left after
 filtering, or a `ZeroDivisionError` while colouring the first dot.
 */
module Visualization {
  import opened Records
  import opened Extrema
  import opened Layout
  import opened Colour

  /** One dot: its centre, the HSV colour it is filled with, and its radius. */
  datatype VisualPoint = VisualPoint(x: real, y: real, colour: Hsv, radius: real)

  /** The dot for measurement `i` of `valid`: one iteration of the drawing
      loop up to the ellipse call. */
  function PointAt(valid: seq<Measurement>, i: nat, e: Extremes): (r: Checked<VisualPoint>)
    requires i < |valid|
    ensures r.ZeroDivisionError? <==> e.minTemp == e.maxTemp
    ensures r.Ok? ==> r.value.x == X(i, |valid|)
    ensures r.Ok? ==> r.value.y == Y(valid[i].temp) && r.value.radius == Radius(valid[i].temp)
    ensures r.Ok? ==> Hue(valid[i].temp, e.minTemp, e.maxTemp) == Ok(r.value.colour.h)
    ensures r.Ok? ==> r.value.colour.s == Saturation && r.value.colour.v == Brightness
  {
    var temp := valid[i].temp;
    match ColourOf(temp, e.minTemp, e.maxTemp)
    case ZeroDivisionError => ZeroDivisionError
    case Ok(c) => Ok(VisualPoint(X(i, |valid|), Y(temp), c, Radius(temp)))
  }

  /** The first `k` iterations of the drawing loop: one dot per measurement,
      in order, unless colouring raises, which it does on the very first dot
      when the extremes coincide. */
  function MapPoints(valid: seq<Measurement>, k: nat, e: Extremes): (r: Checked<seq<VisualPoint>>)
    requires k <= |valid|
    ensures r.ZeroDivisionError? <==> 0 < k && e.minTemp == e.maxTemp
    ensures r.Ok? ==> |r.value| == k
    ensures r.Ok? ==> forall i :: 0 <= i < k ==> PointAt(valid, i, e) == Ok(r.value[i])
    decreases k
  {
    if k == 0 then Ok([])
    else match MapPoints(valid, k - 1, e)
      case ZeroDivisionError => ZeroDivisionError
      case Ok(ps) =>
        (match PointAt(valid, k - 1, e)
         case ZeroDivisionError => ZeroDivisionError
         case Ok(p) => Ok(ps + [p]))
  }

  /** How a run of `draw_visualization` ends. Only `Drawn` reaches
      `image.save`; every other outcome writes no file. */
  datatype Run =
    | NoData
    | TypeErrorRaised(entry: nat)
    | FilteredEmpty
    | ZeroDivisionRaised
    | Drawn(points: seq<VisualPoint>)

  /** `draw_visualization(data)` up to the point where the dots are handed to
      the rasteriser. */
  function Draw(parse: Parser, data: seq<Entry>): (r: Run)
    ensures r.NoData? <==> |data| == 0
    ensures r.TypeErrorRaised? ==> r.entry < |data| && ReadEntry(parse, data[r.entry]).Raise?
    ensures r.TypeErrorRaised? ==> forall j :: 0 <= j < r.entry ==> !ReadEntry(parse, data[j]).Raise?
    ensures r.Drawn? ==> 0 < |r.points| <= |data|
  {
    if |data| == 0 then NoData
    else match Filter(parse, data)
      case Crashed(k) => TypeErrorRaised(k)
      case Filtered(valid) =>
        if |valid| == 0 then FilteredEmpty
        else
          (match MapPoints(valid, |valid|, ExtremesOf(valid))
           case ZeroDivisionError => ZeroDivisionRaised
           case Ok(ps) => Drawn(ps))
  }

  /** The dots of a finished drawing loop: one per measurement, in order,
      the first on the left edge of the band, each at the height of its
      anomaly and with its radius. */
  lemma {:induction false} PointsLayout(valid: seq<Measurement>, e: Extremes, ps: seq<VisualPoint>)
    requires 0 < |valid|
    requires MapPoints(valid, |valid|, e) == Ok(ps)
    ensures |ps| == |valid|
    ensures ps[0].x == XStart
    ensures forall i :: 0 <= i < |ps| ==> ps[i].y == Y(valid[i].temp) && ps[i].radius == Radius(valid[i].temp)
  {
    assert PointAt(valid, 0, e) == Ok(ps[0]);
    forall i | 0 <= i < |ps|
      ensures ps[i].y == Y(valid[i].temp) && ps[i].radius == Radius(valid[i].temp)
    {
      assert PointAt(valid, i, e) == Ok(ps[i]);
    }
  }

  /** The dots of a finished drawing loop run strictly left to right. */
  lemma {:induction false} PointsLeftToRight(valid: seq<Measurement>, e: Extremes, ps: seq<VisualPoint>)
    requires MapPoints(valid, |valid|, e) == Ok(ps)
    ensures forall i, j :: 0 <= i < j < |ps| ==> ps[i].x < ps[j].x
  {
    forall i, j | 0 <= i < j < |ps|
      ensures ps[i].x < ps[j].x
    {
      assert PointAt(valid, i, e) == Ok(ps[i]);
      assert PointAt(valid, j, e) == Ok(ps[j]);
      XStrictlyIncreasing(i, j, |ps|);
    }
  }

  /** The hues of a finished drawing loop coloured against the extremes of
      its own measurements: all between red and blue, with the coldest dot
      blue and the warmest red. */
  lemma {:induction false} PointsHues(valid: seq<Measurement>, ps: seq<VisualPoint>)
    requires 0 < |valid|
    requires MapPoints(valid, |valid|, ExtremesOf(valid)) == Ok(ps)
    ensures forall i :: 0 <= i < |ps| ==> 0.0 <= ps[i].colour.h <= ColdHue
    ensures exists i :: 0 <= i < |ps| && ps[i].colour.h == ColdHue
    ensures exists i :: 0 <= i < |ps| && ps[i].colour.h == 0.0
  {
    var e := ExtremesOf(valid);
    forall i | 0 <= i < |ps|
      ensures 0.0 <= ps[i].colour.h <= ColdHue
    {
      assert PointAt(valid, i, e) == Ok(ps[i]);
    }
    var a :| 0 <= a < |valid| && valid[a].temp == e.minTemp;
    assert PointAt(valid, a, e) == Ok(ps[a]);
    var b :| 0 <= b < |valid| && valid[b].temp == e.maxTemp;
    assert PointAt(valid, b, e) == Ok(ps[b]);
  }

  /** A completed run draws the dots of the drawing loop over the kept
      measurements, coloured against their own extremes. */
  lemma {:induction false} DrawnFromFiltered(parse: Parser, data: seq<Entry>)
    requires Draw(parse, data).Drawn?
    ensures Filter(parse, data).Filtered? && 0 < |Filter(parse, data).valid|
    ensures var valid := Filter(parse, data).valid;
      MapPoints(valid, |valid|, ExtremesOf(valid)) == Ok(Draw(parse, data).points)
  {
  }

  /** Where a completed run puts its dots: one per kept measurement, the
      first on the left edge of the band and the rest strictly to its right,
      each at its measurement's height and with its radius. */
  lemma {:induction false} DrawnLayout(parse: Parser, data: seq<Entry>)
    requires Draw(parse, data).Drawn?
    ensures Filter(parse, data).Filtered?
    ensures var valid := Filter(parse, data).valid;
      var ps := Draw(parse, data).points;
      && 0 < |ps| == |valid|
      && ps[0].x == XStart
      && (forall i, j :: 0 <= i < j < |ps| ==> ps[i].x < ps[j].x)
      && (forall i :: 0 <= i < |ps| ==> ps[i].y == Y(valid[i].temp) && ps[i].radius == Radius(valid[i].temp))
  {
    DrawnFromFiltered(parse, data);
    var valid := Filter(parse, data).valid;
    var ps := Draw(parse, data).points;
    PointsLayout(valid, ExtremesOf(valid), ps);
    PointsLeftToRight(valid, ExtremesOf(valid), ps);
  }

  /** How a completed run colours its dots: every hue between red and blue,
      the coldest dot blue and the warmest red. */
  lemma {:induction false} DrawnHues(parse: Parser, data: seq<Entry>)
    requires Draw(parse, data).Drawn?
    ensures var ps := Draw(parse, data).points;
      && (forall i :: 0 <= i < |ps| ==> 0.0 <= ps[i].colour.h <= ColdHue)
      && (exists i :: 0 <= i < |ps| && ps[i].colour.h == ColdHue)
      && (exists i :: 0 <= i < |ps| && ps[i].colour.h == 0.0)
  {
    DrawnFromFiltered(parse, data);
    var valid := Filter(parse, data).valid;
    PointsHues(valid, Draw(parse, data).points);
  }

  /** The run stops at the empty-data check after filtering exactly when the
      input is non-empty and every entry is skipped. */
  lemma {:induction false} FilteredEmptyIff(parse: Parser, data: seq<Entry>)
    ensures Draw(parse, data) == FilteredEmpty
        <==> 0 < |data| && forall j :: 0 <= j < |data| ==> ReadEntry(parse, data[j]).Skip?
  {
    if Filter(parse, data).Filtered? {
      FilterEmptyIff(parse, data);
    }
  }

  /** The division in the colour formula fails exactly when filtering
      succeeds with at least one measurement and all kept temperatures are
      equal. */
  lemma {:induction false} ZeroDivisionIff(parse: Parser, data: seq<Entry>)
    ensures Draw(parse, data) == ZeroDivisionRaised
        <==> && Filter(parse, data).Filtered?
             && 0 < |Filter(parse, data).valid|
             && var valid := Filter(parse, data).valid;
                forall i, j :: 0 <= i < |valid| && 0 <= j < |valid| ==> valid[i].temp == valid[j].temp
  {
    var f := Filter(parse, data);
    if f.Filtered? && 0 < |f.valid| {
      DegenerateIffConstant(f.valid);
    }
  }

  /** The defect in the colour formula in its smallest form: a single valid
      record has equal extremes, so the run raises instead of drawing. */
  lemma {:induction false} SingleRecordRaises(parse: Parser, e: Entry)
    requires Convertible(parse, e)
    ensures Draw(parse, [e]) == ZeroDivisionRaised
  {
    FilterSingle(parse, e);
    var valid := Filter(parse, [e]).valid;
    assert |valid| == 1;
    DegenerateIffConstant(valid);
  }

  /** Three well-formed records whose temperatures are 0.5, -0.3 and 1.1 become
      three dots spaced a third of the band apart, at heights 300, 460 and
      180, coloured from the range -0.3 .. 1.1. */
  lemma {:induction false} ThreeRecords(parse: Parser)
    requires parse("0.5") == Some(0.5) && parse("-0.3") == Some(-0.3) && parse("1.1") == Some(1.1)
    requires parse("2020.5") == Some(2020.5) && parse("2020.6") == Some(2020.6) && parse("2020.7") == Some(2020.7)
    ensures
      var data := [
        Object(map[StationKey := Text("0.5"), TimeKey := Text("2020.5")]),
        Object(map[StationKey := Text("-0.3"), TimeKey := Text("2020.6")]),
        Object(map[StationKey := Text("1.1"), TimeKey := Text("2020.7")])];
      Draw(parse, data) == Drawn(ThreePoints())
  {
    var data := [
      Object(map[StationKey := Text("0.5"), TimeKey := Text("2020.5")]),
      Object(map[StationKey := Text("-0.3"), TimeKey := Text("2020.6")]),
      Object(map[StationKey := Text("1.1"), TimeKey := Text("2020.7")])];
    var valid := [Measurement(2020.5, 0.5), Measurement(2020.6, -0.3), Measurement(2020.7, 1.1)];
    assert ReadEntry(parse, data[0]) == Keep(valid[0]);
    assert ReadEntry(parse, data[1]) == Keep(valid[1]);
    assert ReadEntry(parse, data[2]) == Keep(valid[2]);
    FilterAllConvertible(parse, data);
    assert Filter(parse, data) == Filtered(valid);
    ThreeMeasurementsDrawn(valid);
  }

  /** The dots of the three-record example. */
  function ThreePoints(): seq<VisualPoint>
  {
    [ VisualPoint(50.0, 300.0, Hsv(0.66 * 3.0 / 7.0, 0.9, 0.95), 5.5),
      VisualPoint(50.0 + 1100.0 / 3.0, 460.0, Hsv(0.66, 0.9, 0.95), 4.9),
      VisualPoint(50.0 + 2200.0 / 3.0, 180.0, Hsv(0.0, 0.9, 0.95), 7.3) ]
  }

  lemma {:induction false} ThreeMeasurementsDrawn(valid: seq<Measurement>)
    requires valid == [Measurement(2020.5, 0.5), Measurement(2020.6, -0.3), Measurement(2020.7, 1.1)]
    ensures MapPoints(valid, 3, ExtremesOf(valid)) == Ok(ThreePoints())
  {
    var e := ExtremesOf(valid);
    assert e.minTemp <= valid[1].temp && valid[2].temp <= e.maxTemp;
    var a :| 0 <= a < 3 && valid[a].temp == e.minTemp;
    var b :| 0 <= b < 3 && valid[b].temp == e.maxTemp;
    assert e == Extremes(-0.3, 1.1);
    var ps := ThreePoints();
    assert PointAt(valid, 0, e) == Ok(ps[0]);
    assert PointAt(valid, 1, e) == Ok(ps[1]);
    assert PointAt(valid, 2, e) == Ok(ps[2]);
    var r := MapPoints(valid, 3, e);
    assert r.Ok?;
    assert r.value == ps;
  }

  /** A record without a `station` key among valid ones is skipped without
      raising: three records give two measurements. */
  lemma {:induction false} MissingStationSkipped(parse: Parser)
    requires parse("0.5") == Some(0.5) && parse("1.1") == Some(1.1)
    requires parse("2020.5") == Some(2020.5) && parse("2020.7") == Some(2020.7)
    ensures
      var data := [
        Object(map[StationKey := Text("0.5"), TimeKey := Text("2020.5")]),
        Object(map[TimeKey := Text("2020.6")]),
        Object(map[StationKey := Text("1.1"), TimeKey := Text("2020.7")])];
      Filter(parse, data) == Filtered([Measurement(2020.5, 0.5), Measurement(2020.7, 1.1)])
  {
    var data := [
      Object(map[StationKey := Text("0.5"), TimeKey := Text("2020.5")]),
      Object(map[TimeKey := Text("2020.6")]),
      Object(map[StationKey := Text("1.1"), TimeKey := Text("2020.7")])];
    var m0, m2 := Measurement(2020.5, 0.5), Measurement(2020.7, 1.1);
    assert ReadEntry(parse, data[0]) == Keep(m0);
    assert ReadEntry(parse, data[1]) == Skip;
    assert ReadEntry(parse, data[2]) == Keep(m2);
    FilterSingle(parse, data[0]);
    assert data[..1] == [data[0]];
    assert Filter(parse, data[..1]) == Filtered([m0]);
    assert data[..2][..1] == data[..1];
    assert Filter(parse, data[..2]) == Filtered([m0]);
    assert data[..3][..2] == data[..2];
    assert data[..3] == data;
  }
}
