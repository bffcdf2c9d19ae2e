/**
 Raw records of the temperature API and the filter loop of `draw_visualization`
 that turns them into measurements.

 A raw record is one element of the JSON `result` array. The filter reads the
 `station` key and converts it with Python's `float()`, then does the same for
 `time`. A missing key (`KeyError`) or an unparseable string (`ValueError`)
 skips the record; any other failure of `float()` or of the lookup is a
 `TypeError`, which the loop does not catch and which ends the whole run.
 */
module Records {

  /** The result of parsing a string as a number. */
  datatype Option<T> = None | Some(value: T)

  /** A JSON value stored under one key of a record. Arrays and objects are
      lumped together: `float()` rejects both the same way. */
  datatype Value = Null | Bool(b: bool) | Number(n: real) | Text(s: string) | Compound

  /** One element of the `result` array: a JSON object, or anything else
      (a string, number, array or null, none of which can be indexed by a key). */
  datatype Entry = Object(fields: map<string, Value>) | NonObject

  /** A record both of whose fields were converted to numbers. */
  datatype Measurement = Measurement(time: real, temp: real)

  /** Python's `float()` applied to a string: the number it denotes, or
      `None` where Python raises `ValueError`. Left abstract. */
  type Parser = string -> Option<real>

  const StationKey: string := "station"
  const TimeKey: string := "time"

  /** What `float(v)` does: return a number or raise one of two exceptions. */
  datatype Coerced = Parsed(value: real) | ValueError | TypeError

  function ToFloat(parse: Parser, v: Value): (r: Coerced)
    ensures r.TypeError? <==> v.Null? || v.Compound?
    ensures v.Number? ==> r == Parsed(v.n)
    ensures r.ValueError? <==> v.Text? && parse(v.s).None?
    ensures v.Bool? ==> r.Parsed? && (r.value == 1.0 <==> v.b) && (r.value == 0.0 <==> !v.b)
    ensures v.Text? && parse(v.s).Some? ==> r == Parsed(parse(v.s).value)
  {
    match v
    case Null => TypeError
    case Bool(b) => Parsed(if b then 1.0 else 0.0)
    case Number(n) => Parsed(n)
    case Text(s) =>
      (match parse(s)
       case Some(x) => Parsed(x)
       case None => ValueError)
    case Compound => TypeError
  }

  /** An entry the filter keeps: an object whose `station` and `time` keys are
      both present and both convert to numbers. */
  ghost predicate Convertible(parse: Parser, e: Entry)
  {
    && e.Object?
    && StationKey in e.fields
    && TimeKey in e.fields
    && ToFloat(parse, e.fields[StationKey]).Parsed?
    && ToFloat(parse, e.fields[TimeKey]).Parsed?
  }

  /** The fate of one entry in the body of the filter loop. */
  datatype Step = Keep(m: Measurement) | Skip | Raise

  /** One iteration of the filter loop: `float(entry['station'])`, then
      `float(entry['time'])`, with `ValueError` and `KeyError` caught. */
  function ReadEntry(parse: Parser, e: Entry): (r: Step)
    ensures r.Keep? <==> Convertible(parse, e)
    ensures r.Keep? ==> r.m.temp == ToFloat(parse, e.fields[StationKey]).value
    ensures r.Keep? ==> r.m.time == ToFloat(parse, e.fields[TimeKey]).value
    ensures r.Skip? ==> e.Object?
    ensures e.Object? && StationKey !in e.fields ==> r.Skip?
    ensures e.Object? && StationKey in e.fields && ToFloat(parse, e.fields[StationKey]).ValueError? ==> r.Skip?
    ensures r.Raise? <==>
      || e.NonObject?
      || (StationKey in e.fields && ToFloat(parse, e.fields[StationKey]).TypeError?)
      || (&& StationKey in e.fields && ToFloat(parse, e.fields[StationKey]).Parsed?
          && TimeKey in e.fields && ToFloat(parse, e.fields[TimeKey]).TypeError?)
  {
    match e
    case NonObject => Raise
    case Object(fields) =>
      if StationKey !in fields then Skip
      else match ToFloat(parse, fields[StationKey])
        case TypeError => Raise
        case ValueError => Skip
        case Parsed(temp) =>
          if TimeKey !in fields then Skip
          else match ToFloat(parse, fields[TimeKey])
            case TypeError => Raise
            case ValueError => Skip
            case Parsed(time) => Keep(Measurement(time, temp))
  }

  /** The filter loop's outcome: the kept measurements in input order, or the
      index of the entry whose uncaught `TypeError` stopped the loop. */
  datatype FilterResult = Filtered(valid: seq<Measurement>) | Crashed(at: nat)

  /** The filter loop over the whole input, written over ever longer prefixes
      in the order the loop visits them. */
  function Filter(parse: Parser, data: seq<Entry>): (r: FilterResult)
    ensures r.Filtered? <==> forall j :: 0 <= j < |data| ==> !ReadEntry(parse, data[j]).Raise?
    ensures r.Filtered? ==> |r.valid| <= |data|
    ensures r.Crashed? ==> r.at < |data| && ReadEntry(parse, data[r.at]).Raise?
    ensures r.Crashed? ==> forall j :: 0 <= j < r.at ==> !ReadEntry(parse, data[j]).Raise?
    decreases |data|
  {
    if |data| == 0 then Filtered([])
    else
      var prev := Filter(parse, data[..|data| - 1]);
      if prev.Crashed? then prev
      else match ReadEntry(parse, data[|data| - 1])
        case Keep(m) => Filtered(prev.valid + [m])
        case Skip => prev
        case Raise => Crashed(|data| - 1)
  }

  /** Running the filter over `a + b` in one go, as the filter over `a`
      followed by the filter over `b`. */
  function Chain(x: FilterResult, y: FilterResult, offset: nat): FilterResult
  {
    if x.Crashed? then x
    else if y.Crashed? then Crashed(offset + y.at)
    else Filtered(x.valid + y.valid)
  }

  /** The filter distributes over concatenation: kept measurements come out
      in the order of their entries, and the first `TypeError` wins. */
  lemma {:induction false} FilterAppend(parse: Parser, a: seq<Entry>, b: seq<Entry>)
    ensures Filter(parse, a + b) == Chain(Filter(parse, a), Filter(parse, b), |a|)
    decreases |b|
  {
    if |b| == 0 {
      assert a + b == a;
      assert Filter(parse, a).Filtered? ==> Filter(parse, a).valid + [] == Filter(parse, a).valid;
    } else {
      var b' := b[..|b| - 1];
      assert (a + b)[..|a + b| - 1] == a + b';
      assert (a + b)[|a + b| - 1] == b[|b| - 1];
      FilterAppend(parse, a, b');
      var x, y := Filter(parse, a), Filter(parse, b');
      if !x.Crashed? && !y.Crashed? && ReadEntry(parse, b[|b| - 1]).Keep? {
        assert x.valid + y.valid + [ReadEntry(parse, b[|b| - 1]).m]
            == x.valid + (y.valid + [ReadEntry(parse, b[|b| - 1]).m]);
      }
    }
  }

  /** Filtering one entry keeps its measurement, drops it, or raises. */
  lemma {:induction false} FilterSingle(parse: Parser, e: Entry)
    ensures ReadEntry(parse, e).Keep? ==> Filter(parse, [e]) == Filtered([ReadEntry(parse, e).m])
    ensures ReadEntry(parse, e).Skip? ==> Filter(parse, [e]) == Filtered([])
    ensures ReadEntry(parse, e).Raise? ==> Filter(parse, [e]) == Crashed(0)
  {
    assert [e][..0] == [];
  }

  /** The filter keeps exactly the convertible entries: every kept measurement
      comes from some entry, and every convertible entry's measurement is kept. */
  lemma {:induction false} FilterKeepsExactly(parse: Parser, data: seq<Entry>, valid: seq<Measurement>)
    requires Filter(parse, data) == Filtered(valid)
    ensures forall k :: 0 <= k < |valid| ==>
              exists j :: 0 <= j < |data| && ReadEntry(parse, data[j]) == Keep(valid[k])
    ensures forall j :: 0 <= j < |data| && Convertible(parse, data[j]) ==>
              ReadEntry(parse, data[j]).m in valid
    decreases |data|
  {
    if |data| > 0 {
      var pre := data[..|data| - 1];
      var prev := Filter(parse, pre);
      FilterKeepsExactly(parse, pre, prev.valid);
      forall j | 0 <= j < |pre| ensures data[j] == pre[j] { }
      var last := ReadEntry(parse, data[|data| - 1]);
      if last.Keep? {
        assert valid == prev.valid + [last.m];
        forall k | 0 <= k < |valid|
          ensures exists j :: 0 <= j < |data| && ReadEntry(parse, data[j]) == Keep(valid[k])
        {
          if k < |prev.valid| {
            var j :| 0 <= j < |pre| && ReadEntry(parse, pre[j]) == Keep(prev.valid[k]);
            assert ReadEntry(parse, data[j]) == Keep(valid[k]);
          } else {
            assert ReadEntry(parse, data[|data| - 1]) == Keep(valid[k]);
          }
        }
      } else {
        assert valid == prev.valid;
        forall k | 0 <= k < |valid|
          ensures exists j :: 0 <= j < |data| && ReadEntry(parse, data[j]) == Keep(valid[k])
        {
          var j :| 0 <= j < |pre| && ReadEntry(parse, pre[j]) == Keep(prev.valid[k]);
          assert ReadEntry(parse, data[j]) == Keep(valid[k]);
        }
      }
    }
  }

  /** When no entry raises and none is kept, the filter produces nothing, and
      conversely. */
  lemma {:induction false} FilterEmptyIff(parse: Parser, data: seq<Entry>)
    requires Filter(parse, data).Filtered?
    ensures |Filter(parse, data).valid| == 0 <==> forall j :: 0 <= j < |data| ==> ReadEntry(parse, data[j]).Skip?
  {
    var valid := Filter(parse, data).valid;
    FilterKeepsExactly(parse, data, valid);
    if |valid| > 0 {
      var j :| 0 <= j < |data| && ReadEntry(parse, data[j]) == Keep(valid[0]);
      assert !ReadEntry(parse, data[j]).Skip?;
    }
  }

  /** When every entry converts, the filter keeps all of them, one-for-one and
      in order. */
  lemma {:induction false} FilterAllConvertible(parse: Parser, data: seq<Entry>)
    requires forall j :: 0 <= j < |data| ==> Convertible(parse, data[j])
    ensures Filter(parse, data).Filtered?
    ensures |Filter(parse, data).valid| == |data|
    ensures forall j :: 0 <= j < |data| ==> Filter(parse, data).valid[j] == ReadEntry(parse, data[j]).m
    decreases |data|
  {
    if |data| > 0 {
      var pre := data[..|data| - 1];
      FilterAllConvertible(parse, pre);
      assert forall j :: 0 <= j < |pre| ==> pre[j] == data[j];
    }
  }
}
