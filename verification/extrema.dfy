/**
 The minimum and maximum temperature over the filtered measurements, as
 Python's `min` and `max` compute them: one left-to-right scan each, keeping
 the current best and replacing it only on a strict improvement.
 */
module Extrema {
  import opened Records

  /** The temperatures of the filtered measurements, in order. */
  function Temps(valid: seq<Measurement>): (ts: seq<real>)
    ensures |ts| == |valid|
    ensures forall i :: 0 <= i < |valid| ==> ts[i] == valid[i].temp
  {
    seq(|valid|, i requires 0 <= i < |valid| => valid[i].temp)
  }

  /** Python's `min` over a non-empty list. */
  function Min(s: seq<real>): (r: real)
    requires |s| > 0
    ensures r in s
    ensures forall t :: t in s ==> r <= t
    decreases |s|
  {
    if |s| == 1 then s[0]
    else
      assert s == s[..|s| - 1] + [s[|s| - 1]];
      var best := Min(s[..|s| - 1]);
      if s[|s| - 1] < best then s[|s| - 1] else best
  }

  /** Python's `max` over a non-empty list. */
  function Max(s: seq<real>): (r: real)
    requires |s| > 0
    ensures r in s
    ensures forall t :: t in s ==> t <= r
    decreases |s|
  {
    if |s| == 1 then s[0]
    else
      assert s == s[..|s| - 1] + [s[|s| - 1]];
      var best := Max(s[..|s| - 1]);
      if s[|s| - 1] > best then s[|s| - 1] else best
  }

  /** The pair `min_temp, max_temp`. */
  datatype Extremes = Extremes(minTemp: real, maxTemp: real)

  /** The extremes of a non-empty list of measurements: every temperature lies
      between them, and each is the temperature of some measurement. */
  function ExtremesOf(valid: seq<Measurement>): (e: Extremes)
    requires |valid| > 0
    ensures e.minTemp <= e.maxTemp
    ensures forall i :: 0 <= i < |valid| ==> e.minTemp <= valid[i].temp <= e.maxTemp
    ensures exists i :: 0 <= i < |valid| && valid[i].temp == e.minTemp
    ensures exists i :: 0 <= i < |valid| && valid[i].temp == e.maxTemp
  {
    var ts := Temps(valid);
    assert forall i :: 0 <= i < |valid| ==> ts[i] in ts;
    var lo, hi := Min(ts), Max(ts);
    assert exists i :: 0 <= i < |ts| && ts[i] == lo;
    assert exists i :: 0 <= i < |ts| && ts[i] == hi;
    Extremes(lo, hi)
  }

  /** The two extremes coincide exactly when every measurement has the same
      temperature. */
  lemma {:induction false} DegenerateIffConstant(valid: seq<Measurement>)
    requires |valid| > 0
    ensures ExtremesOf(valid).minTemp == ExtremesOf(valid).maxTemp
        <==> forall i, j :: 0 <= i < |valid| && 0 <= j < |valid| ==> valid[i].temp == valid[j].temp
  {
    var e := ExtremesOf(valid);
    if forall i, j :: 0 <= i < |valid| && 0 <= j < |valid| ==> valid[i].temp == valid[j].temp {
      var a :| 0 <= a < |valid| && valid[a].temp == e.minTemp;
      var b :| 0 <= b < |valid| && valid[b].temp == e.maxTemp;
      assert valid[a].temp == valid[b].temp;
    }
  }
}
