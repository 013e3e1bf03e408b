/** Walking time and distance as both ends print them. The client
    (routeManager.js, calculateWalkingTime) rounds to the nearest unit with
    Math.round; the server (app.py, route) truncates with int() and //. Both
    walk at 5000 m per hour. Arithmetic is on exact reals. */
module Units {
  import opened Text

  /** Seconds to walk `distance` metres: distance / (5000 / 3600). */
  function WalkSeconds(distance: real): (t: real)
    ensures t * 5000.0 == distance * 3600.0
  {
    distance * 18.0 / 25.0
  }

  /** A printed duration: "Ns", "Nmin" or "Nh Mmin". */
  datatype Duration = Seconds(s: int) | Minutes(m: int) | HoursMinutes(h: int, m: int)

  function Render(d: Duration): string
  {
    match d
    case Seconds(s) => IntToString(s) + "s"
    case Minutes(m) => IntToString(m) + "min"
    case HoursMinutes(h, m) => IntToString(h) + "h " + IntToString(m) + "min"
  }

  /** Math.round: the nearest integer, halves rounded up. */
  function JsRound(x: real): (r: int)
    ensures x - 0.5 < r as real <= x + 0.5
  {
    (x + 0.5).Floor
  }

  /** Python's int() on a float: truncation toward zero. */
  function Trunc(x: real): (r: int)
    ensures x >= 0.0 ==> r as real <= x < r as real + 1.0
    ensures x < 0.0 ==> r as real - 1.0 < x <= r as real
  {
    if x >= 0.0 then x.Floor else -((-x).Floor)
  }

  /** calculateWalkingTime: under a minute in rounded seconds, under an hour in
      rounded minutes, otherwise whole hours and the rounded minutes of the
      rest. Rounding lets the printed count reach 60 ("60s", "60min",
      "1h 60min"); each printed duration is within half its unit of the
      walking time. */
  function JsDuration(distance: real): (d: Duration)
    ensures var t := WalkSeconds(distance);
      && (d.Seconds? <==> t < 60.0)
      && (d.Seconds? ==> t - 0.5 < d.s as real <= t + 0.5 && d.s <= 60)
      && (d.Minutes? <==> 60.0 <= t < 3600.0)
      && (d.Minutes? ==> 1 <= d.m <= 60 && t - 30.0 < 60.0 * d.m as real <= t + 30.0)
      && (d.HoursMinutes? <==> 3600.0 <= t)
      && (d.HoursMinutes? ==>
            && d.h >= 1 && 0 <= d.m <= 60
            && 3600.0 * d.h as real <= t < 3600.0 * (d.h + 1) as real
            && t - 30.0 < 3600.0 * d.h as real + 60.0 * d.m as real <= t + 30.0)
  {
    var t := WalkSeconds(distance);
    if t < 60.0 then Seconds(JsRound(t))
    else if t < 3600.0 then Minutes(JsRound(t / 60.0))
    else
      var h := (t / 3600.0).Floor;
      HoursMinutes(h, JsRound((t - 3600.0 * h as real) / 60.0))
  }

  /** The walking time the route endpoint prints: the whole seconds, whole
      minutes, or whole hours and whole minutes of the walking time, each
      count truncated, so minutes stay below 60 and the printed duration is
      at most the walking time and less than one unit below it. */
  function PyDuration(total: real): (d: Duration)
    ensures var t := WalkSeconds(total);
      && (d.Seconds? <==> t < 60.0)
      && (d.Seconds? && t >= 0.0 ==> 0 <= d.s < 60 && d.s as real <= t < d.s as real + 1.0)
      && (d.Minutes? <==> 60.0 <= t < 3600.0)
      && (d.Minutes? ==> 1 <= d.m <= 59 && 60.0 * d.m as real <= t < 60.0 * (d.m + 1) as real)
      && (d.HoursMinutes? <==> 3600.0 <= t)
      && (d.HoursMinutes? ==>
            && d.h >= 1 && 0 <= d.m <= 59
            && 3600.0 * d.h as real + 60.0 * d.m as real <= t
            && t < 3600.0 * d.h as real + 60.0 * (d.m + 1) as real)
  {
    var t := WalkSeconds(total);
    if t < 60.0 then Seconds(Trunc(t))
    else if t < 3600.0 then Minutes(Trunc(t / 60.0))
    else
      var h := (t / 3600.0).Floor;
      var rest := t - 3600.0 * h as real;
      HoursMinutes(Trunc(h as real), Trunc((rest / 60.0).Floor as real))
  }

  /** The two ends can print different times for the same distance: 4975 m
      is 3582 s, which the client prints as "60min" and the server as
      "59min"; 9960 m is 7171.2 s, which the client prints as "1h 60min". */
  lemma ClientRoundsUpToSixty()
    ensures Render(JsDuration(4975.0)) == "60min"
    ensures Render(PyDuration(4975.0)) == "59min"
    ensures Render(JsDuration(9960.0)) == "1h 60min"
  {
    assert WalkSeconds(4975.0) == 3582.0;
    assert JsDuration(4975.0) == Minutes(60) by {
      assert (3582.0 / 60.0 + 0.5).Floor == 60;
    }
    assert PyDuration(4975.0) == Minutes(59) by {
      assert (3582.0 / 60.0).Floor == 59;
    }
    assert WalkSeconds(9960.0) == 7171.2;
    assert JsDuration(9960.0) == HoursMinutes(1, 60) by {
      assert (7171.2 / 3600.0).Floor == 1;
      assert ((7171.2 - 3600.0) / 60.0 + 0.5).Floor == 60;
    }
    assert NatToString(60) == "60" by {
      assert NatToString(6) == "6";
    }
    assert NatToString(59) == "59" by {
      assert NatToString(5) == "5";
    }
    assert NatToString(1) == "1";
  }

  /** Python's round(x) to an integer: the nearest integer, a tie going to
      the even neighbour. The route endpoint rounds the distance to one
      decimal, that is RoundHalfEven(10 * distance) tenths. */
  function RoundHalfEven(x: real): (r: int)
    ensures x - 0.5 <= r as real <= x + 0.5
    ensures (r as real == x - 0.5 || r as real == x + 0.5) ==> r % 2 == 0
  {
    var f := x.Floor;
    var frac := x - f as real;
    if frac < 0.5 then f
    else if frac > 0.5 then f + 1
    else if f % 2 == 0 then f
    else f + 1
  }

  /** How `${distance}m` prints a distance held in tenths of a metre: the
      integer part, a decimal digit only when it is not zero, then "m". */
  function DistanceText(tenths: int): (r: string)
    ensures |r| >= 2 && r[|r| - 1] == 'm'
    ensures tenths >= 0 && tenths % 10 == 0 ==> r == NatToString(tenths / 10) + "m"
    ensures tenths >= 0 && tenths % 10 != 0 ==> r == NatToString(tenths / 10) + "." + [DigitChar(tenths % 10)] + "m"
    ensures tenths < 0 ==> r[0] == '-'
    ensures tenths % 10 == 0 <==> '.' !in r
  {
    var sign := if tenths < 0 then "-" else "";
    var a: nat := if tenths < 0 then -tenths else tenths;
    var frac := if a % 10 == 0 then "" else "." + [DigitChar(a % 10)];
    assert frac != "" ==> frac[0] == '.';
    assert tenths % 10 != 0 ==> a % 10 != 0;
    sign + NatToString(a / 10) + frac + "m"
  }
}
