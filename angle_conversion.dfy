/** Conversion between decimal degrees and degrees-minutes-seconds. */
module AngleConversion {
  import opened Geo

  /** Whole degrees (carrying the sign), whole minutes and fractional seconds. */
  datatype Dms = Dms(degrees: int, minutes: int, seconds: real)

  /** Decimal degrees to DMS: the magnitude is truncated to whole degrees and
      whole minutes (int() of a non-negative value is its floor), and the sign
      is put back on the degrees alone. */
  function DecimalToDms(decimalDegrees: real): (r: Dms)
    ensures 0 <= r.minutes < 60 && 0.0 <= r.seconds < 60.0
    ensures Abs(r.degrees as real) == Abs(decimalDegrees).Floor as real
    ensures decimalDegrees >= 0.0 ==> r.degrees >= 0
    ensures r.degrees < 0 <==> decimalDegrees <= -1.0
  {
    var isPositive := decimalDegrees >= 0.0;
    var magnitude := Abs(decimalDegrees);
    var degrees := magnitude.Floor;
    var minutesFloat := (magnitude - degrees as real) * 60.0;
    var minutes := minutesFloat.Floor;
    var seconds := (minutesFloat - minutes as real) * 60.0;
    Dms(if isPositive then degrees else -degrees, minutes, seconds)
  }

  /** DMS to decimal degrees: minutes and seconds are added to the degrees.
      For normalised minutes and seconds they only add a fraction of a degree,
      so the whole-degree part of the result is the degrees. */
  function DmsToDecimal(degrees: int, minutes: int, seconds: real): (r: real)
    ensures 0 <= minutes < 60 && 0.0 <= seconds < 60.0 ==>
      degrees as real <= r < degrees as real + 1.0 && r.Floor == degrees
    ensures r - degrees as real == (minutes as real * 60.0 + seconds) / 3600.0
  {
    degrees as real + minutes as real / 60.0 + seconds / 3600.0
  }

  /** For a non-negative angle the conversion round-trips exactly. */
  lemma RoundTripNonNegative(x: real)
    requires x >= 0.0
    ensures var d := DecimalToDms(x); DmsToDecimal(d.degrees, d.minutes, d.seconds) == x
  {
    var degrees := x.Floor;
    var minutesFloat := (x - degrees as real) * 60.0;
    var minutes := minutesFloat.Floor;
    var seconds := (minutesFloat - minutes as real) * 60.0;
    assert DecimalToDms(x) == Dms(degrees, minutes, seconds);
    assert minutes as real / 60.0 + seconds / 3600.0 == minutesFloat / 60.0;
  }

  /** A normalised non-negative DMS value survives the trip through decimal
      degrees unchanged. */
  lemma RoundTripFromDms(degrees: int, minutes: int, seconds: real)
    requires degrees >= 0 && 0 <= minutes < 60 && 0.0 <= seconds < 60.0
    ensures DecimalToDms(DmsToDecimal(degrees, minutes, seconds)) == Dms(degrees, minutes, seconds)
  {
    var x := DmsToDecimal(degrees, minutes, seconds);
    var fraction := minutes as real / 60.0 + seconds / 3600.0;
    assert 0.0 <= fraction < 1.0;
    assert x.Floor == degrees;
    var minutesFloat := (x - degrees as real) * 60.0;
    assert minutesFloat == minutes as real + seconds / 60.0;
    assert minutesFloat.Floor == minutes;
  }

  /** For a negative angle the trip moves the value up by twice its fractional
      part: the minutes and seconds are added to the negated degrees. */
  lemma RoundTripNegative(x: real)
    requires x < 0.0
    ensures var d := DecimalToDms(x);
      DmsToDecimal(d.degrees, d.minutes, d.seconds) == x + 2.0 * (-x - (-x).Floor as real)
  {
    var magnitude := -x;
    var degrees := magnitude.Floor;
    var minutesFloat := (magnitude - degrees as real) * 60.0;
    var minutes := minutesFloat.Floor;
    var seconds := (minutesFloat - minutes as real) * 60.0;
    assert DecimalToDms(x) == Dms(-degrees, minutes, seconds);
    assert minutes as real / 60.0 + seconds / 3600.0 == minutesFloat / 60.0;
  }

  /** Hence the conversion round-trips exactly when the angle is non-negative
      or a whole number of degrees. */
  lemma RoundTripExactly(x: real)
    ensures var d := DecimalToDms(x);
      DmsToDecimal(d.degrees, d.minutes, d.seconds) == x <==> x >= 0.0 || x.Floor as real == x
  {
    if x >= 0.0 {
      RoundTripNonNegative(x);
    } else {
      RoundTripNegative(x);
      var n := (-x).Floor;
      if n as real == -x {
        assert x == (-n) as real;
        assert x.Floor == -n;
      }
      if x.Floor as real == x {
        var m := x.Floor;
        assert -x == (-m) as real;
        assert n == -m;
      }
    }
  }

  /** Two concrete inputs: -1.5 comes back as -0.5, and -0.5 loses its sign. */
  lemma NegativeRoundTripFails()
    ensures DecimalToDms(-1.5) == Dms(-1, 30, 0.0)
    ensures DmsToDecimal(-1, 30, 0.0) == -0.5
    ensures DecimalToDms(-0.5) == Dms(0, 30, 0.0)
    ensures DmsToDecimal(0, 30, 0.0) == 0.5
  {
    assert (1.5).Floor == 1;
    assert (30.0).Floor == 30;
    assert (0.5).Floor == 0;
  }

  /** DMS with the sign held apart from the magnitude, so that it survives
      even when the whole-degree part is zero. */
  datatype SignedDms = SignedDms(negative: bool, degrees: nat, minutes: nat, seconds: real)

  function DecimalToSignedDms(decimalDegrees: real): (r: SignedDms)
    ensures r.minutes < 60 && 0.0 <= r.seconds < 60.0
    ensures r.negative <==> decimalDegrees < 0.0
    ensures var d := DecimalToDms(decimalDegrees);
      r.degrees as real == Abs(d.degrees as real) && r.minutes == d.minutes && r.seconds == d.seconds
  {
    var magnitude := Abs(decimalDegrees);
    var degrees := magnitude.Floor;
    var minutesFloat := (magnitude - degrees as real) * 60.0;
    var minutes := minutesFloat.Floor;
    var seconds := (minutesFloat - minutes as real) * 60.0;
    SignedDms(decimalDegrees < 0.0, degrees, minutes, seconds)
  }

  /** The sign applies to the whole magnitude, minutes and seconds included. */
  function SignedDmsToDecimal(d: SignedDms): real
  {
    var magnitude := d.degrees as real + d.minutes as real / 60.0 + d.seconds / 3600.0;
    if d.negative then -magnitude else magnitude
  }

  /** With the sign carried separately the conversion round-trips for every angle. */
  lemma SignedRoundTrip(x: real)
    ensures SignedDmsToDecimal(DecimalToSignedDms(x)) == x
  {
    var d := DecimalToSignedDms(x);
    RoundTripNonNegative(Abs(x));
    assert DecimalToDms(Abs(x)).minutes == d.minutes && DecimalToDms(Abs(x)).seconds == d.seconds;
  }
}
