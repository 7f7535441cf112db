/** Conversion of an EXIF degrees/minutes/seconds triple to decimal degrees, over exact reals. */
module Degrees {
  import opened Wrappers
  import opened Libraries

  /** Every rational in the list can be divided out. */
  predicate AllDivisible(rs: seq<Rational>) {
    forall i :: 0 <= i < |rs| ==> rs[i].den != 0
  }

  function Value(q: Rational): real
    requires q.den != 0
  {
    q.num as real / q.den as real
  }

  /**
   * `_convert_to_degrees`: each element is divided out (a zero denominator raises) and the
   * list is unpacked into exactly three values (another length raises); either exception,
   * and values that are not rationals, give None.
   */
  function ConvertToDegrees(values: TagValues): (r: Option<real>)
    ensures r.Some? <==> values.Ratios? && |values.ratios| == 3 && AllDivisible(values.ratios)
    ensures r.Some? ==>
      var rs := values.ratios;
      r.value * 3600.0 == Value(rs[0]) * 3600.0 + Value(rs[1]) * 60.0 + Value(rs[2])
  {
    match values
    case Ratios(rs) =>
      if AllDivisible(rs) && |rs| == 3 then
        Some(Value(rs[0]) + Value(rs[1]) / 60.0 + Value(rs[2]) / 3600.0)
      else
        None
    case _ => None
  }

  /** Whole degrees and whole minutes below 60, with seconds in [0, 60), give a value inside that degree. */
  lemma ConvertStaysWithinDegree(d: nat, m: nat, s: Rational)
    requires m < 60 && s.den != 0 && 0.0 <= Value(s) < 60.0
    ensures var r := ConvertToDegrees(Ratios([Rational(d, 1), Rational(m, 1), s]));
      r.Some? && d as real <= r.value < d as real + 1.0
  {
  }

  /** 40 deg 26 min 46 sec is 40 + 26/60 + 46/3600 = 72803/1800 degrees. */
  lemma ConvertExample()
    ensures ConvertToDegrees(Ratios([Rational(40, 1), Rational(26, 1), Rational(46, 1)])) == Some(72803.0 / 1800.0)
  {
  }

  /** A zero denominator anywhere, even in a list of the wrong length, gives None and no exception. */
  lemma ConvertRejectsZeroDenominator(rs: seq<Rational>, k: nat)
    requires k < |rs| && rs[k].den == 0
    ensures ConvertToDegrees(Ratios(rs)) == None
  {
  }
}
