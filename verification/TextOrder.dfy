/**
 The order SQLite gives text columns, and how it relates to time for the RFC 3339
 timestamps the store writes: fractional seconds are printed without trailing zeros.
 */
module TextOrder {
  /** Byte order of text, which for UTF-8 is code point order. */
  predicate Less(a: string, b: string) {
    if b == "" then false
    else if a == "" then true
    else if a[0] == b[0] then Less(a[1..], b[1..])
    else a[0] < b[0]
  }

  lemma {:induction false} LessIsTotal(a: string, b: string)
    ensures if a == b then !Less(a, b) else Less(a, b) != Less(b, a)
    decreases |a|
  {
    if a != "" && b != "" {
      LessIsTotal(a[1..], b[1..]);
      assert a == [a[0]] + a[1..] && b == [b[0]] + b[1..];
    }
  }

  lemma {:induction false} LessIsTransitive(a: string, b: string, c: string)
    requires Less(a, b) && Less(b, c)
    ensures Less(a, c)
    decreases |a|
  {
    if a != "" && a[0] == b[0] && b[0] == c[0] {
      LessIsTransitive(a[1..], b[1..], c[1..]);
    }
  }

  // ------------------------------------------------------- timestamps as text

  predicate IsDigits(d: string) { forall i :: 0 <= i < |d| ==> '0' <= d[i] <= '9' }

  /** The value of a fraction's digits, between 0 and 1. */
  function Fraction(d: string): (v: real)
    requires IsDigits(d)
    ensures 0.0 <= v < 1.0
  {
    if d == "" then 0.0 else ((d[0] as int - '0' as int) as real + Fraction(d[1..])) / 10.0
  }

  /** A UTC timestamp: the text up to the seconds, which has a fixed width, and the digits
      of the fraction. */
  datatype Stamp = Stamp(second: string, digits: string)

  /** What follows the seconds. */
  function Suffix(d: string): string { if d == "" then "Z" else "." + d + "Z" }

  function Text(t: Stamp): string { t.second + Suffix(t.digits) }

  predicate Earlier(t: Stamp, u: Stamp)
    requires IsDigits(t.digits) && IsDigits(u.digits)
  {
    Less(t.second, u.second) || (t.second == u.second && Fraction(t.digits) < Fraction(u.digits))
  }

  lemma {:induction false} SamePrefix(p: string, a: string, b: string)
    ensures Less(p + a, p + b) == Less(a, b)
    decreases |p|
  {
    if p == "" {
      assert p + a == a && p + b == b;
    } else {
      assert (p + a)[1..] == p[1..] + a && (p + b)[1..] == p[1..] + b;
      SamePrefix(p[1..], a, b);
    }
  }

  lemma {:induction false} DigitsAsText(a: string, b: string)
    requires IsDigits(a) && IsDigits(b) && Fraction(a) < Fraction(b)
    ensures Less(a + "Z", b + "Z") <==> !(a <= b)
    decreases |a|
  {
    if a == "" {
      assert a + "Z" == "Z" && (b + "Z")[0] == b[0];
    } else {
      assert (a + "Z")[0] == a[0] && (b + "Z")[0] == b[0];
      if a[0] == b[0] {
        assert (a + "Z")[1..] == a[1..] + "Z" && (b + "Z")[1..] == b[1..] + "Z";
        DigitsAsText(a[1..], b[1..]);
        assert a <= b <==> a[1..] <= b[1..] by {
          assert a == [a[0]] + a[1..] && b == [b[0]] + b[1..];
        }
      }
    }
  }

  lemma {:induction false} FixedWidth(a: string, b: string, x: string, y: string)
    requires |a| == |b| && Less(a, b)
    ensures Less(a + x, b + y)
    decreases |a|
  {
    assert (a + x)[0] == a[0] && (b + y)[0] == b[0];
    if a[0] == b[0] {
      assert (a + x)[1..] == a[1..] + x && (b + y)[1..] == b[1..] + y;
      FixedWidth(a[1..], b[1..], x, y);
    }
  }

  /** For a timestamp and a later one, text order is time order if and only if they are not
      of the same second with the earlier fraction a prefix of the later one. */
  lemma TextOrderIsTimeOrder(t: Stamp, u: Stamp)
    requires IsDigits(t.digits) && IsDigits(u.digits) && |t.second| == |u.second| && Earlier(t, u)
    ensures Less(Text(t), Text(u)) <==> !(t.second == u.second && t.digits <= u.digits)
  {
    var a, b := t.digits, u.digits;
    LessIsTotal(t.second, u.second);
    if t.second != u.second {
      FixedWidth(t.second, u.second, Suffix(a), Suffix(b));
    } else {
      SamePrefix(t.second, Suffix(a), Suffix(b));
      if a != "" {
        DigitsAsText(a, b);
        SamePrefix(".", a + "Z", b + "Z");
        assert Suffix(a) == "." + (a + "Z") && Suffix(b) == "." + (b + "Z");
      }
    }
  }

  /** In every second, .5 sorts after .52, although it is earlier. */
  lemma EarlierSortsLater(second: string)
    ensures Earlier(Stamp(second, "5"), Stamp(second, "52"))
    ensures Less(Text(Stamp(second, "52")), Text(Stamp(second, "5")))
  {
    assert "52"[1..] == "2" && "5"[1..] == "" && "2"[1..] == "";
    assert Fraction("2") == 0.2 && Fraction("52") == 0.52 && Fraction("5") == 0.5;
    TextOrderIsTimeOrder(Stamp(second, "5"), Stamp(second, "52"));
    assert "5" <= "52";
    assert |Text(Stamp(second, "5"))| != |Text(Stamp(second, "52"))|;
    LessIsTotal(Text(Stamp(second, "5")), Text(Stamp(second, "52")));
  }

  /** Timestamps of different times have different texts. */
  lemma TextIsInjective(t: Stamp, u: Stamp)
    requires |t.second| == |u.second| && Text(t) == Text(u)
    requires IsDigits(t.digits) && IsDigits(u.digits)
    ensures t == u
  {
    assert t.second == Text(t)[..|t.second|] == Text(u)[..|t.second|] == u.second;
    assert Suffix(t.digits) == Text(t)[|t.second|..] == Text(u)[|t.second|..] == Suffix(u.digits);
    if t.digits != "" {
      assert Suffix(t.digits)[1..|Suffix(t.digits)| - 1] == t.digits;
    }
    if u.digits != "" {
      assert Suffix(u.digits)[1..|Suffix(u.digits)| - 1] == u.digits;
    }
  }
}
