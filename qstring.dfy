/**
 * `QString::arg(a)` on a text: the lowest-numbered place marker left in the
 * text (`%n` or `%nn`, optionally written `%Ln`) is found, and every
 * occurrence of that marker is replaced by `a`; a text without markers is
 * returned unchanged. Since each call scans the whole text, a chained
 * `.arg(x).arg(y)` also scans the markers that `x` brought in.
 */
module QStrings {
  import opened Wrappers

  datatype Marker = Marker(number: nat, length: nat)

  predicate IsDigit(c: char) {
    '0' <= c <= '9'
  }

  function DigitValue(c: char): nat
    requires IsDigit(c)
  {
    (c as int) - ('0' as int)
  }

  /**
   * The place marker at the front of `s`: '%', an optional 'L', then one or
   * two digits (a second digit is always taken).
   */
  function MarkerAt(s: string): (r: Option<Marker>)
    ensures r.Some? ==> 2 <= r.value.length <= |s| && r.value.number < 100 && s[0] == '%'
  {
    if s == [] || s[0] != '%' then None
    else
      var j := if 1 < |s| && s[1] == 'L' then 2 else 1;
      if !(j < |s| && IsDigit(s[j])) then None
      else if j + 1 < |s| && IsDigit(s[j + 1]) then Some(Marker(10 * DigitValue(s[j]) + DigitValue(s[j + 1]), j + 2))
      else Some(Marker(DigitValue(s[j]), j + 1))
  }

  function MinOption(a: nat, b: Option<nat>): nat {
    if b.Some? && b.value < a then b.value else a
  }

  /** The lowest marker number in `s`, scanning front to back and skipping each marker found. */
  function LowestMarker(s: string): (r: Option<nat>)
    decreases |s|
  {
    if s == [] then None
    else match MarkerAt(s)
      case Some(m) => Some(MinOption(m.number, LowestMarker(s[m.length..])))
      case None => LowestMarker(s[1..])
  }

  /** `s` with every marker numbered `n` replaced by `a`; other markers and text are copied. */
  function Replace(s: string, n: nat, a: string): string
    decreases |s|
  {
    if s == [] then []
    else match MarkerAt(s)
      case Some(m) => (if m.number == n then a else s[..m.length]) + Replace(s[m.length..], n, a)
      case None => [s[0]] + Replace(s[1..], n, a)
  }

  /** `QString::arg(a)`. */
  function Arg(s: string, a: string): string {
    match LowestMarker(s)
    case None => s
    case Some(n) => Replace(s, n, a)
  }

  /** No place marker starts anywhere in `s`. */
  predicate NoMarkers(s: string) {
    forall k :: 0 <= k < |s| ==> MarkerAt(s[k..]).None?
  }

  /** A text that cannot continue a marker begun before it: empty, or not starting with 'L' or a digit. */
  predicate Separates(t: string) {
    t == [] || !(t[0] == 'L' || IsDigit(t[0]))
  }

  /** A text without '%' has no markers. */
  lemma NoPercentNoMarkers(s: string)
    requires '%' !in s
    ensures NoMarkers(s)
  {
    forall k | 0 <= k < |s|
      ensures MarkerAt(s[k..]).None?
    {
      assert s[k..][0] == s[k];
    }
  }

  /** A text without markers gains none from what follows it, when that cannot continue a marker. */
  lemma MarkerExtend(x: string, t: string)
    requires x != [] && MarkerAt(x).None? && Separates(t)
    ensures MarkerAt(x + t).None?
  {
    var s := x + t;
    assert s[0] == x[0];
    if x[0] == '%' {
      if |x| == 1 {
        assert s[1..] == t;
      } else {
        assert s[1] == x[1];
        if x[1] == 'L' && |x| == 2 {
          assert s[2..] == t;
        } else if x[1] == 'L' {
          assert s[2] == x[2];
        }
      }
    }
  }

  /** A marker-free prefix is scanned as plain text. */
  lemma {:induction false} LowestMarkerSkips(u: string, t: string)
    requires NoMarkers(u) && Separates(t)
    ensures LowestMarker(u + t) == LowestMarker(t)
    decreases |u|
  {
    if u == [] {
      assert u + t == t;
    } else {
      assert u[0..] == u;
      MarkerExtend(u, t);
      assert (u + t)[1..] == u[1..] + t;
      assert NoMarkers(u[1..]) by {
        forall k | 0 <= k < |u[1..]| ensures MarkerAt(u[1..][k..]).None? {
          assert u[1..][k..] == u[k + 1..];
        }
      }
      LowestMarkerSkips(u[1..], t);
      assert LowestMarker(u + t) == LowestMarker((u + t)[1..]);
    }
  }

  /** A marker-free prefix is copied unchanged by the replacement. */
  lemma {:induction false} ReplaceSkips(u: string, t: string, n: nat, a: string)
    requires NoMarkers(u) && Separates(t)
    ensures Replace(u + t, n, a) == u + Replace(t, n, a)
    decreases |u|
  {
    if u == [] {
      assert u + t == t;
    } else {
      assert u[0..] == u;
      MarkerExtend(u, t);
      assert (u + t)[1..] == u[1..] + t;
      assert NoMarkers(u[1..]) by {
        forall k | 0 <= k < |u[1..]| ensures MarkerAt(u[1..][k..]).None? {
          assert u[1..][k..] == u[k + 1..];
        }
      }
      ReplaceSkips(u[1..], t, n, a);
      assert (u + t)[0] == u[0];
      assert Replace(u + t, n, a) == [u[0]] + Replace(u[1..] + t, n, a);
      assert [u[0]] + u[1..] == u;
    }
  }

  /** A text without markers is returned unchanged by `arg`. */
  lemma ArgWithoutMarkers(s: string, a: string)
    requires NoMarkers(s)
    ensures Arg(s, a) == s
  {
    LowestMarkerSkips(s, []);
    assert s + [] == s;
  }

  /**
   * `"<u>%<d><t>".arg(a)` for a marker-free `u`, a digit `d` and a tail `t`
   * whose markers all number more than `d`: `u`, then `a`, then `t`.
   */
  lemma ArgFillsMarker(u: string, d: char, t: string, a: string)
    requires NoMarkers(u) && IsDigit(d) && Separates(t)
    requires LowestMarker(t).None? || LowestMarker(t).value > DigitValue(d)
    requires Replace(t, DigitValue(d), a) == t
    ensures Arg(u + ['%', d] + t, a) == u + a + t
  {
    var m := ['%', d] + t;
    assert u + ['%', d] + t == u + m;
    assert Separates(m);
    LowestMarkerSkips(u, m);
    ReplaceSkips(u, m, DigitValue(d), a);
    MarkerThenTail(d, t, a);
  }

  /** `"%<d><t>"` with every marker of `t` numbered above `d`: `d` is the lowest, and only it is replaced. */
  lemma MarkerThenTail(d: char, t: string, a: string)
    requires IsDigit(d) && Separates(t)
    requires LowestMarker(t).None? || LowestMarker(t).value > DigitValue(d)
    requires Replace(t, DigitValue(d), a) == t
    ensures LowestMarker(['%', d] + t) == Some(DigitValue(d))
    ensures Replace(['%', d] + t, DigitValue(d), a) == a + t
  {
    var m := ['%', d] + t;
    assert MarkerAt(m) == Some(Marker(DigitValue(d), 2));
    assert m[2..] == t;
  }

  /** A "%2" marker followed by plain text: it is the lowest marker, and replacing %1 leaves the text alone. */
  lemma SecondMarkerAlone(r: string, a: string)
    requires '%' !in r && Separates(r)
    ensures LowestMarker("%2" + r) == Some(2) && Replace("%2" + r, 1, a) == "%2" + r
  {
    NoPercentNoMarkers(r);
    var two := "%2" + r;
    assert MarkerAt(two) == Some(Marker(2, 2));
    assert two[2..] == r;
    LowestMarkerSkips(r, []);
    ReplaceSkips(r, [], 1, a);
    assert r + [] == r;
  }

  /** The first `arg` of a two-marker template "<p>%1<q>%2<r>" fills %1 and keeps %2. */
  lemma FirstOfTwo(p: string, q: string, r: string, a: string)
    requires '%' !in p && '%' !in q && '%' !in r && q != [] && !IsDigit(q[0]) && q[0] != 'L' && Separates(r)
    ensures Arg(p + "%1" + q + "%2" + r, a) == p + a + q + "%2" + r
  {
    NoPercentNoMarkers(p);
    NoPercentNoMarkers(q);
    var two := "%2" + r;
    var t := q + two;
    SecondMarkerAlone(r, a);
    LowestMarkerSkips(q, two);
    ReplaceSkips(q, two, 1, a);
    assert p + "%1" + q + "%2" + r == p + ['%', '1'] + t;
    ArgFillsMarker(p, '1', t, a);
    assert p + a + t == p + a + q + "%2" + r;
  }

  /** The second `arg` fills %2 when the first argument brought no marker. */
  lemma SecondOfTwo(p: string, a: string, q: string, r: string, b: string)
    requires '%' !in p && '%' !in q && '%' !in r && NoMarkers(a) && q != [] && !IsDigit(q[0]) && q[0] != 'L' && Separates(r)
    ensures Arg(p + a + q + "%2" + r, b) == p + a + q + b + r
  {
    NoPercentNoMarkers(p);
    NoPercentNoMarkers(q);
    NoPercentNoMarkers(r);
    NoPercentConcat(p, a);
    NoMarkersConcat(p + a, q);
    LowestMarkerSkips(r, []);
    ReplaceSkips(r, [], 2, b);
    assert r + [] == r;
    assert p + a + q + "%2" + r == (p + a + q) + ['%', '2'] + r;
    ArgFillsMarker(p + a + q, '2', r, b);
  }

  /** Two marker-free texts joined stay marker-free when the second cannot continue a marker of the first. */
  lemma NoMarkersConcat(u: string, t: string)
    requires NoMarkers(u) && NoMarkers(t) && Separates(t)
    ensures NoMarkers(u + t)
  {
    forall k | 0 <= k < |u + t|
      ensures MarkerAt((u + t)[k..]).None?
    {
      if k < |u| {
        assert (u + t)[k..] == u[k..] + t;
        MarkerExtend(u[k..], t);
      } else {
        assert (u + t)[k..] == t[k - |u|..];
      }
    }
  }

  /** A text without '%' followed by a marker-free text is marker-free. */
  lemma NoPercentConcat(u: string, t: string)
    requires '%' !in u && NoMarkers(t)
    ensures NoMarkers(u + t)
  {
    forall k | 0 <= k < |u + t|
      ensures MarkerAt((u + t)[k..]).None?
    {
      if k < |u| {
        assert (u + t)[k..][0] == u[k];
      } else {
        assert (u + t)[k..] == t[k - |u|..];
      }
    }
  }

  /**
   * A chained `.arg(a).arg(b)` rescans what `a` brought in: filling "%1 and
   * %2" with "50%1" and then "Bob" gives "50Bob and %2", not "50%1 and Bob".
   */
  lemma ChainedArgRescans()
    ensures Arg(Arg("%1 and %2", "50%1"), "Bob") == "50Bob and %2"
  {
    FirstOfTwo("", " and ", "", "50%1");
    assert "" + "%1" + " and " + "%2" + "" == "%1 and %2";
    assert "" + "50%1" + " and " + "%2" + "" == "50" + "%1" + " and " + "%2" + "";
    FirstOfTwo("50", " and ", "", "Bob");
    assert "50" + "Bob" + " and " + "%2" + "" == "50Bob and %2";
  }
}
