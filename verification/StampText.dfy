/**
 * The date texts that the run list compares inside SQLite: `datetime.isoformat()` of a UTC moment
 * in the registry, and whole seconds with a blank in the checkpoint table. The queries compare
 * texts where the list compares moments; here the two orders are shown to be the same.
 */
module StampText {
  import opened Prelude

  /** A UTC moment by its calendar fields. */
  datatype Moment = Moment(year: nat, month: nat, day: nat, hour: nat, minute: nat, second: nat, micro: nat)

  predicate InRange(m: Moment) {
    m.year < 10000 && m.month < 100 && m.day < 100 && m.hour < 100 && m.minute < 100 && m.second < 100 && m.micro < 1000000
  }

  /** One fixed-width number and the text after it. */
  datatype Part = Part(value: nat, width: nat, after: string)

  function Power10(w: nat): nat {
    if w == 0 then 1 else 10 * Power10(w - 1)
  }

  /** `n` in `w` digits. */
  function Padded(n: nat, w: nat): (s: string)
    ensures |s| == w
  {
    if w == 0 then [] else Padded(n / 10, w - 1) + [Digit(n % 10)]
  }

  function Text(parts: seq<Part>, end: string): string {
    if parts == [] then end else Padded(parts[0].value, parts[0].width) + (parts[0].after + Text(parts[1..], end))
  }

  function Parts(m: Moment, sep: string): seq<Part> {
    [Part(m.year, 4, "-"), Part(m.month, 2, "-"), Part(m.day, 2, sep), Part(m.hour, 2, ":"), Part(m.minute, 2, ":"), Part(m.second, 2, "")]
  }

  /** The end of `isoformat()`: the microseconds are left out when they are zero. */
  function IsoEnd(micro: nat): string {
    if micro == 0 then "+00:00" else "." + (Padded(micro, 6) + "+00:00")
  }

  /** `isoformat()`, as the registry writes it. */
  function IsoText(m: Moment): string {
    Text(Parts(m, "T"), IsoEnd(m.micro))
  }

  /** `isoformat(sep=" ", timespec="seconds")` without a zone, as the checkpoint table writes it. */
  function SecondsText(m: Moment): string {
    Text(Parts(m, " "), "")
  }

  // ----- comparing texts piece by piece

  lemma {:induction false} PrefixFirst(a: string, b: string, x: string, y: string)
    requires |a| == |b|
    ensures TextLess(a + x, b + y) <==> TextLess(a, b) || (a == b && TextLess(x, y))
    decreases |a|
  {
    if a == [] {
      assert a + x == x && b + y == y;
    } else {
      assert (a + x)[0] == a[0] && (b + y)[0] == b[0];
      assert (a + x)[1..] == a[1..] + x && (b + y)[1..] == b[1..] + y;
      PrefixFirst(a[1..], b[1..], x, y);
      assert a == [a[0]] + a[1..] && b == [b[0]] + b[1..];
    }
  }

  lemma SamePrefix(a: string, x: string, y: string)
    ensures TextLess(a + x, a + y) <==> TextLess(x, y)
  {
    PrefixFirst(a, a, x, y);
    TextTrichotomy(a, a);
  }

  lemma DigitOrder(a: nat, b: nat)
    requires a < 10 && b < 10
    ensures TextLess([Digit(a)], [Digit(b)]) <==> a < b
    ensures [Digit(a)] == [Digit(b)] <==> a == b
  {
    assert [Digit(a)][0] == Digit(a) && [Digit(b)][0] == Digit(b);
    assert [Digit(a)][1..] == [] && [Digit(b)][1..] == [];
  }

  /** Fixed-width numerals compare as their numbers. */
  lemma {:induction false} PaddedOrder(a: nat, b: nat, w: nat)
    requires a < Power10(w) && b < Power10(w)
    ensures TextLess(Padded(a, w), Padded(b, w)) <==> a < b
    ensures Padded(a, w) == Padded(b, w) <==> a == b
  {
    if w > 0 {
      PaddedOrder(a / 10, b / 10, w - 1);
      DigitOrder(a % 10, b % 10);
      PrefixFirst(Padded(a / 10, w - 1), Padded(b / 10, w - 1), [Digit(a % 10)], [Digit(b % 10)]);
      assert Padded(a, w)[..w - 1] == Padded(a / 10, w - 1) && Padded(b, w)[..w - 1] == Padded(b / 10, w - 1);
      assert Padded(a, w)[w - 1] == Digit(a % 10) && Padded(b, w)[w - 1] == Digit(b % 10);
    }
  }

  predicate SameShape(a: seq<Part>, b: seq<Part>) {
    if a == [] || b == [] then a == b
    else a[0].width == b[0].width && a[0].after == b[0].after
         && a[0].value < Power10(a[0].width) && b[0].value < Power10(b[0].width)
         && SameShape(a[1..], b[1..])
  }

  /** Field by field, then the ends. */
  predicate PartsLess(a: seq<Part>, b: seq<Part>, end: bool)
    requires SameShape(a, b)
  {
    if a == [] then end else a[0].value < b[0].value || (a[0].value == b[0].value && PartsLess(a[1..], b[1..], end))
  }

  lemma {:induction false} TextOrder(a: seq<Part>, b: seq<Part>, x: string, y: string)
    requires SameShape(a, b)
    ensures TextLess(Text(a, x), Text(b, y)) <==> PartsLess(a, b, TextLess(x, y))
  {
    if a != [] {
      TextOrder(a[1..], b[1..], x, y);
      PaddedOrder(a[0].value, b[0].value, a[0].width);
      PrefixFirst(Padded(a[0].value, a[0].width), Padded(b[0].value, b[0].width),
                  a[0].after + Text(a[1..], x), b[0].after + Text(b[1..], y));
      SamePrefix(a[0].after, Text(a[1..], x), Text(b[1..], y));
    }
  }

  // ----- the two text forms

  predicate Earlier(a: Moment, b: Moment, within: bool) {
    if a.year != b.year then a.year < b.year
    else if a.month != b.month then a.month < b.month
    else if a.day != b.day then a.day < b.day
    else if a.hour != b.hour then a.hour < b.hour
    else if a.minute != b.minute then a.minute < b.minute
    else if a.second != b.second then a.second < b.second
    else within
  }

  lemma Powers()
    ensures Power10(1) == 10 && Power10(2) == 100 && Power10(4) == 10000 && Power10(6) == 1000000
  {
    assert Power10(0) == 1;
    assert Power10(1) == 10;
    assert Power10(2) == 100;
    assert Power10(3) == 1000;
    assert Power10(4) == 10000;
    assert Power10(5) == 100000;
  }

  lemma PartsOrder(a: Moment, b: Moment, sep: string, end: bool)
    requires InRange(a) && InRange(b)
    ensures SameShape(Parts(a, sep), Parts(b, sep))
    ensures PartsLess(Parts(a, sep), Parts(b, sep), end) <==> Earlier(a, b, end)
  {
    Powers();
    var x, y := Parts(a, sep), Parts(b, sep);
    PartsStep(x[5..], y[5..], end);
    assert x[5..][1..] == [] && y[5..][1..] == [];
    PartsStep(x[4..], y[4..], end);
    assert x[4..][1..] == x[5..] && y[4..][1..] == y[5..];
    PartsStep(x[3..], y[3..], end);
    assert x[3..][1..] == x[4..] && y[3..][1..] == y[4..];
    PartsStep(x[2..], y[2..], end);
    assert x[2..][1..] == x[3..] && y[2..][1..] == y[3..];
    PartsStep(x[1..], y[1..], end);
    assert x[1..][1..] == x[2..] && y[1..][1..] == y[2..];
  }

  lemma PartsStep(x: seq<Part>, y: seq<Part>, end: bool)
    requires x != [] && y != []
    ensures SameShape(x, y) <==> (x[0].width == y[0].width && x[0].after == y[0].after
                                  && x[0].value < Power10(x[0].width) && y[0].value < Power10(y[0].width)
                                  && SameShape(x[1..], y[1..]))
    ensures SameShape(x, y) ==> (PartsLess(x, y, end)
              <==> x[0].value < y[0].value || (x[0].value == y[0].value && PartsLess(x[1..], y[1..], end)))
  {
  }

  lemma IsoEndOrder(a: nat, b: nat)
    requires a < 1000000 && b < 1000000
    ensures TextLess(IsoEnd(a), IsoEnd(b)) <==> a < b
  {
    Powers();
    if a > 0 && b > 0 {
      PaddedOrder(a, b, 6);
      PrefixFirst(Padded(a, 6), Padded(b, 6), "+00:00", "+00:00");
      TextTrichotomy("+00:00", "+00:00");
      SamePrefix(".", Padded(a, 6) + "+00:00", Padded(b, 6) + "+00:00");
    } else if a == 0 && b == 0 {
      TextTrichotomy(IsoEnd(0), IsoEnd(0));
    } else {
      assert IsoEnd(0)[0] == '+';
      assert IsoEnd(if a == 0 then b else a)[0] == '.';
    }
  }

  /**
   * In the registry text order is time order, also between a whole second, which has no
   * microseconds in its text, and a moment inside that second.
   */
  lemma IsoTextOrder(a: Moment, b: Moment)
    requires InRange(a) && InRange(b)
    ensures TextLess(IsoText(a), IsoText(b)) <==> Earlier(a, b, a.micro < b.micro)
    ensures TextLess("", IsoText(a))
  {
    PartsOrder(a, b, "T", TextLess(IsoEnd(a.micro), IsoEnd(b.micro)));
    TextOrder(Parts(a, "T"), Parts(b, "T"), IsoEnd(a.micro), IsoEnd(b.micro));
    IsoEndOrder(a.micro, b.micro);
    assert |IsoText(a)| > 0;
  }

  /** In the checkpoint table text order is the order of whole seconds. */
  lemma SecondsTextOrder(a: Moment, b: Moment)
    requires InRange(a) && InRange(b)
    ensures TextLess(SecondsText(a), SecondsText(b)) <==> Earlier(a, b, false)
    ensures TextLess("", SecondsText(a))
  {
    PartsOrder(a, b, " ", false);
    TextOrder(Parts(a, " "), Parts(b, " "), "", "");
    assert |SecondsText(a)| > 0;
  }
}
