/**
 Lot prices: the Desk reduces an offer's two amounts to a price in whole lots, and both the Desk and
 the market module quote amounts at that price without rounding.

 Desk numbers are doubles. Products up to MAX_SAFE are exact; a larger one is some number above
 MAX_SAFE, which `isSafeInteger` refuses. The market module multiplies in 64 bits and refuses overflow.
 */
module LotPricing {
  import opened Wrappers

  const MAX_SAFE: nat := 9007199254740991
  const INT64_MAX: nat := 0x7FFF_FFFF_FFFF_FFFF

  // ----- Divisibility --------------------------------------------------------------------------------

  predicate Divides(d: nat, n: int) { d > 0 && n % d == 0 }

  lemma Product(d: nat, t: int)
    requires d > 0
    ensures t >= 1 ==> d * t >= d && d * t >= t
    ensures t <= -1 ==> d * t + d <= 0
    ensures t == 0 ==> d * t == 0
  {
  }

  lemma Difference(d: int, k: int, q: int)
    ensures d * k - d * q == d * (k - q)
  {
  }

  lemma MultipleDivides(d: nat, k: int)
    requires d > 0
    ensures Divides(d, d * k) && d * k / d == k
  {
    Remainder(d * k, d);
    Difference(d, k, d * k / d);
    Product(d, k - d * k / d);
  }

  lemma Remainder(a: int, b: nat)
    requires b > 0
    ensures a == b * (a / b) + a % b
  {
  }

  lemma Quotient(d: nat, n: int)
    requires Divides(d, n)
    ensures n == d * (n / d)
  {
  }

  lemma DividesSum(d: nat, m: int, n: int)
    requires Divides(d, m) && Divides(d, n)
    ensures Divides(d, m + n) && Divides(d, m - n)
  {
    Quotient(d, m);
    Quotient(d, n);
    assert m + n == d * (m / d + n / d) && m - n == d * (m / d - n / d);
    MultipleDivides(d, m / d + n / d);
    MultipleDivides(d, m / d - n / d);
  }

  lemma DividesProduct(d: nat, m: int, k: int)
    requires Divides(d, m)
    ensures Divides(d, m * k)
  {
    Quotient(d, m);
    assert m * k == d * (m / d * k);
    MultipleDivides(d, m / d * k);
  }

  // ----- The greatest common divisor -----------------------------------------------------------------

  function Gcd(a: nat, b: nat): nat
    decreases b
  {
    if b == 0 then a else Gcd(b, a % b)
  }

  /** The loop of the Desk's `gcd`. */
  method ComputeGcd(a: nat, b: nat) returns (g: nat)
    ensures g == Gcd(a, b)
  {
    var x, y := a, b;
    while y != 0
      invariant Gcd(x, y) == Gcd(a, b)
      decreases y
    {
      x, y := y, x % y;
    }
    return x;
  }

  /** A common divisor that every common divisor divides. */
  ghost predicate IsGreatest(g: nat, a: nat, b: nat) {
    Divides(g, a) && Divides(g, b) && forall d: nat :: Divides(d, a) && Divides(d, b) ==> Divides(d, g)
  }

  lemma {:induction false} GcdIsGreatest(a: nat, b: nat)
    requires a > 0 || b > 0
    ensures IsGreatest(Gcd(a, b), a, b)
    decreases b
  {
    if b > 0 {
      var r, q := a % b, a / b;
      GcdIsGreatest(b, r);
      Remainder(a, b);
      var g := Gcd(b, r);
      DividesProduct(g, b, q);
      DividesSum(g, b * q, r);
      forall d: nat | Divides(d, a) && Divides(d, b) ensures Divides(d, g) {
        DividesProduct(d, b, q);
        DividesSum(d, a, b * q);
      }
    }
  }

  /** The greatest common divisor is a combination of the two numbers. */
  lemma {:induction false} Bezout(a: nat, b: nat) returns (x: int, y: int)
    ensures a * x + b * y == Gcd(a, b)
    decreases b
  {
    if b == 0 {
      x, y := 1, 0;
    } else {
      var u, v := Bezout(b, a % b);
      Remainder(a, b);
      x, y := v, u - a / b * v;
      BezoutStep(a, b, a / b, a % b, u, v);
    }
  }

  lemma BezoutStep(a: int, b: int, q: int, r: int, u: int, v: int)
    requires a == b * q + r
    ensures a * v + b * (u - q * v) == b * u + r * v
  {
    assert a * v == b * q * v + r * v;
    assert b * (u - q * v) == b * u - b * q * v;
  }

  /** Euclid: a number coprime to one factor of a product divides the other. */
  lemma Euclid(s: nat, l: nat, n: nat)
    requires s > 0 && Gcd(l, s) == 1 && Divides(s, n * l)
    ensures Divides(s, n)
  {
    var x, y := Bezout(l, s);
    var lx, sy := n * l * x, s * (n * y);
    DividesProduct(s, n * l, x);
    MultipleDivides(s, n * y);
    DividesSum(s, lx, sy);
    Combination(n, l, x, s, y);
  }

  lemma Combination(n: int, l: int, x: int, s: int, y: int)
    requires l * x + s * y == 1
    ensures n * l * x + s * (n * y) == n
  {
    Associate(n, l, x);
    Commute(s, n * y);
    Associate(n, y, s);
    Commute(y, s);
    Distribute(n, l * x, s * y);
  }

  lemma Distribute(n: int, a: int, b: int)
    ensures n * a + n * b == n * (a + b)
  {
  }

  // ----- Lots ----------------------------------------------------------------------------------------

  /** An offer's amounts, as entered on the Desk: both positive and exact doubles. */
  datatype Offered = Offered(sats: nat, lez: nat) {
    predicate Entered() { 0 < sats <= MAX_SAFE && 0 < lez <= MAX_SAFE }
    function Lot(): nat { Gcd(lez, sats) }
    function LezPerLot(): nat
      requires Entered()
    {
      if Lot() == 0 then 0 else lez / Lot()
    }
    function SatsPerLot(): nat
      requires Entered()
    {
      if Lot() == 0 then 0 else sats / Lot()
    }
  }

  /** The two amounts are the same number of lots, and the lot prices have no common divisor. */
  lemma LotsReduce(o: Offered)
    requires o.Entered()
    ensures o.Lot() > 0 && o.lez == o.Lot() * o.LezPerLot() && o.sats == o.Lot() * o.SatsPerLot()
    ensures 0 < o.LezPerLot() <= o.lez && 0 < o.SatsPerLot() <= o.sats
    ensures Gcd(o.LezPerLot(), o.SatsPerLot()) == 1
  {
    GcdIsGreatest(o.lez, o.sats);
    var g, l, s := o.Lot(), o.LezPerLot(), o.SatsPerLot();
    Quotient(g, o.lez);
    Quotient(g, o.sats);
    Positive(g, l);
    Positive(g, s);
    var c := Gcd(l, s);
    GcdIsGreatest(l, s);
    CommonFactor(g, c, o.lez, l);
    CommonFactor(g, c, o.sats, s);
    assert Divides(g * c, g);
    DivisorNotLarger(g, c);
  }

  lemma Positive(g: nat, k: int)
    requires g > 0 && g * k > 0
    ensures 0 < k <= g * k
  {
    Product(g, k);
  }

  lemma CommonFactor(g: nat, c: nat, n: nat, k: nat)
    requires g > 0 && n == g * k && Divides(c, k)
    ensures g * c > 0 && Divides(g * c, n)
  {
    Quotient(c, k);
    Product(g, c);
    Associate(g, c, k / c);
    MultipleDivides(g * c, k / c);
  }

  lemma Associate(a: int, b: int, c: int)
    ensures a * (b * c) == (a * b) * c
  {
  }

  lemma DivisorNotLarger(g: nat, c: nat)
    requires g > 0 && c > 0 && Divides(g * c, g)
    ensures c == 1
  {
    var k := g / (g * c);
    Quotient(g * c, g);
    Associate(g, c, k);
    Difference(g, c * k, 1);
    Product(g, c * k - 1);
    Product(c, k);
  }

  /** An amount can be quoted exactly when it is a whole number of satoshi lots. */
  lemma QuotableIffWholeLots(o: Offered, amount: nat)
    requires o.Entered()
    ensures Divides(o.SatsPerLot(), amount * o.LezPerLot()) <==> Divides(o.SatsPerLot(), amount)
  {
    LotsReduce(o);
    if Divides(o.SatsPerLot(), amount) {
      DividesProduct(o.SatsPerLot(), amount, o.LezPerLot());
    } else if Divides(o.SatsPerLot(), amount * o.LezPerLot()) {
      Euclid(o.SatsPerLot(), o.LezPerLot(), amount);
    }
  }

  // ----- Quotes --------------------------------------------------------------------------------------

  /** A published offer: its lot price and its bounds, all exact doubles. */
  datatype Listing = Listing(lezPerLot: nat, satsPerLot: nat, minimum: nat, maximum: nat) {
    predicate Exact() { lezPerLot <= MAX_SAFE && satsPerLot <= MAX_SAFE && minimum <= MAX_SAFE && maximum <= MAX_SAFE }
  }

  function Published(o: Offered, minimum: nat): Listing
    requires o.Entered()
  {
    Listing(o.LezPerLot(), o.SatsPerLot(), minimum, o.sats)
  }

  /** The Desk's `quoteOffer`; `None` is its NaN. */
  function QuoteOffer(x: Listing, amount: nat): Option<nat> {
    if amount > MAX_SAFE || amount < x.minimum || amount > x.maximum || x.lezPerLot == 0 || x.satsPerLot == 0 then None
    else
      var numerator := amount * x.lezPerLot;
      if numerator <= MAX_SAFE && numerator % x.satsPerLot == 0 then Some(numerator / x.satsPerLot) else None
  }

  /** The market module's `quoteLez`, on fields that read as -1 unless they are exact. */
  function IntegerField(value: int): int { if 0 <= value <= MAX_SAFE then value else -1 }

  function QuoteLez(lezField: int, satsField: int, amount: int): Option<nat> {
    var lezPerLot, satsPerLot := IntegerField(lezField), IntegerField(satsField);
    if lezPerLot <= 0 || satsPerLot <= 0 || amount < 0 then None
    else
      var numerator: nat := amount * lezPerLot;
      if numerator > INT64_MAX || numerator % satsPerLot != 0 then None
      else if numerator / satsPerLot <= MAX_SAFE then Some(numerator / satsPerLot) else None
  }

  /** The market module quotes exactly the LEZ that cost the amount at the lot price, if all of it fits. */
  lemma MarketQuoteMeans(lezField: int, satsField: int, amount: int, lez: nat)
    ensures QuoteLez(lezField, satsField, amount) == Some(lez) <==>
              && 0 < lezField <= 9007199254740991 && 0 < satsField <= 9007199254740991 && amount >= 0
              && amount * lezField <= 0x7FFF_FFFF_FFFF_FFFF && lez <= 9007199254740991
              && satsField * lez == amount * lezField
  {
    if 0 < lezField <= MAX_SAFE && 0 < satsField <= MAX_SAFE && amount >= 0 {
      ProductIsNat(amount, lezField);
      ExactQuotient(amount * lezField, satsField, lez);
    }
  }

  lemma ProductIsNat(a: nat, b: nat)
    ensures a * b >= 0
  {
  }

  lemma ExactQuotient(n: nat, s: nat, q: nat)
    requires s > 0
    ensures n % s == 0 && n / s == q <==> s * q == n
  {
    Remainder(n, s);
    MultipleDivides(s, q);
  }

  /** The Desk quotes the same LEZ for an amount within the bounds, if the product is an exact double. */
  lemma DeskQuoteMeans(x: Listing, amount: nat, lez: nat)
    ensures QuoteOffer(x, amount) == Some(lez) <==>
              && x.minimum <= amount <= x.maximum && amount <= 9007199254740991
              && x.lezPerLot > 0 && x.satsPerLot > 0 && amount * x.lezPerLot <= 9007199254740991
              && x.satsPerLot * lez == amount * x.lezPerLot
  {
    if x.satsPerLot > 0 { ExactQuotient(amount * x.lezPerLot, x.satsPerLot, lez); }
  }

  lemma LotsTimesPrice(s: nat, l: nat, amount: nat)
    requires Divides(s, amount)
    ensures amount * l / s == amount / s * l
  {
    Quotient(s, amount);
    Associate(s, amount / s, l);
    MultipleDivides(s, amount / s * l);
  }

  lemma ProductGrows(a: nat, b: nat, l: nat)
    requires a <= b
    ensures a * l <= b * l
  {
  }

  /**
   An amount of a published offer quotes exactly when it is in bounds, whole lots, and its product is an
   exact double.
   */
  lemma DeskQuotesWholeLots(o: Offered, minimum: nat, amount: nat)
    requires o.Entered()
    ensures QuoteOffer(Published(o, minimum), amount)
         == if minimum <= amount <= o.sats && Divides(o.SatsPerLot(), amount) && amount * o.LezPerLot() <= MAX_SAFE
            then Some(amount / o.SatsPerLot() * o.LezPerLot()) else None
  {
    LotsReduce(o);
    QuotableIffWholeLots(o, amount);
    if Divides(o.SatsPerLot(), amount) { LotsTimesPrice(o.SatsPerLot(), o.LezPerLot(), amount); }
  }

  /** Taking the whole offer quotes the LEZ entered for it exactly when the product is an exact double. */
  lemma WholeOfferQuotesEntered(o: Offered, minimum: nat)
    requires o.Entered() && minimum <= o.sats
    ensures o.sats * o.LezPerLot() <= MAX_SAFE <==> QuoteOffer(Published(o, minimum), o.sats) == Some(o.lez)
    ensures o.sats * o.LezPerLot() > MAX_SAFE ==> QuoteOffer(Published(o, minimum), o.sats) == None
  {
    LotsReduce(o);
    DeskQuotesWholeLots(o, minimum, o.sats);
    Commute(o.Lot(), o.SatsPerLot());
    MultipleDivides(o.SatsPerLot(), o.Lot());
  }

  lemma Commute(a: int, b: int)
    ensures a * b == b * a
  {
  }

  /**
   One bitcoin for 100,000,001 LEZ is a valid offer that the Desk cannot take whole, though the market module
   quotes it.
   */
  lemma SomeWholeOffersDoNotQuote()
    ensures var o := Offered(100000000, 100000001);
            && o.Entered() && Published(o, o.sats).Exact()
            && QuoteOffer(Published(o, o.sats), o.sats) == None
            && QuoteLez(o.LezPerLot(), o.SatsPerLot(), o.sats) == Some(o.lez)
  {
    var o := Offered(100000000, 100000001);
    assert Gcd(o.lez, o.sats) == Gcd(100000000, 1) == Gcd(1, 0) == 1;
  }

  /**
   The minimum a maker may publish, tested on a rounded product. Where the minimum's product is an exact
   double, the test admits exactly the whole numbers of lots up to the offer.
   */
  predicate TermsValid(o: Offered, minimum: nat, rounded: nat -> nat)
    requires o.Entered()
  {
    0 < minimum <= o.sats && o.SatsPerLot() > 0 && rounded(minimum * o.LezPerLot()) % o.SatsPerLot() == 0
  }

  lemma ValidMinimumIsWholeLots(o: Offered, minimum: nat, rounded: nat -> nat)
    requires o.Entered() && minimum * o.LezPerLot() <= MAX_SAFE
    requires forall n: nat :: n <= MAX_SAFE ==> rounded(n) == n
    ensures TermsValid(o, minimum, rounded) <==> 0 < minimum <= o.sats && Divides(o.SatsPerLot(), minimum)
  {
    LotsReduce(o);
    QuotableIffWholeLots(o, minimum);
  }

  /** Three satoshis for a number of LEZ whose triple is the first integer that no double holds. */
  const INEXACT := Offered(3, 3002399751580331)

  /**
   Beyond exact doubles the form may refuse even the whole offer: 2^53 + 1 lies between two doubles and rounds
   to 2^53, which is not a multiple of three.
   */
  lemma RoundedMinimumMayBeRefused(rounded: nat -> nat)
    requires rounded(9007199254740993) == 9007199254740992
    ensures INEXACT.Entered() && INEXACT.sats * INEXACT.LezPerLot() > MAX_SAFE
    ensures Divides(INEXACT.SatsPerLot(), INEXACT.sats) && !TermsValid(INEXACT, INEXACT.sats, rounded)
  {
    InexactLots();
  }

  lemma InexactLots()
    ensures INEXACT.Entered() && INEXACT.LezPerLot() == 3002399751580331 && INEXACT.SatsPerLot() == 3
  {
    assert Gcd(3002399751580331, 3) == Gcd(3, 2) == Gcd(2, 1) == Gcd(1, 0) == 1;
  }

  /**
   And loading it again shows another amount, both operations rounding: the product 2^53 + 1 rounds to 2^53, doubles
   between 2^51 and 2^52 are half units apart, and a third of 2^53 is nearer to another one than to the LEZ that
   were entered.
   */
  lemma RoundedReloadMayDiffer(rounded: real -> real)
    requires rounded(9007199254740993.0) == 9007199254740992.0
    requires forall x: real :: 2251799813685248.0 <= x <= 4503599627370496.0 ==> x - 0.25 <= rounded(x) <= x + 0.25
    ensures INEXACT.Entered() && INEXACT.SatsPerLot() > 0
    ensures var product := rounded((INEXACT.sats * INEXACT.LezPerLot()) as real);
            rounded(product / INEXACT.SatsPerLot() as real) != INEXACT.lez as real
  {
    InexactLots();
    assert (INEXACT.sats * INEXACT.LezPerLot()) as real == 9007199254740993.0;
    var third := 9007199254740992.0 / 3.0;
    assert rounded(third) <= third + 0.25;
  }

  /** Every step of the take slider from a valid minimum quotes, and the last step is the whole offer. */
  lemma SliderStepsQuote(o: Offered, minimum: nat, k: nat)
    requires o.Entered() && o.sats * o.LezPerLot() <= MAX_SAFE
    requires 0 < minimum <= o.sats && Divides(o.SatsPerLot(), minimum)
    requires minimum + k * o.SatsPerLot() <= o.sats
    ensures var amount := minimum + k * o.SatsPerLot();
            QuoteOffer(Published(o, minimum), amount) == Some(amount / o.SatsPerLot() * o.LezPerLot())
    ensures var last := (o.sats - minimum) / o.SatsPerLot(); minimum + last * o.SatsPerLot() == o.sats
  {
    LotsReduce(o);
    var s, amount := o.SatsPerLot(), minimum + k * o.SatsPerLot();
    MultipleDivides(s, k);
    Commute(s, k);
    DividesSum(s, minimum, s * k);
    ProductGrows(amount, o.sats, o.LezPerLot());
    DeskQuotesWholeLots(o, minimum, amount);
    MultipleDivides(s, o.Lot());
    Commute(o.Lot(), s);
    DividesSum(s, o.sats, minimum);
    Quotient(s, o.sats - minimum);
    Commute(s, (o.sats - minimum) / s);
  }

  /** The amounts the form shows when a stored price is loaded again. */
  function Reloaded(x: Listing): Offered
    requires x.satsPerLot > 0
  {
    Offered(x.maximum, x.maximum * x.lezPerLot / x.satsPerLot)
  }

  /**
   Publishing and loading again gives back both amounts, and so the same lots, where the product is an exact
   double.
   */
  lemma ReloadRoundTrip(o: Offered, minimum: nat)
    requires o.Entered() && o.sats * o.LezPerLot() <= MAX_SAFE
    ensures o.SatsPerLot() > 0 && Reloaded(Published(o, minimum)) == o
  {
    LotsReduce(o);
    Commute(o.Lot(), o.SatsPerLot());
    MultipleDivides(o.SatsPerLot(), o.Lot());
    LotsTimesPrice(o.SatsPerLot(), o.LezPerLot(), o.sats);
  }

  /**
   What the Desk quotes, the market module quotes alike; what the module quotes within bounds, the Desk
   quotes exactly when the product is an exact double.
   */
  lemma DeskAndMarketQuotes(x: Listing, amount: nat, lez: nat)
    requires x.Exact()
    ensures QuoteOffer(x, amount) == Some(lez) ==> QuoteLez(x.lezPerLot, x.satsPerLot, amount) == Some(lez)
    ensures QuoteLez(x.lezPerLot, x.satsPerLot, amount) == Some(lez) && x.minimum <= amount <= x.maximum ==>
              (QuoteOffer(x, amount) == Some(lez) <==> amount * x.lezPerLot <= MAX_SAFE)
  {
    if x.satsPerLot > 0 { NotLarger(amount * x.lezPerLot, x.satsPerLot); }
  }

  lemma NotLarger(n: nat, s: nat)
    requires s > 0
    ensures n / s <= n
  {
    Remainder(n, s);
    Product(s, n / s);
  }
}
