/** Prices with GST and the split of a charge back into base and tax, in exact arithmetic. */
module Pricing {

  const DEFAULT_RATE: real := 18.0

  /** math.Round: half away from zero. */
  function Round(x: real): int {
    if x >= 0.0 then (x + 0.5).Floor else -((-x + 0.5).Floor)
  }

  /** The rate a package is created with. */
  function CreationRate(rate: real): real {
    if rate <= 0.0 then DEFAULT_RATE else rate
  }

  /** PriceWithGSTPaise for a price and the stored rate. */
  function WithGst(price: int, rate: real): int {
    if price > 0 then price + Round(price as real * (rate / 100.0)) else 0
  }

  /** The column keeps two decimals, rounded half away from zero. */
  function Hundredths(rate: real): int {
    Round(rate * 100.0)
  }

  function Stored(rate: real): real {
    Hundredths(rate) as real / 100.0
  }

  /** The column takes at most three digits before the point; a rate outside is refused. */
  predicate Storable(rate: real) {
    -100000 < Hundredths(rate) < 100000
  }

  /** The price columns are 32-bit integers. */
  predicate FitsColumn(amount: int) {
    -0x8000_0000 <= amount < 0x8000_0000
  }

  /** The row is one that the columns can hold. */
  predicate Savable(price: int, rate: real) {
    Storable(rate) && FitsColumn(price) && FitsColumn(WithGst(price, rate))
  }

  /** The rate RecordCharge splits with. */
  function ChargeRate(rate: real): real {
    if rate > 0.0 then rate else DEFAULT_RATE
  }

  function BaseOf(total: int, rate: real): int {
    Round(total as real / (1.0 + ChargeRate(rate) / 100.0))
  }

  function TaxOf(total: int, rate: real): int {
    total - BaseOf(total, rate)
  }

  lemma RoundIs(x: real, n: int)
    requires x >= 0.0
    ensures Round(x) == n <==> (n as real - 0.5 <= x < n as real + 0.5)
  {
    var f := (x + 0.5).Floor;
    assert f as real <= x + 0.5 < f as real + 1.0;
    if n as real - 0.5 <= x < n as real + 0.5 {
      assert f == n;
    }
  }

  /** The whole number nearest to x, away from zero when two are as near. */
  lemma RoundNearest(x: real)
    ensures x >= 0.0 ==> Round(x) as real - 0.5 <= x < Round(x) as real + 0.5
    ensures x < 0.0 ==> Round(x) as real - 0.5 < x <= Round(x) as real + 0.5
  {
    if x >= 0.0 {
      RoundIs(x, Round(x));
    } else {
      RoundIs(-x, -Round(x));
    }
  }

  /** A price is taxed at so many parts in a hundred of it, to the nearest unit; a free package has no price at all. */
  lemma TaxedPriceIs(price: int, rate: real)
    ensures price <= 0 ==> WithGst(price, rate) == 0
    ensures price > 0 && rate >= 0.0 ==>
              var tax := WithGst(price, rate) - price;
              tax as real - 0.5 <= price as real * rate / 100.0 < tax as real + 0.5
    ensures price > 0 && rate < 0.0 ==>
              var tax := WithGst(price, rate) - price;
              tax as real - 0.5 < price as real * rate / 100.0 <= tax as real + 0.5
  {
    var exact := price as real * (rate / 100.0);
    assert exact == price as real * rate / 100.0;
    RoundNearest(exact);
    if price > 0 {
      SignOf(price as real, rate / 100.0);
    }
  }

  lemma SignOf(p: real, r: real)
    requires p > 0.0
    ensures p * r >= 0.0 <==> r >= 0.0
  {}

  /** The column keeps whole hundredths, the nearest to the rate. */
  lemma StoredIs(rate: real)
    ensures Stored(rate) * 100.0 == Hundredths(rate) as real
    ensures -0.005 <= Stored(rate) - rate <= 0.005
  {
    RoundNearest(rate * 100.0);
  }

  /** The row fits when the rate rounds to under a thousand and the prices to 32 bits. */
  lemma SavableIff(price: int, rate: real)
    ensures Savable(price, rate)
       <==> -999.995 < rate < 999.995 && -2147483648 <= price <= 2147483647
            && -2147483648 <= WithGst(price, rate) <= 2147483647
  {
    RoundNearest(rate * 100.0);
  }

  /** The rate a package is created at, and a charge split at: the one given when it is positive, otherwise 18. */
  lemma RatesAre(rate: real)
    ensures rate > 0.0 ==> CreationRate(rate) == rate && ChargeRate(rate) == rate
    ensures rate <= 0.0 ==> CreationRate(rate) == 18.0 && ChargeRate(rate) == 18.0
  {}

  /** The base of a charge is the whole number nearest to what, taxed at the rate, comes to the charge. */
  lemma BaseNearest(total: nat, rate: real)
    ensures var r := if rate > 0.0 then rate else 18.0;
            var base := BaseOf(total, rate) as real;
            (base - 0.5) * (1.0 + r / 100.0) <= total as real < (base + 0.5) * (1.0 + r / 100.0)
  {
    var f := 1.0 + ChargeRate(rate) / 100.0;
    var q := total as real / f;
    QuotientBounds(total as real, f, 0.0, 0.0);
    RoundNearest(q);
    QuotientBounds(total as real, f, BaseOf(total, rate) as real - 0.5, BaseOf(total, rate) as real + 0.5);
  }

  lemma Cancel(a: real, b: real, f: real)
    requires f > 0.0 && a * f < b * f
    ensures a < b
  {}

  lemma CancelAtMost(a: real, b: real, f: real)
    requires f > 0.0 && a * f <= b * f
    ensures a <= b
  {}

  lemma QuotientNear(p: int, rho: real, total: int)
    requires p >= 0 && rho > 0.0
    requires p as real * rho - 0.5 <= (total - p) as real <= p as real * rho + 0.5
    ensures p as real - 0.5 < total as real / (1.0 + rho) < p as real + 0.5
  {
    var q := total as real / (1.0 + rho);
    assert q * (1.0 + rho) == total as real;
    var d := q - p as real;
    assert d * (1.0 + rho) == total as real - p as real - p as real * rho;
    assert -0.5 <= d * (1.0 + rho) <= 0.5;
    Cancel(d, 0.5, 1.0 + rho);
    Cancel(-0.5, d, 1.0 + rho);
  }

  /** Splitting a charge of the taxed price gives back the price and its tax, at every price and positive rate. */
  lemma SplitInvertsPricing(price: int, rate: real)
    requires price >= 0 && rate > 0.0
    ensures BaseOf(WithGst(price, rate), rate) == price
    ensures TaxOf(WithGst(price, rate), rate) == WithGst(price, rate) - price
  {
    var rho := rate / 100.0;
    var tax := price as real * rho;
    var total := WithGst(price, rate);
    if price > 0 {
      assert tax > 0.0;
      RoundIs(tax, Round(tax));
    } else {
      assert tax == 0.0;
    }
    QuotientNear(price, rho, total);
    assert total >= 0;
    var q := total as real / (1.0 + rho);
    assert q >= 0.0;
    RoundIs(q, price);
  }

  /**
   Compares the tax charged with the exact tax on the price at the rate: they differ by no more than the rounding of
   the split can absorb, which is half a unit of the price and the tax on it.
   */
  predicate TaxFits(price: int, tax: int, rate: real) {
    var rho := rate / 100.0;
    var off := tax as real - price as real * rho;
    -(1.0 + rho) / 2.0 <= off < (1.0 + rho) / 2.0
  }

  lemma Times(a: real, b: real, f: real)
    requires f > 0.0
    ensures a <= b <==> a * f <= b * f
    ensures a < b <==> a * f < b * f
  {
    if a <= b {
      assert (b - a) * f >= 0.0;
    } else {
      assert (a - b) * f > 0.0;
    }
  }

  lemma Window(p: real, rho: real, total: real)
    ensures (p - 0.5) * (1.0 + rho) <= total <==> -(1.0 + rho) / 2.0 <= total - p - p * rho
    ensures total < (p + 0.5) * (1.0 + rho) <==> total - p - p * rho < (1.0 + rho) / 2.0
  {
    assert (p - 0.5) * (1.0 + rho) == p + p * rho - 0.5 - 0.5 * rho;
    assert (p + 0.5) * (1.0 + rho) == p + p * rho + 0.5 + 0.5 * rho;
  }

  lemma QuotientBounds(total: real, f: real, low: real, high: real)
    requires f > 0.0
    ensures low <= total / f <==> low * f <= total
    ensures total / f < high <==> total < high * f
  {
    var q := total / f;
    assert q * f == total;
    Times(low, q, f);
    Times(q, high, f);
    assert q * f < high * f <==> total < high * f;
  }

  /** Rounding a quotient gives n exactly when the dividend lies in the window around n. */
  lemma QuotientRounds(total: real, f: real, n: int)
    requires f > 0.0 && n >= 0 && (n == 0 ==> total >= 0.0)
    ensures Round(total / f) == n <==> (n as real - 0.5) * f <= total < (n as real + 0.5) * f
  {
    var q := total / f;
    QuotientBounds(total, f, n as real - 0.5, n as real + 0.5);
    QuotientBounds(total, f, 0.0, 0.0);
    if q >= 0.0 {
      RoundIs(q, n);
    } else {
      RoundIs(-q, -Round(q));
    }
  }

  /** Splitting a total at a rate gives back the price exactly when the tax in it fits that rate. */
  lemma SplitIff(price: int, total: int, rate: real)
    requires price >= 0 && (price == 0 ==> total >= 0)
    ensures BaseOf(total, rate) == price <==> TaxFits(price, total - price, ChargeRate(rate))
  {
    var rho := ChargeRate(rate) / 100.0;
    QuotientRounds(total as real, 1.0 + rho, price);
    Window(price as real, rho, total as real);
  }

  /**
   For every rate asked for: a charge of the taxed price, split at the stored rate, gives back the price exactly when
   the tax charged is close enough to the exact tax at the stored rate.
   */
  lemma StoredRateInvertsIff(price: int, asked: real)
    requires price >= 0
    ensures BaseOf(WithGst(price, asked), Stored(asked)) == price
            <==> TaxFits(price, WithGst(price, asked) - price, ChargeRate(Stored(asked)))
  {
    SplitIff(price, WithGst(price, asked), Stored(asked));
  }

  /** A rate of whole hundredths is stored as it is. */
  lemma HundredthsKept(n: int)
    ensures Stored(n as real / 100.0) == n as real / 100.0
  {
    if n >= 0 {
      RoundIs(n as real, n);
    } else {
      RoundIs((-n) as real, -n);
    }
  }

  /** So the price of a package with a positive rate of whole hundredths always splits back. */
  lemma WholeHundredthsInvert(price: int, n: int)
    requires price >= 0 && n > 0
    ensures var asked := n as real / 100.0; BaseOf(WithGst(price, asked), Stored(asked)) == price
  {
    HundredthsKept(n);
    SplitInvertsPricing(price, n as real / 100.0);
  }

  /** And so does any price small enough for the rounding of its rate. */
  lemma SmallDriftInverts(price: int, asked: real)
    requires price >= 0 && asked > 0.0 && Stored(asked) > 0.0
    requires -Stored(asked) < 2.0 * price as real * (asked - Stored(asked)) < Stored(asked)
    ensures BaseOf(WithGst(price, asked), Stored(asked)) == price
  {
    var tax := price as real * (asked / 100.0);
    var stored := Stored(asked);
    if price > 0 {
      assert tax > 0.0;
      RoundIs(tax, Round(tax));
      assert tax - price as real * (stored / 100.0) == price as real * (asked - stored) / 100.0;
    }
    StoredRateInvertsIff(price, asked);
  }

  /** A rate of 0.004 is stored as 0, the default takes its place, and a charge of 1000 splits to a base of 847. */
  lemma TinyRateSplitsWrong()
    ensures Stored(0.004) == 0.0 && WithGst(1000, 0.004) == 1000 && BaseOf(1000, Stored(0.004)) == 847
  {
    RoundIs(0.4, 0);
    RoundIs(0.04, 0);
    SplitIff(847, 1000, 0.0);
  }

  /** A rate of 18.004 is stored as 18, and the taxed price of 10000000 no longer splits back. */
  lemma DriftSplitsWrong()
    ensures Stored(18.004) == 18.0 && BaseOf(WithGst(10000000, 18.004), Stored(18.004)) != 10000000
  {
    RoundIs(1800.4, 1800);
    RoundIs(1800400.0, 1800400);
    StoredRateInvertsIff(10000000, 18.004);
  }

  lemma RoundNotPositive(x: real)
    requires x <= 0.0
    ensures Round(x) <= 0
  {
    if x < 0.0 {
      RoundIs(-x, -Round(x));
    }
  }

  lemma NoTax(price: int, rate: real)
    requires price >= 0 && rate <= 0.0
    ensures WithGst(price, rate) <= price && (price == 0 ==> WithGst(price, rate) == 0)
  {
    assert price as real * (rate / 100.0) <= 0.0;
    RoundNotPositive(price as real * (rate / 100.0));
  }

  lemma StoredNotPositive(rate: real)
    requires rate <= 0.0
    ensures Stored(rate) <= 0.0
  {
    RoundNotPositive(rate * 100.0);
  }

  /**
   UpdatePackage stores any rate, while RecordCharge replaces one that is not positive by the default. For a rate
   asked for as such the split returns the price exactly when the price is at most 3 and its tax rounds to nothing.
   */
  lemma OtherRatesInvertIff(price: int, rate: real)
    requires price >= 0 && rate <= 0.0
    ensures BaseOf(WithGst(price, rate), Stored(rate)) == price <==> price <= 3 && WithGst(price, rate) == price
  {
    NoTax(price, rate);
    StoredNotPositive(rate);
    assert 1.0 + ChargeRate(Stored(rate)) / 100.0 == 1.18;
    QuotientRounds(WithGst(price, rate) as real, 1.18, price);
  }

  /** Base and tax of any charge add up to it, and the base taxed at the rate is within one rounding of it. */
  lemma SplitAddsUp(total: int, rate: real)
    requires total >= 0
    ensures BaseOf(total, rate) + TaxOf(total, rate) == total
    ensures 0 <= BaseOf(total, rate) <= total && 0 <= TaxOf(total, rate)
  {
    var f := 1.0 + ChargeRate(rate) / 100.0;
    var q := total as real / f;
    assert f > 1.0;
    assert q * f == total as real;
    CancelAtMost(0.0, q, f);
    CancelAtMost(q, total as real, f);
    RoundIs(q, Round(q));
    assert Round(q) as real - 0.5 <= q <= total as real;
  }

  datatype PackageRow = PackageRow(price: int, gstRate: real, priceWithGst: int)

  class PackageRepository {
    var rows: map<nat, PackageRow>

    constructor ()
      ensures rows == map[]
    {
      rows := map[];
    }

    method Save(id: nat, pkg: Package) returns (ok: bool)
      modifies this
      ensures ok <==> Storable(pkg.gstRate) && FitsColumn(pkg.price) && FitsColumn(pkg.priceWithGst)
      ensures rows == if ok then old(rows)[id := PackageRow(pkg.price, Stored(pkg.gstRate), pkg.priceWithGst)]
        else old(rows)
    {
      ok := Storable(pkg.gstRate) && FitsColumn(pkg.price) && FitsColumn(pkg.priceWithGst);
      if ok {
        rows := rows[id := PackageRow(pkg.price, Stored(pkg.gstRate), pkg.priceWithGst)];
      }
    }
  }

  /** The package as bound from a request, whose priced fields the service assigns in place. */
  class Package {
    var price: int
    var gstRate: real
    var priceWithGst: int

    constructor (price: int, gstRate: real, priceWithGst: int)
      ensures this.price == price && this.gstRate == gstRate && this.priceWithGst == priceWithGst
    {
      this.price, this.gstRate, this.priceWithGst := price, gstRate, priceWithGst;
    }

    method SetPrice()
      modifies this
      ensures price == old(price) && gstRate == old(gstRate) && priceWithGst == WithGst(price, gstRate)
    {
      if price > 0 {
        var tax := price as real * (gstRate / 100.0);
        priceWithGst := price + Round(tax);
      } else {
        priceWithGst := 0;
      }
    }
  }

  /** A charge of the stored row's taxed price splits back into the row's own price. */
  predicate SplitsBack(row: PackageRow) {
    BaseOf(row.priceWithGst, row.gstRate) == row.price
  }

  /** Exactly when a row saved for a price and a rate asked for splits back. */
  lemma SavedSplitsBackIff(price: int, asked: real)
    requires price >= 0
    ensures SplitsBack(PackageRow(price, Stored(asked), WithGst(price, asked)))
            <==> TaxFits(price, WithGst(price, asked) - price, ChargeRate(Stored(asked)))
  {
    StoredRateInvertsIff(price, asked);
  }

  /** `planOk`: the gateway, asked only about a positive price, creates the plan. */
  method CreatePackage(repo: PackageRepository, id: nat, pkg: Package, planOk: bool) returns (ok: bool)
    modifies repo, pkg
    ensures ok <==> Savable(old(pkg.price), CreationRate(old(pkg.gstRate))) && (old(pkg.price) > 0 ==> planOk)
    ensures var asked := CreationRate(old(pkg.gstRate));
            repo.rows
            == if ok
               then old(repo.rows)[id := PackageRow(old(pkg.price), Stored(asked), WithGst(old(pkg.price), asked))]
               else old(repo.rows)
    ensures ok && old(pkg.price) >= 0 ==>
      var tax := pkg.priceWithGst - old(pkg.price);
      SplitsBack(repo.rows[id]) <==> TaxFits(old(pkg.price), tax, ChargeRate(repo.rows[id].gstRate))
  {
    if pkg.gstRate <= 0.0 {
      pkg.gstRate := DEFAULT_RATE;
    }
    pkg.SetPrice();
    if pkg.price > 0 && !planOk {
      return false;
    }
    ok := repo.Save(id, pkg);
    if ok && pkg.price >= 0 {
      SavedSplitsBackIff(pkg.price, pkg.gstRate);
    }
  }

  method UpdatePackage(repo: PackageRepository, id: nat, pkg: Package) returns (ok: bool)
    modifies repo, pkg
    ensures ok <==> id in old(repo.rows) && Savable(old(pkg.price), old(pkg.gstRate))
    ensures repo.rows == if ok then old(repo.rows)[id := PackageRow(old(pkg.price), Stored(old(pkg.gstRate)),
                                                                    WithGst(old(pkg.price), old(pkg.gstRate)))]
               else old(repo.rows)
    ensures ok && old(pkg.price) >= 0 ==>
      var tax := pkg.priceWithGst - old(pkg.price);
      SplitsBack(repo.rows[id]) <==> TaxFits(old(pkg.price), tax, ChargeRate(repo.rows[id].gstRate))
  {
    pkg.SetPrice();
    if id !in repo.rows {
      return false;
    }
    ok := repo.Save(id, pkg);
    if ok && pkg.price >= 0 {
      SavedSplitsBackIff(pkg.price, pkg.gstRate);
    }
  }
}
