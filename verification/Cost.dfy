/** Integer nano-currency cost of a job: half-up rounding, the per-request energy cap, and the
    figure the user pays. Amounts are mathematical integers; the widths of the code are explicit. */
module Cost {
  import opened Wrappers

  const U64_MAX: int := 0xFFFF_FFFF_FFFF_FFFF
  const I64_MAX: int := 0x7FFF_FFFF_FFFF_FFFF
  const I128_MAX: int := 0x7FFF_FFFF_FFFF_FFFF_FFFF_FFFF_FFFF_FFFF
  const TOKENS_PER_MILLION: int := 1_000_000
  const MILLIJOULES_PER_KWH: int := 3_600_000_000

  type U64 = x: int | 0 <= x <= U64_MAX
  type I64 = x: int | -I64_MAX - 1 <= x <= I64_MAX

  datatype Currency = Usd | Eur

  datatype Pricing = Pricing(
    currency: Currency, input: I64, output: I64, cachedInput: Option<I64>,
    energyPerKwh: Option<I64>, energyCapped: bool)

  datatype Usage = Usage(tokensIn: U64, tokensOut: U64, cachedIn: U64, energy: U64)

  function Min(a: int, b: int): int { if a < b then a else b }

  /** Clamp of a sum into the non-negative half of i64. */
  function Clamp(x: int): (r: I64)
    ensures r >= 0
  {
    if x < 0 then 0 else Min(x, I64_MAX)
  }

  // ---- Rounding ----

  function HalfUp(num: int, den: int): int
    requires num >= 0 && den > 0
  {
    var q, r := num / den, num % den;
    if r * 2 >= den then q + 1 else q
  }

  function DivHalfUp(num: int, den: int): (r: I64)
    requires num >= 0 && den > 0
    ensures r >= 0
  {
    Clamp(HalfUp(num, den))
  }

  predicate WithinHalf(num: int, den: int, q: int) {
    2 * num - den < 2 * (q * den) <= 2 * num + den
  }

  lemma HalfUpWithin(num: int, den: int)
    requires num >= 0 && den > 0
    ensures WithinHalf(num, den, HalfUp(num, den))
  {
    var d := num / den;
    assert num == d * den + num % den;
    assert (d + 1) * den == d * den + den;
  }

  lemma WithinHalfUnique(num: int, den: int, p: int, q: int)
    requires den > 0 && WithinHalf(num, den, p) && WithinHalf(num, den, q)
    ensures p == q
  {
    if p < q {
      Distribute(p, q - p, den);
      Scale(q - p, den);
    } else if q < p {
      Distribute(q, p - q, den);
      Scale(p - q, den);
    }
  }

  lemma Scale(k: int, den: int)
    requires k >= 1 && den > 0
    ensures k * den >= den
  {}

  /** Half-up rounding is the unique integer within half a unit, ties going up. */
  lemma HalfUpNearest(num: int, den: int, q: int)
    requires num >= 0 && den > 0
    ensures q == HalfUp(num, den) <==> WithinHalf(num, den, q)
  {
    HalfUpWithin(num, den);
    if WithinHalf(num, den, q) {
      WithinHalfUnique(num, den, q, HalfUp(num, den));
    }
  }

  /** No intermediate value leaves i128, for any u64 count and i64 rate. */
  lemma ProductFits(tokens: U64, rate: I64, den: int)
    requires rate > 0 && (den == TOKENS_PER_MILLION || den == MILLIJOULES_PER_KWH)
    ensures 0 <= tokens * rate <= I128_MAX && (tokens * rate) % den * 2 <= I128_MAX
    ensures HalfUp(tokens * rate, den) <= I128_MAX
  {
    assert tokens * rate <= U64_MAX * rate <= U64_MAX * I64_MAX;
  }

  /** Energy and token prices share one shape: a count at a rate, per `den` units. */
  function Priced(count: U64, rate: I64, den: int): (r: I64)
    requires den > 0
    ensures r >= 0
  {
    if count == 0 || rate <= 0 then 0 else (assert count * rate >= 0; DivHalfUp(count * rate, den))
  }

  function TokenCost(tokens: U64, rate: I64): (r: I64)
    ensures r >= 0
  {
    Priced(tokens, rate, TOKENS_PER_MILLION)
  }

  function EnergyCost(energy: U64, rate: I64): (r: I64)
    ensures r >= 0
  {
    Priced(energy, rate, MILLIJOULES_PER_KWH)
  }

  function Charged(rate: int): int { if rate > 0 then rate else 0 }

  /** A price is at most half a unit above the exact amount, and unless it saturates at most half
      a unit below it. */
  lemma PricedNearest(count: U64, rate: I64, den: int)
    requires den > 0
    ensures 2 * (Priced(count, rate, den) * den) <= 2 * (count * Charged(rate)) + den
    ensures Priced(count, rate, den) < I64_MAX ==>
              2 * (count * Charged(rate)) - den < 2 * (Priced(count, rate, den) * den)
  {
    if count != 0 && rate > 0 {
      var num := count * rate;
      assert num >= 0;
      HalfUpWithin(num, den);
      var q, p := HalfUp(num, den), Priced(count, rate, den);
      assert p <= q;
      assert p * den <= q * den by {
        assert (q - p) * den >= 0;
      }
    }
  }

  /** The units of the rates: a million tokens cost the token rate, a kilowatt-hour the energy rate. */
  lemma UnitPrices(rate: I64)
    requires rate >= 0
    ensures TokenCost(1_000_000, rate) == rate && EnergyCost(3_600_000_000, rate) == rate
  {
    HalfUpNearest(1_000_000 * rate, 1_000_000, rate);
    HalfUpNearest(3_600_000_000 * rate, 3_600_000_000, rate);
  }

  // ---- Token figure of one set of counters ----

  function CachedOf(u: Usage): U64 { if u.cachedIn < u.tokensIn then u.cachedIn else u.tokensIn }

  function CachedRate(pr: Pricing): I64 { if pr.cachedInput.Some? then pr.cachedInput.value else pr.input }

  function TokenTotal(u: Usage, pr: Pricing): (r: I64)
    ensures r >= 0
  {
    Clamp(RawTokenTotal(u, pr))
  }

  function RawTokenTotal(u: Usage, pr: Pricing): (r: int)
    ensures r >= 0
  {
    PartsCost(u.tokensIn - CachedOf(u), CachedOf(u), u.tokensOut, pr)
  }

  function PartsCost(plain: U64, cached: U64, out: U64, pr: Pricing): (r: int)
    ensures r >= 0
  {
    TokenCost(plain, pr.input) + TokenCost(cached, CachedRate(pr)) + TokenCost(out, pr.output)
  }

  // ---- Sums over a ledger ----

  function Sum(f: Usage -> int, calls: seq<Usage>): int {
    if calls == [] then 0 else Sum(f, calls[..|calls| - 1]) + f(calls[|calls| - 1])
  }

  const IN: Usage -> int := (u: Usage) => u.tokensIn
  const OUT: Usage -> int := (u: Usage) => u.tokensOut
  const CACHED: Usage -> int := (u: Usage) => u.cachedIn
  const ENERGY: Usage -> int := (u: Usage) => u.energy

  /** Counters of all calls, each saturating at u64. */
  function Aggregate(calls: seq<Usage>): Usage
  {
    SumsNonNegative(calls);
    Usage(Min(Sum(IN, calls), U64_MAX), Min(Sum(OUT, calls), U64_MAX),
          Min(Sum(CACHED, calls), U64_MAX), Min(Sum(ENERGY, calls), U64_MAX))
  }

  lemma {:induction false} SumsNonNegative(calls: seq<Usage>)
    ensures Sum(IN, calls) >= 0 && Sum(OUT, calls) >= 0 && Sum(CACHED, calls) >= 0 && Sum(ENERGY, calls) >= 0
  {
    if calls != [] {
      SumsNonNegative(calls[..|calls| - 1]);
    }
  }

  function SaturatingAdd(a: U64, b: U64): (r: U64) { Min(a + b, U64_MAX) }

  /** The accumulating loop computes the saturated sums. */
  method AggregateUsage(calls: seq<Usage>) returns (total: Usage)
    ensures total == Aggregate(calls)
  {
    total := Usage(0, 0, 0, 0);
    for i := 0 to |calls|
      invariant total == Aggregate(calls[..i])
    {
      assert calls[..i + 1][..i] == calls[..i];
      SumsNonNegative(calls[..i]);
      total := Usage(
        SaturatingAdd(total.tokensIn, calls[i].tokensIn), SaturatingAdd(total.tokensOut, calls[i].tokensOut),
        SaturatingAdd(total.cachedIn, calls[i].cachedIn), SaturatingAdd(total.energy, calls[i].energy));
    }
    assert calls[..|calls|] == calls;
  }

  // ---- Energy, capped per request ----

  function RawOf(rate: I64): Usage -> int { (u: Usage) => EnergyCost(u.energy, rate) }

  function TokenOf(pr: Pricing): Usage -> int { (u: Usage) => TokenTotal(u, pr) }

  predicate IsCapped(raw: Usage -> int, token: Usage -> int, capped: bool, u: Usage) {
    capped && raw(u) > token(u)
  }

  /** What one request's energy costs: never more than its own token cost when capped. */
  function CappedBy(raw: Usage -> int, token: Usage -> int, capped: bool): Usage -> int {
    (u: Usage) => if IsCapped(raw, token, capped, u) then token(u) else raw(u)
  }

  /** The figure is the smaller of the two under the cap, and the raw one without it. */
  lemma CappedIsMin(raw: Usage -> int, token: Usage -> int, u: Usage)
    ensures CappedBy(raw, token, true)(u) == (if raw(u) <= token(u) then raw(u) else token(u))
    ensures CappedBy(raw, token, false)(u) == raw(u)
  {}

  predicate AnyCapped(calls: seq<Usage>, raw: Usage -> int, token: Usage -> int, capped: bool) {
    exists i :: 0 <= i < |calls| && IsCapped(raw, token, capped, calls[i])
  }

  ghost predicate NonNegative(f: Usage -> int) {
    forall u: Usage :: f(u) >= 0
  }

  lemma {:induction false} SumNonNegative(f: Usage -> int, calls: seq<Usage>)
    requires NonNegative(f)
    ensures Sum(f, calls) >= 0
  {
    if calls != [] {
      SumNonNegative(f, calls[..|calls| - 1]);
    }
  }

  datatype CappedEnergy = CappedEnergy(raw: int, effective: int, capped: bool)

  /** The loop over requests sums the raw and the capped figures and remembers any cap. */
  method PriceEnergy(calls: seq<Usage>, raw: Usage -> int, token: Usage -> int, capped: bool) returns (r: CappedEnergy)
    ensures r.raw == Clamp(Sum(raw, calls)) && r.effective == Clamp(Sum(CappedBy(raw, token, capped), calls))
    ensures r.capped <==> AnyCapped(calls, raw, token, capped)
  {
    var rawSum, effective, any := 0, 0, false;
    for i := 0 to |calls|
      invariant rawSum == Sum(raw, calls[..i])
      invariant effective == Sum(CappedBy(raw, token, capped), calls[..i])
      invariant any <==> AnyCapped(calls[..i], raw, token, capped)
    {
      assert calls[..i + 1][..i] == calls[..i];
      var one := raw(calls[i]);
      rawSum := rawSum + one;
      if capped && one > token(calls[i]) {
        one, any := token(calls[i]), true;
        assert IsCapped(raw, token, capped, calls[..i + 1][i]);
      }
      effective := effective + one;
    }
    assert calls[..|calls|] == calls;
    r := CappedEnergy(Clamp(rawSum), Clamp(effective), any);
  }

  /** The sum of the per-request minima is at most each of the two sums, and below the raw sum
      exactly when some request was capped. */
  lemma {:induction false} CapPerRequest(calls: seq<Usage>, raw: Usage -> int, token: Usage -> int, capped: bool)
    ensures var e := Sum(CappedBy(raw, token, capped), calls);
            && e <= Sum(raw, calls)
            && (capped ==> e <= Sum(token, calls))
            && (e < Sum(raw, calls) <==> AnyCapped(calls, raw, token, capped))
  {
    if calls != [] {
      var front := calls[..|calls| - 1];
      CapPerRequest(front, raw, token, capped);
      assert forall i :: 0 <= i < |front| ==> front[i] == calls[i];
    }
  }

  /** The reported flag against the reported figures: they differ exactly when a request was capped
      and the effective sum does not saturate. */
  lemma CappedFlagIff(calls: seq<Usage>, raw: Usage -> int, token: Usage -> int, capped: bool)
    requires NonNegative(raw) && NonNegative(token)
    ensures var e, r := Sum(CappedBy(raw, token, capped), calls), Sum(raw, calls);
            Clamp(e) < Clamp(r) <==> AnyCapped(calls, raw, token, capped) && e < I64_MAX
  {
    CapPerRequest(calls, raw, token, capped);
    SumNonNegative(CappedBy(raw, token, capped), calls);
  }

  // ---- Order does not matter ----

  lemma {:induction false} SumRemove(f: Usage -> int, calls: seq<Usage>, i: nat)
    requires i < |calls|
    ensures Sum(f, calls) == Sum(f, calls[..i] + calls[i + 1..]) + f(calls[i])
  {
    var n := |calls| - 1;
    var front, rest := calls[..n], calls[..i] + calls[i + 1..];
    if i < n {
      SumRemove(f, front, i);
      assert rest[..n - 1] == front[..i] + front[i + 1..];
      assert rest[n - 1] == calls[n] && front[i] == calls[i];
    } else {
      assert rest == front;
    }
  }

  lemma Cancel(x: multiset<Usage>, y: multiset<Usage>, u: Usage)
    requires x + multiset{u} == y + multiset{u}
    ensures x == y
  {
    assert x == (x + multiset{u}) - multiset{u};
    assert y == (y + multiset{u}) - multiset{u};
  }

  lemma Extract(a: seq<Usage>, b: seq<Usage>, i: nat)
    requires a != [] && i < |b| && multiset(a) == multiset(b) && b[i] == a[|a| - 1]
    ensures multiset(a[..|a| - 1]) == multiset(b[..i] + b[i + 1..])
  {
    assert multiset(a) == multiset(a[..|a| - 1]) + multiset{b[i]} by {
      assert a == a[..|a| - 1] + [b[i]];
    }
    assert multiset(b) == multiset(b[..i] + b[i + 1..]) + multiset{b[i]} by {
      assert b == b[..i] + [b[i]] + b[i + 1..];
    }
    Cancel(multiset(a[..|a| - 1]), multiset(b[..i] + b[i + 1..]), b[i]);
  }

  /** Every sum over the ledger is invariant under permutation of the calls. */
  lemma {:induction false} SumPermuted(f: Usage -> int, a: seq<Usage>, b: seq<Usage>)
    requires multiset(a) == multiset(b)
    ensures Sum(f, a) == Sum(f, b)
    decreases |a|
  {
    if a == [] {
      assert |multiset(b)| == 0;
    } else {
      var last := a[|a| - 1];
      assert last in multiset(b);
      var i :| 0 <= i < |b| && b[i] == last;
      Extract(a, b, i);
      SumPermuted(f, a[..|a| - 1], b[..i] + b[i + 1..]);
      SumRemove(f, b, i);
    }
  }

  /** Reordering the calls changes neither the token figure nor any energy figure. */
  lemma CostPermuted(a: seq<Usage>, b: seq<Usage>, raw: Usage -> int, token: Usage -> int, capped: bool)
    requires multiset(a) == multiset(b)
    ensures Aggregate(a) == Aggregate(b)
    ensures Sum(raw, a) == Sum(raw, b)
    ensures Sum(CappedBy(raw, token, capped), a) == Sum(CappedBy(raw, token, capped), b)
    ensures AnyCapped(a, raw, token, capped) <==> AnyCapped(b, raw, token, capped)
  {
    SumPermuted(IN, a, b);
    SumPermuted(OUT, a, b);
    SumPermuted(CACHED, a, b);
    SumPermuted(ENERGY, a, b);
    SumPermuted(raw, a, b);
    SumPermuted(CappedBy(raw, token, capped), a, b);
    CapPerRequest(a, raw, token, capped);
    CapPerRequest(b, raw, token, capped);
  }

  // ---- Rounding slack between per-request and once-priced figures ----

  /** The rate of cached prompt tokens: the card's own, or the input rate where the card has none. */
  function CachedCharge(pr: Pricing): int {
    match pr.cachedInput
    case Some(rate) => Charged(rate)
    case None => Charged(pr.input)
  }

  /** Exact price of one call, in millionths of a nano unit. No more than all input tokens are cached. */
  function ExactOf(pr: Pricing): Usage -> int {
    (u: Usage) =>
      var cached := if u.cachedIn < u.tokensIn then u.cachedIn else u.tokensIn;
      PartsExact(u.tokensIn - cached, cached, u.tokensOut, pr)
  }

  function PartsExact(plain: int, cached: int, out: int, pr: Pricing): int {
    plain * Charged(pr.input) + cached * CachedCharge(pr) + out * Charged(pr.output)
  }

  lemma {:induction false} ExactSums(calls: seq<Usage>, pr: Pricing)
    requires forall i :: 0 <= i < |calls| ==> calls[i].cachedIn <= calls[i].tokensIn
    ensures Sum(ExactOf(pr), calls)
         == (Sum(IN, calls) - Sum(CACHED, calls)) * Charged(pr.input) + Sum(CACHED, calls) * CachedCharge(pr)
            + Sum(OUT, calls) * Charged(pr.output)
  {
    if calls != [] {
      var front, u := calls[..|calls| - 1], calls[|calls| - 1];
      assert forall i :: 0 <= i < |front| ==> front[i] == calls[i];
      ExactSums(front, pr);
      Distribute(Sum(IN, front) - Sum(CACHED, front), u.tokensIn - u.cachedIn, Charged(pr.input));
      Distribute(Sum(CACHED, front), u.cachedIn, CachedCharge(pr));
      Distribute(Sum(OUT, front), u.tokensOut, Charged(pr.output));
    }
  }

  lemma Distribute(a: int, b: int, c: int)
    ensures (a + b) * c == a * c + b * c
  {}

  /** `f` is at most three half units above the exact `g`, which counts millionths. */
  predicate Above(f: int, g: int, k: nat) {
    2 * TOKENS_PER_MILLION * f <= 2 * g + k * 3 * TOKENS_PER_MILLION
  }

  lemma PartsNearest(plain: U64, cached: U64, out: U64, pr: Pricing)
    ensures var sum, exact := PartsCost(plain, cached, out, pr), PartsExact(plain, cached, out, pr);
            && Above(sum, exact, 1)
            && (sum < I64_MAX ==> 2 * exact - 3 * TOKENS_PER_MILLION <= 2 * TOKENS_PER_MILLION * sum)
  {
    PricedNearest(plain, pr.input, TOKENS_PER_MILLION);
    PricedNearest(cached, CachedRate(pr), TOKENS_PER_MILLION);
    PricedNearest(out, pr.output, TOKENS_PER_MILLION);
  }

  /** Three rounded prices: at most three half units off the exact price. */
  lemma TokenTotalNearest(u: Usage, pr: Pricing)
    ensures Above(TokenOf(pr)(u), ExactOf(pr)(u), 1)
    ensures RawTokenTotal(u, pr) < I64_MAX ==>
              2 * ExactOf(pr)(u) - 3 * TOKENS_PER_MILLION <= 2 * TOKENS_PER_MILLION * TokenOf(pr)(u)
  {
    var cached := CachedOf(u);
    PartsNearest(u.tokensIn - cached, cached, u.tokensOut, pr);
    ClampNearest(PartsCost(u.tokensIn - cached, cached, u.tokensOut, pr),
                 PartsExact(u.tokensIn - cached, cached, u.tokensOut, pr));
  }

  lemma ClampNearest(sum: int, exact: int)
    requires sum >= 0 && Above(sum, exact, 1)
    requires sum < I64_MAX ==> 2 * exact - 3 * TOKENS_PER_MILLION <= 2 * TOKENS_PER_MILLION * sum
    ensures Above(Clamp(sum), exact, 1)
    ensures sum < I64_MAX ==> 2 * exact - 3 * TOKENS_PER_MILLION <= 2 * TOKENS_PER_MILLION * Clamp(sum)
  {}

  lemma {:induction false} SumAbove(f: Usage -> int, g: Usage -> int, calls: seq<Usage>)
    requires forall i :: 0 <= i < |calls| ==> Above(f(calls[i]), g(calls[i]), 1)
    ensures Above(Sum(f, calls), Sum(g, calls), |calls|)
  {
    if calls != [] {
      var n := |calls| - 1;
      SumAbove(f, g, calls[..n]);
      assert Above(f(calls[n]), g(calls[n]), 1);
    }
  }

  lemma {:induction false} CachedBelowIn(calls: seq<Usage>)
    requires forall i :: 0 <= i < |calls| ==> calls[i].cachedIn <= calls[i].tokensIn
    ensures Sum(CACHED, calls) <= Sum(IN, calls)
  {
    if calls != [] {
      CachedBelowIn(calls[..|calls| - 1]);
    }
  }

  lemma AggregateExact(calls: seq<Usage>, pr: Pricing)
    requires forall i :: 0 <= i < |calls| ==> calls[i].cachedIn <= calls[i].tokensIn
    requires Sum(IN, calls) <= U64_MAX && Sum(OUT, calls) <= U64_MAX && Sum(CACHED, calls) <= Sum(IN, calls)
    ensures ExactOf(pr)(Aggregate(calls)) == Sum(ExactOf(pr), calls)
  {
    ExactSums(calls, pr);
  }

  lemma SlackArithmetic(e: int, t: int, s: int, x: int, n: nat)
    requires e <= s && Above(s, x, n) && 2 * x - 3 * TOKENS_PER_MILLION <= 2 * TOKENS_PER_MILLION * t
    ensures 2 * e <= 2 * t + 3 * (n + 1)
  {}

  /** For `n` calls whose cached tokens are part of their input, with no counter and no token price
      saturating, the capped energy exceeds the token cost priced once over the summed tokens by
      at most 3(n + 1)/2 nano units, whatever the energy rate. */
  lemma RoundingSlack(calls: seq<Usage>, raw: Usage -> int, pr: Pricing)
    requires forall i :: 0 <= i < |calls| ==> calls[i].cachedIn <= calls[i].tokensIn
    requires Sum(IN, calls) <= U64_MAX && Sum(OUT, calls) <= U64_MAX
    requires RawTokenTotal(Aggregate(calls), pr) < I64_MAX
    ensures 2 * Sum(CappedBy(raw, TokenOf(pr), true), calls) <= 2 * TokenOf(pr)(Aggregate(calls)) + 3 * (|calls| + 1)
  {
    var f, g := TokenOf(pr), ExactOf(pr);
    CapPerRequest(calls, raw, f, true);
    forall i | 0 <= i < |calls| ensures Above(f(calls[i]), g(calls[i]), 1) {
      TokenTotalNearest(calls[i], pr);
    }
    SumAbove(f, g, calls);
    CachedBelowIn(calls);
    AggregateExact(calls, pr);
    TokenTotalNearest(Aggregate(calls), pr);
    SlackArithmetic(Sum(CappedBy(raw, f, true), calls), f(Aggregate(calls)), Sum(f, calls), Sum(g, calls), |calls|);
  }

  // ---- The total the user pays ----

  datatype CostStatus = Known | Unknown | NotApplicable

  datatype TotalStatus = TotalKnown | Incomplete | MixedCurrency | TotalUnknown

  datatype Figure = Figure(currency: Currency, nano: int)

  datatype DecisionCost = DecisionCost(
    status: CostStatus, currency: Option<Currency>, token: Option<int>, energy: Option<int>)

  /** An absent figure adds nothing. */
  function OrZero(x: Option<int>): int { if x.Some? then x.value else 0 }

  datatype CostTotal = CostTotal(status: TotalStatus, currency: Option<Currency>, nano: Option<int>)

  function ExtractionFigure(e: Option<(CostStatus, Option<Figure>)>): Option<Figure> {
    if e.Some? && e.value.0.Known? then e.value.1 else None
  }

  function DecisionFigure(d: Option<DecisionCost>): Option<Figure> {
    if d.Some? && d.value.status.Known? && d.value.currency.Some? && d.value.token.Some?
    then Some(Figure(d.value.currency.value, Clamp(d.value.token.value + OrZero(d.value.energy))))
    else None
  }

  function FoldTotal(extraction: Option<(CostStatus, Option<Figure>)>, decision: Option<DecisionCost>): CostTotal {
    var e, d := ExtractionFigure(extraction), DecisionFigure(decision);
    if extraction.None? && decision.None? then CostTotal(TotalUnknown, None, None)
    else if (extraction.Some? && e.None?) || (decision.Some? && d.None?) then
      var other := if decision.Some? then decision.value.currency else None;
      var currency := if e.Some? then Some(e.value.currency) else other;
      CostTotal(Incomplete, currency, None)
    else if decision.None? then CostTotal(TotalKnown, Some(e.value.currency), Some(e.value.nano))
    else if extraction.None? then CostTotal(TotalKnown, Some(d.value.currency), Some(d.value.nano))
    else if e.value.currency != d.value.currency then CostTotal(MixedCurrency, None, None)
    else CostTotal(TotalKnown, Some(e.value.currency), Some(Clamp(e.value.nano + d.value.nano)))
  }

  /** The components that were recorded, each with its figure if it could be priced. */
  function Components(extraction: Option<(CostStatus, Option<Figure>)>,
      decision: Option<DecisionCost>): seq<Option<Figure>> {
    (if extraction.Some? then [ExtractionFigure(extraction)] else [])
    + (if decision.Some? then [DecisionFigure(decision)] else [])
  }

  function SumFigures(fs: seq<Option<Figure>>): int {
    if fs == [] then 0 else SumFigures(fs[..|fs| - 1]) + (if fs[|fs| - 1].Some? then fs[|fs| - 1].value.nano else 0)
  }

  /** Honesty of the total: a number is shown exactly when every recorded component is priced and
      all are in one currency, and then it is their whole sum; a hole or a currency mix shows none. */
  lemma TotalHonest(extraction: Option<(CostStatus, Option<Figure>)>, decision: Option<DecisionCost>)
    requires extraction.Some? && extraction.value.1.Some? ==> 0 <= extraction.value.1.value.nano <= I64_MAX
    ensures var t, fs := FoldTotal(extraction, decision), Components(extraction, decision);
            var priced := forall i :: 0 <= i < |fs| ==> fs[i].Some?;
            var oneCurrency := forall i, j :: 0 <= i < j < |fs| && fs[i].Some? && fs[j].Some? ==>
                fs[i].value.currency == fs[j].value.currency;
            && (t.status.TotalUnknown? <==> fs == [])
            && (t.status.Incomplete? <==> !priced)
            && (t.status.MixedCurrency? <==> priced && !oneCurrency)
            && (t.nano.Some? <==> t.status.TotalKnown?)
            && (t.nano.Some? ==> t.nano.value == Clamp(SumFigures(fs)))
            && (t.nano.Some? ==> forall i :: 0 <= i < |fs| ==> t.currency == Some(fs[i].value.currency))
  {
    var e, d, fs := ExtractionFigure(extraction), DecisionFigure(decision), Components(extraction, decision);
    if extraction.Some? && decision.Some? {
      assert fs == [e, d] && fs[..1] == [e] && [e][..0] == [];
      assert SumFigures(fs) == SumFigures([e]) + (if d.Some? then d.value.nano else 0);
    } else if extraction.Some? {
      assert fs == [e] && fs[0] == e;
    } else if decision.Some? {
      assert fs == [d] && fs[0] == d;
    }
  }

  /** What counts as a priced component: a known status with its figure; for the decision, a known status
      with currency and token cost, and the figure is the token cost plus the energy cost if any. */
  lemma FigureIff(extraction: Option<(CostStatus, Option<Figure>)>, d: DecisionCost)
    ensures forall f :: ExtractionFigure(extraction) == Some(f) <==> extraction == Some((Known, Some(f)))
    ensures DecisionFigure(Some(d)).Some? <==> d.status.Known? && d.currency.Some? && d.token.Some?
    ensures DecisionFigure(None).None?
    ensures d.status.Known? && d.currency.Some? && d.token.Some? && d.energy.Some? ==>
              DecisionFigure(Some(d)).value == Figure(d.currency.value, Clamp(d.token.value + d.energy.value))
    ensures d.status.Known? && d.currency.Some? && d.token.Some? && d.energy.None? ==>
              DecisionFigure(Some(d)).value == Figure(d.currency.value, Clamp(d.token.value))
  {}

  /** The currency shown without a number: none for nothing or a mix; otherwise the extraction's, and
      the decision's own where the extraction could not be priced. */
  lemma TotalCurrency(extraction: Option<(CostStatus, Option<Figure>)>, decision: Option<DecisionCost>)
    ensures var t, e := FoldTotal(extraction, decision), ExtractionFigure(extraction);
            && (t.status.TotalUnknown? || t.status.MixedCurrency? ==> t.currency.None?)
            && (t.status.Incomplete? && e.Some? ==> t.currency == Some(e.value.currency))
            && (t.status.Incomplete? && e.None? && decision.Some? ==> t.currency == decision.value.currency)
  {}

  /** The Decision Model's component, priced by its own rate card or not at all. */
  method DecisionBreakdown(calls: seq<Usage>, pricing: Option<Pricing>) returns (d: DecisionCost)
    ensures DecisionFigure(Some(d)).Some? <==> pricing.Some?
    ensures pricing.None? ==> d == DecisionCost(Unknown, None, None, None)
    ensures pricing.Some? ==>
              var pr := pricing.value;
              && d.currency == Some(pr.currency) && d.token == Some(TokenTotal(Aggregate(calls), pr))
              && (d.energy.Some? <==> pr.energyPerKwh.Some? && Sum(ENERGY, calls) > 0)
              && (d.energy.Some? ==>
                    var effective := CappedBy(RawOf(pr.energyPerKwh.value), TokenOf(pr), pr.energyCapped);
                    d.energy.value == Clamp(Sum(effective, calls)))
  {
    if pricing.None? {
      return DecisionCost(Unknown, None, None, None);
    }
    var pr := pricing.value;
    var aggregate := AggregateUsage(calls);
    SumsNonNegative(calls);
    var energy := None;
    if pr.energyPerKwh.Some? && aggregate.energy > 0 {
      var figure := PriceEnergy(calls, RawOf(pr.energyPerKwh.value), TokenOf(pr), pr.energyCapped);
      energy := Some(figure.effective);
    }
    d := DecisionCost(Known, Some(pr.currency), Some(TokenTotal(aggregate, pr)), energy);
  }

  datatype EnergyBreakdown = EnergyBreakdown(energy: U64, rate: I64, raw: int, effective: int, capped: bool)

  /** The energy figure that counts. */
  function EffectiveEnergy(energy: Option<EnergyBreakdown>): int {
    if energy.Some? then energy.value.effective else 0
  }

  datatype Breakdown = Breakdown(
    status: CostStatus, currency: Option<Currency>, token: Option<int>,
    energy: Option<EnergyBreakdown>, total: CostTotal)

  /** The snapshot of a job. An unpriced extraction next to a recorded decision component makes the
      total incomplete, never a partial sum. */
  method CostBreakdown(calls: seq<Usage>, pricing: Option<Pricing>,
      decision: Option<DecisionCost>) returns (b: Breakdown)
    ensures pricing.None? ==>
              && b.status.Unknown? && b.token.None? && b.energy.None? && b.currency.None?
              && b.total.nano.None? && (b.total.status.TotalUnknown? <==> decision.None?)
    ensures pricing.Some? ==>
              && b.status.Known? && b.currency == Some(pricing.value.currency)
              && b.token == Some(TokenTotal(Aggregate(calls), pricing.value))
              && (b.energy.Some? <==> pricing.value.energyPerKwh.Some? && Sum(ENERGY, calls) > 0)
    ensures pricing.Some? && b.energy.Some? ==>
              var pr, en := pricing.value, b.energy.value;
              var raw, token := RawOf(pr.energyPerKwh.value), TokenOf(pr);
              && en.raw == Clamp(Sum(raw, calls))
              && en.effective == Clamp(Sum(CappedBy(raw, token, pr.energyCapped), calls))
              && (en.capped <==> AnyCapped(calls, raw, token, pr.energyCapped))
    ensures pricing.Some? && decision.None? ==>
              var own := b.token.value + if b.energy.Some? then b.energy.value.effective else 0;
              b.total == CostTotal(TotalKnown, b.currency, Some(Clamp(own)))
    ensures pricing.Some? && decision.Some? ==>
              var own := Clamp(b.token.value + if b.energy.Some? then b.energy.value.effective else 0);
              var d := DecisionFigure(decision);
              && (b.total.nano.Some? <==> d.Some? && d.value.currency == pricing.value.currency)
              && (b.total.nano.Some? ==> b.total.nano.value == Clamp(own + d.value.nano))
  {
    if pricing.None? {
      var extraction := if decision.Some? then Some((Unknown, None)) else None;
      return Breakdown(Unknown, None, None, None, FoldTotal(extraction, decision));
    }
    var pr := pricing.value;
    var aggregate := AggregateUsage(calls);
    SumsNonNegative(calls);
    var token := TokenTotal(aggregate, pr);
    var energy: Option<EnergyBreakdown> := None;
    if pr.energyPerKwh.Some? && aggregate.energy > 0 {
      var rate := pr.energyPerKwh.value;
      var figure := PriceEnergy(calls, RawOf(rate), TokenOf(pr), pr.energyCapped);
      energy := Some(EnergyBreakdown(aggregate.energy, rate, figure.raw, figure.effective, figure.capped));
    }
    var nano := Clamp(token + EffectiveEnergy(energy));
    var total := FoldTotal(Some((Known, Some(Figure(pr.currency, nano)))), decision);
    b := Breakdown(Known, Some(pr.currency), Some(token), energy, total);
  }
}
