/**
 * The pricing calculator: a selection of services toggled on and off, and a
 * price estimate from their base prices, a complexity level, a timeline in
 * months and an optional support plan.
 *
 * Every multiplier (1, 1.5, 2.5, 4 and 1.5, 1.25, 1) is an exact binary
 * fraction, so the estimate is computed on integers scaled by 8: complexity
 * times 2 and timeline times 4. `Math.round(x)` is `floor(x + 1/2)`.
 */
module Pricing {
  import opened Maybe
  import opened Listing

  /** A service on offer: its id and its base price in dollars. */
  datatype Service = Service(id: string, basePrice: nat)

  /** The `services` table. */
  const Services: seq<Service> := [
    Service("web", 5000),
    Service("mobile", 8000),
    Service("cloud", 3000),
    Service("seo", 2000),
    Service("leads", 2500),
    Service("maintenance", 1000)
  ]

  /** The id test, as a function value. */
  function HasId(id: string): Service -> bool { (s: Service) => s.id == id }

  /** `services.find((s) => s.id === id)?.basePrice || 0`: an unknown id is worth 0. */
  function BasePrice(id: string): (p: nat)
    ensures p == 0 <==> forall i :: 0 <= i < |Services| ==> Services[i].id != id
    ensures p != 0 ==> exists i :: 0 <= i < |Services| && Services[i].id == id && Services[i].basePrice == p
  {
    match FindFirst(Services, HasId(id))
    case Some(s) =>
      assert s in Services;
      s.basePrice
    case None => 0
  }

  /**
   * `toggleService`: an id already selected is filtered out, otherwise it is
   * appended; afterwards `id` is selected exactly when it was not before, and
   * every other id is as it was.
   */
  function ToggleService(prev: seq<string>, id: string): (r: seq<string>)
    ensures id in r <==> id !in prev
    ensures forall y :: y != id ==> (y in r <==> y in prev)
  {
    if id in prev then Without(prev, id) else prev + [id]
  }

  /** A toggle keeps the other selected ids in their relative order. */
  lemma ToggleKeepsOrder(prev: seq<string>, id: string)
    ensures Without(ToggleService(prev, id), id) == Without(prev, id)
  {
    if id in prev {
      WithoutAbsent(Without(prev, id), id);
    } else {
      WithoutAppend(prev, [id], id);
      assert Without([id], id) == [];
    }
  }

  /** Toggling an unselected id twice restores the selection. */
  lemma ToggleTwice(prev: seq<string>, id: string)
    requires id !in prev
    ensures ToggleService(ToggleService(prev, id), id) == prev
  {
    WithoutAppend(prev, [id], id);
    WithoutAbsent(prev, id);
    assert Without([id], id) == [];
  }

  /** A toggle never introduces a duplicate. */
  lemma ToggleNoDup(prev: seq<string>, id: string)
    requires NoDup(prev)
    ensures NoDup(ToggleService(prev, id))
  {
    if id in prev {
      KeepNoDup(prev, Differs(id));
    }
  }

  /** The selection after clicking the given service ids in turn, starting from `[]`. */
  function Selection(clicks: seq<string>): seq<string>
    decreases |clicks|
  {
    if clicks == [] then [] else ToggleService(Selection(clicks[..|clicks| - 1]), clicks[|clicks| - 1])
  }

  /** However the services are clicked, the selection never lists an id twice. */
  lemma {:induction false} SelectionNoDup(clicks: seq<string>)
    ensures NoDup(Selection(clicks))
    decreases |clicks|
  {
    if clicks != [] {
      SelectionNoDup(clicks[..|clicks| - 1]);
      ToggleNoDup(Selection(clicks[..|clicks| - 1]), clicks[|clicks| - 1]);
    }
  }

  /** `baseTotal`: the sum of the selected services' base prices. */
  function BaseTotal(selected: seq<string>): nat {
    if selected == [] then 0 else BasePrice(selected[0]) + BaseTotal(selected[1..])
  }

  lemma {:induction false} BaseTotalAppend(a: seq<string>, b: seq<string>)
    ensures BaseTotal(a + b) == BaseTotal(a) + BaseTotal(b)
  {
    if a == [] {
      assert a + b == b;
    } else {
      assert (a + b)[0] == a[0];
      assert (a + b)[1..] == a[1..] + b;
      BaseTotalAppend(a[1..], b);
    }
  }

  /** Selecting a service adds its base price to the total; deselecting it takes the price off again. */
  lemma ToggleTotal(prev: seq<string>, id: string)
    requires NoDup(prev)
    ensures id !in prev ==> BaseTotal(ToggleService(prev, id)) == BaseTotal(prev) + BasePrice(id)
    ensures id in prev ==> BaseTotal(ToggleService(prev, id)) == BaseTotal(prev) - BasePrice(id)
  {
    if id in prev {
      RemoveTotal(prev, id);
    } else {
      BaseTotalAppend(prev, [id]);
      assert BaseTotal([id]) == BasePrice(id) by {
        assert [id][1..] == [];
      }
    }
  }

  lemma RemoveTotal(prev: seq<string>, id: string)
    requires NoDup(prev) && id in prev
    ensures BaseTotal(Without(prev, id)) + BasePrice(id) == BaseTotal(prev)
  {
    var i :| 0 <= i < |prev| && prev[i] == id;
    var a, b := prev[..i], prev[i + 1..];
    assert prev == a + [id] + b;
    WithoutSplit(a, id, b);
    assert BaseTotal([id]) == BasePrice(id) by {
      assert [id][1..] == [];
    }
    BaseTotalAppend(a + [id], b);
    BaseTotalAppend(a, [id]);
    BaseTotalAppend(a, b);
  }

  /** `complexityMultipliers[level].value`, as the table writes it. */
  function ComplexityMultiplier(level: nat): real
    requires level < 4
  {
    [1.0, 1.5, 2.5, 4.0][level]
  }

  /** `timelineMultiplier`, as the source writes it. */
  function TimelineMultiplier(months: int): real {
    if months <= 1 then 1.5 else if months <= 2 then 1.25 else 1.0
  }

  /** `complexityMultipliers[level].value` times 2: Basic 1, Standard 1.5, Advanced 2.5, Enterprise 4. */
  function ComplexityTimes2(level: nat): (r: nat)
    requires level < 4
    ensures r as real == 2.0 * ComplexityMultiplier(level)
  {
    [2, 3, 5, 8][level]
  }

  /** `timelineMultiplier` times 4: 1.5 up to one month, 1.25 up to two, 1 beyond. */
  function TimelineTimes4(months: int): (r: nat)
    ensures r as real == 4.0 * TimelineMultiplier(months)
  {
    if months <= 1 then 6 else if months <= 2 then 5 else 4
  }

  /** `supportCost`: 500 a month when support is included. */
  function SupportCost(includeSupport: bool, months: int): int {
    if includeSupport then 500 * months else 0
  }

  /** Eight times `baseTotal * complexityMultiplier * timelineMultiplier + supportCost`, exactly, for a base total `base`. */
  function ScaledQuote(base: nat, level: nat, months: int, includeSupport: bool): int
    requires level < 4
  {
    base * ComplexityTimes2(level) * TimelineTimes4(months) + 8 * SupportCost(includeSupport, months)
  }

  /** The unrounded quote on real numbers: `baseTotal * complexityMultiplier * timelineMultiplier + supportCost`. */
  function Quote(base: nat, level: nat, months: int, includeSupport: bool): real
    requires level < 4
  {
    base as real * ComplexityMultiplier(level) * TimelineMultiplier(months)
      + SupportCost(includeSupport, months) as real
  }

  /** The integer computation scaled by 8 is the real-valued quote, exactly. */
  lemma ScaledQuoteExact(base: nat, level: nat, months: int, includeSupport: bool)
    requires level < 4
    ensures ScaledQuote(base, level, months, includeSupport) as real == 8.0 * Quote(base, level, months, includeSupport)
  {
  }

  /** `estimatedPrice`: the quote rounded to the nearest dollar, halves rounded up. */
  function EstimatedPrice(selected: seq<string>, level: nat, months: int, includeSupport: bool): (r: int)
    requires level < 4
    ensures 8 * r <= ScaledQuote(BaseTotal(selected), level, months, includeSupport) + 4 < 8 * r + 8
  {
    (ScaledQuote(BaseTotal(selected), level, months, includeSupport) + 4) / 8
  }

  /** `Math.round` of the quote: the estimate is within half a dollar of the real-valued quote, halves rounded up. */
  lemma EstimateRoundsQuote(selected: seq<string>, level: nat, months: int, includeSupport: bool)
    requires level < 4
    ensures var r := EstimatedPrice(selected, level, months, includeSupport);
            r as real - 0.5 <= Quote(BaseTotal(selected), level, months, includeSupport) < r as real + 0.5
  {
    ScaledQuoteExact(BaseTotal(selected), level, months, includeSupport);
  }

  /** On the timeline slider's range the estimate is never negative. */
  lemma EstimateNonNegative(selected: seq<string>, level: nat, months: int, includeSupport: bool)
    requires level < 4 && months >= 0
    ensures EstimatedPrice(selected, level, months, includeSupport) >= 0
  {
    var b, c, t := BaseTotal(selected), ComplexityTimes2(level), TimelineTimes4(months);
    MulNonNegative(b, c);
    MulNonNegative(b * c, t);
    assert ScaledQuote(BaseTotal(selected), level, months, includeSupport) >= 0;
  }

  lemma MulNonNegative(x: nat, y: nat)
    ensures x * y >= 0
  {
  }

  /** With nothing selected and no support the estimate is 0. */
  lemma EstimateZero(level: nat, months: int)
    requires level < 4
    ensures EstimatedPrice([], level, months, false) == 0
  {
  }

  /** Rounding half up preserves order. */
  lemma RoundMonotone(a: int, b: int)
    requires a <= b
    ensures (a + 4) / 8 <= (b + 4) / 8
  {
  }

  /** A higher complexity level never lowers the estimate. */
  lemma EstimateMonotoneInComplexity(selected: seq<string>, lo: nat, hi: nat, months: int, includeSupport: bool)
    requires lo <= hi < 4
    ensures EstimatedPrice(selected, lo, months, includeSupport) <= EstimatedPrice(selected, hi, months, includeSupport)
  {
    ComplexityMonotone(lo, hi);
    ProductMonotone(BaseTotal(selected), ComplexityTimes2(lo), ComplexityTimes2(hi), TimelineTimes4(months));
    RoundMonotone(ScaledQuote(BaseTotal(selected), lo, months, includeSupport), ScaledQuote(BaseTotal(selected), hi, months, includeSupport));
  }

  /** The complexity multipliers increase with the level: 1 < 1.5 < 2.5 < 4. */
  lemma ComplexityMonotone(lo: nat, hi: nat)
    requires lo <= hi < 4
    ensures ComplexityTimes2(lo) <= ComplexityTimes2(hi)
  {
    var m := [2, 3, 5, 8];
    assert m[0] < m[1] < m[2] < m[3];
  }

  lemma ProductMonotone(b: nat, lo: nat, hi: nat, t: nat)
    requires lo <= hi
    ensures b * lo * t <= b * hi * t
  {
    MulMonotone(b, lo, hi);
    MulMonotoneRight(b * lo, b * hi, t);
  }

  lemma MulMonotoneRight(x: int, y: int, k: nat)
    requires x <= y
    ensures x * k <= y * k
  {
  }

  lemma MulMonotone(k: nat, x: int, y: int)
    requires x <= y
    ensures k * x <= k * y
  {
  }

  /** Adding support never lowers the estimate (on the slider's range of months). */
  lemma EstimateMonotoneInSupport(selected: seq<string>, level: nat, months: int)
    requires level < 4 && months >= 0
    ensures EstimatedPrice(selected, level, months, false) <= EstimatedPrice(selected, level, months, true)
  {
    RoundMonotone(ScaledQuote(BaseTotal(selected), level, months, false), ScaledQuote(BaseTotal(selected), level, months, true));
  }

  /** The quote button is disabled exactly when no service is selected; then only support is charged. */
  function QuoteDisabled(selected: seq<string>): (r: bool)
    ensures r ==> BaseTotal(selected) == 0
  {
    |selected| == 0
  }
}
