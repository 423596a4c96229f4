/**
 The print-settings page: the options a customer picks, the copies stepper, and the
 estimated price. Money is in minor units (paise), so 1.50 is 150.
 */
module PrintSettings {

  /** Per-copy rate for black-and-white printing (1.50). */
  const BwRate: int := 150
  /** Per-copy rate for any other print type, priced as colour (4.00). */
  const ColorRate: int := 400
  /** Per-copy surcharge for double-sided printing (2.50). */
  const DoubleSidedSurcharge: int := 250

  /**
   The page's state. `pageRange` is only the "all"/"custom" choice; no page range is
   parsed and the price does not depend on it.
   */
  datatype Settings = Settings(
    paperType: string,
    printType: string,
    printingSide: string,
    pageRange: string,
    copies: int)

  /** The state the page starts in. */
  const Initial: Settings := Settings("standard", "bw", "single", "all", 1)

  /** The per-copy price: a base by print type plus the double-sided surcharge. */
  function PerCopy(printType: string, printingSide: string): (rate: int)
    ensures rate == BwRate || rate == ColorRate || rate == BwRate + DoubleSidedSurcharge
            || rate == ColorRate + DoubleSidedSurcharge
    ensures printType == "bw" ==> rate <= ColorRate
    ensures printType != "bw" ==> rate >= ColorRate
  {
    var base := if printType == "bw" then BwRate else ColorRate;
    if printingSide == "double" then base + DoubleSidedSurcharge else base
  }

  /** `calculatePrice`: the estimated price shown on the page, before display rounding. */
  function CalculatePrice(s: Settings): (price: int)
    ensures s.copies >= 1 ==> BwRate * s.copies <= price <= (ColorRate + DoubleSidedSurcharge) * s.copies
    ensures s.copies == 0 ==> price == 0
  {
    PerCopy(s.printType, s.printingSide) * s.copies
  }

  // ---------------------------------------------------------------------------
  // The copies stepper and the other controls

  /** The minus button: never below one copy. */
  function Decrement(copies: int): (r: int)
    ensures r >= 1
    ensures copies > 1 ==> r == copies - 1
    ensures copies <= 1 ==> r == 1
  {
    if copies - 1 > 1 then copies - 1 else 1
  }

  /** The plus button. */
  function Increment(copies: int): (r: int)
    ensures r > copies
    ensures Decrement(r) == if copies >= 1 then copies else 1
  {
    copies + 1
  }

  /** A user action on the page. */
  datatype Action =
    | Minus
    | Plus
    | ChoosePaperType(paperType: string)
    | ChoosePrintType(printType: string)
    | ChoosePrintingSide(printingSide: string)
    | ChoosePageRange(pageRange: string)

  function Apply(s: Settings, a: Action): (r: Settings)
    ensures s.copies >= 1 ==> r.copies >= 1
  {
    match a
    case Minus => s.(copies := Decrement(s.copies))
    case Plus => s.(copies := Increment(s.copies))
    case ChoosePaperType(p) => s.(paperType := p)
    case ChoosePrintType(p) => s.(printType := p)
    case ChoosePrintingSide(p) => s.(printingSide := p)
    case ChoosePageRange(p) => s.(pageRange := p)
  }

  /** The state after the actions, in order. */
  function Run(s: Settings, actions: seq<Action>): Settings
    decreases |actions|
  {
    if |actions| == 0 then s else Run(Apply(s, actions[0]), actions[1..])
  }

  /** At least one copy is an invariant of every sequence of actions. */
  lemma {:induction false} CopiesStayPositive(s: Settings, actions: seq<Action>)
    requires s.copies >= 1
    ensures Run(s, actions).copies >= 1
    decreases |actions|
  {
    if |actions| > 0 {
      CopiesStayPositive(Apply(s, actions[0]), actions[1..]);
    }
  }

  /** Whatever the customer does, the price shown is at least 1.50 per copy. */
  lemma ReachablePriceIsPositive(actions: seq<Action>)
    ensures var s := Run(Initial, actions); CalculatePrice(s) >= BwRate * s.copies >= BwRate
  {
    CopiesStayPositive(Initial, actions);
  }

  // ---------------------------------------------------------------------------
  // The price rule

  lemma BwSingleSidedPrice(s: Settings)
    requires s.printType == "bw" && s.printingSide != "double"
    ensures CalculatePrice(s) == 150 * s.copies
  {
  }

  /** Every print type other than "bw" costs what "color" costs. */
  lemma OtherPrintTypesPricedAsColour(s: Settings)
    requires s.printType != "bw"
    ensures CalculatePrice(s) == CalculatePrice(s.(printType := "color"))
    ensures s.printingSide != "double" ==> CalculatePrice(s) == 400 * s.copies
  {
  }

  /** Double-sided adds exactly 2.50 per copy, for either print type. */
  lemma DoubleSidedAddsSurcharge(s: Settings)
    ensures CalculatePrice(s.(printingSide := "double"))
         == CalculatePrice(s.(printingSide := "single")) + 250 * s.copies
  {
  }

  /** More copies always cost strictly more. */
  lemma PriceStrictlyIncreasingInCopies(s: Settings, fewer: int, more: int)
    requires fewer < more
    ensures CalculatePrice(s.(copies := fewer)) < CalculatePrice(s.(copies := more))
  {
  }

  /** The paper type and the page-range choice do not enter the price. */
  lemma PriceIgnoresPaperAndRange(s: Settings, paperType: string, pageRange: string)
    ensures CalculatePrice(s.(paperType := paperType, pageRange := pageRange)) == CalculatePrice(s)
  {
  }

  /** The page opens showing 1.50. */
  lemma InitialPrice()
    ensures Initial.copies == 1
    ensures CalculatePrice(Initial) == 150
  {
  }
}
