/** Shared vocabulary of the navigation engine: the optional selection that
    stands in for the widget library's list/table state, saturating
    subtraction on indices, and the step resolution that every scrollable
    collection inherits from the `Scrollable` capability. */
module Scroll {

  /** An optional selected index (or any optional value). */
  datatype Option<+T> = None | Some(value: T)

  /** Magnitude of a line step and of a page step. */
  const LineStep: nat := 1
  const PageStep: nat := 10

  /** The primitive a scroll command is dispatched to, with its magnitude. */
  datatype Call = Up(amount: nat) | Down(amount: nat)

  /** Subtraction on unsigned indices that stops at zero instead of
      underflowing. */
  function SatSub(a: nat, b: nat): (r: nat)
    ensures r <= a
    ensures a >= b ==> r + b == a
    ensures a < b ==> r == 0
  {
    if a >= b then a - b else 0
  }

  /** Resolves an (up, page) command to the primitive it runs: `scroll_up`
      exactly when `up`, with a page step for `page` and a line step
      otherwise. The magnitude handed on is therefore never zero. */
  function Resolve(up: bool, page: bool): (c: Call)
    ensures c.Up? <==> up
    ensures c.amount >= 1
    ensures page ==> c.amount == PageStep
    ensures !page ==> c.amount == LineStep
  {
    var step := if page then PageStep else LineStep;
    if up then Up(step) else Down(step)
  }

  /** One (up, page) key press, as a collection receives it. */
  datatype Key = Key(up: bool, page: bool)
}
