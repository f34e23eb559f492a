/** The token budget of `crates/contextra-types/src/types/budget.rs` as the engine uses it: one thread at a
    time, machine-word arithmetic that saturates. */
module TokenBudget {

  const USIZE_MAX: nat := 0xFFFF_FFFF_FFFF_FFFF

  datatype Strategy = Conservative | Aggressive | Exact(n: nat)

  datatype Budget = Budget(limit: nat, strategy: Strategy, reserved: nat, consumed: nat)

  function Saturated(n: nat): (r: nat)
    ensures r <= USIZE_MAX && r <= n
  {
    if n > USIZE_MAX then USIZE_MAX else n
  }

  function Minus(a: nat, b: nat): nat {
    if a < b then 0 else a - b
  }

  // All the counters fit a machine word.
  predicate Fits(b: Budget) {
    b.limit <= USIZE_MAX && b.reserved <= USIZE_MAX && b.consumed <= USIZE_MAX &&
    (b.strategy.Exact? ==> b.strategy.n <= USIZE_MAX)
  }

  /** `effective_limit` */
  function EffectiveLimit(b: Budget): nat {
    match b.strategy
    case Conservative => Saturated(b.limit * 4) / 5
    case Aggressive => Saturated(b.limit * 19) / 20
    case Exact(n) => n
  }

  /** `available` */
  function Available(b: Budget): nat {
    Minus(Minus(EffectiveLimit(b), b.reserved), b.consumed)
  }

  /** `consume` */
  function Consume(b: Budget, tokens: nat): Budget {
    b.(consumed := Saturated(b.consumed + tokens))
  }

  /** `refund`, and the drop of an unsettled reservation. */
  function Refund(b: Budget, tokens: nat): Budget {
    b.(consumed := Minus(b.consumed, tokens))
  }

  /** Whether `reserve` succeeds; if it does, the budget is that of `Consume`. */
  predicate CanReserve(b: Budget, amount: nat) {
    Available(b) > 0 && amount <= Available(b)
  }

  // The budget after a step that reserved `estimate` and then used `tokens`.
  function Settle(b: Budget, estimate: nat, tokens: nat): Budget {
    if tokens > estimate then Consume(b, tokens - estimate)
    else if estimate > tokens then Refund(b, estimate - tokens)
    else b
  }

  /** Whatever the estimate was, settling leaves exactly the tokens used on the account. */
  lemma SettledExactly(b: Budget, estimate: nat, tokens: nat)
    requires Fits(b) && CanReserve(b, estimate)
    ensures Settle(Consume(b, estimate), estimate, tokens) == Consume(b, tokens)
  {
  }

  /** A reservation that is dropped leaves no mark. */
  lemma DroppedWithoutMark(b: Budget, estimate: nat)
    requires Fits(b) && CanReserve(b, estimate)
    ensures Refund(Consume(b, estimate), estimate) == b
  {
  }

  /** Consuming in parts is consuming the sum, saturation included. */
  lemma ConsumedTogether(b: Budget, m: nat, n: nat)
    ensures Consume(Consume(b, m), n) == Consume(b, m + n)
  {
  }

  /** The usable part of the limit: four fifths or nineteen twentieths of it, rounded down, as long as the
      product fits the machine word and never more than the limit; or the stated number. */
  lemma UsableShare(b: Budget)
    requires Fits(b)
    ensures match b.strategy
      case Exact(n) => EffectiveLimit(b) == n
      case Conservative => IsShare(EffectiveLimit(b), b.limit, 4, 5) && EffectiveLimit(b) <= b.limit
      case Aggressive => IsShare(EffectiveLimit(b), b.limit, 19, 20) && EffectiveLimit(b) <= b.limit
  {
  }

  // `l` is the whole part of n / d of `limit`, or of the largest machine word where n times the limit exceeds it.
  predicate IsShare(l: nat, limit: nat, n: nat, d: nat) {
    if n * limit <= USIZE_MAX then d * l <= n * limit < d * (l + 1) else d * l <= USIZE_MAX < d * (l + 1)
  }

  /** A reservation is granted exactly when something is left and, with it, what is set aside and what is consumed
      still stay within the usable part; granting it takes exactly its amount from what is left. */
  lemma GrantedExactly(b: Budget, amount: nat)
    requires Fits(b)
    ensures CanReserve(b, amount) <==>
      b.reserved + b.consumed < EffectiveLimit(b) && b.reserved + b.consumed + amount <= EffectiveLimit(b)
    ensures CanReserve(b, amount) ==> Available(Consume(b, amount)) + amount == Available(b)
    ensures Available(b) > 0 ==> b.reserved + b.consumed + Available(b) == EffectiveLimit(b)
    ensures Available(b) == 0 <==> b.reserved + b.consumed >= EffectiveLimit(b)
  {
  }
}
