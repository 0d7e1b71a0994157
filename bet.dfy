/** A bet of the casino demo: the stake every player pays, the close time,
    the potential winners (the bank first, then every player who accepted
    the bet) and the bank's edge, which weighs the draw in the bank's
    favour. Java's 32-bit `int` arithmetic is written out where the source
    relies on it. The remote calls a bet makes (withdrawing a player's
    chips, paying the winner) are modelled by their outcome. */
module Casino {
  import opened Wrappers

  const MinInt32: int := -0x8000_0000
  const MaxInt32: int := 0x7fff_ffff
  const Modulus32: int := 0x1_0000_0000
  const MinInt64: int := -0x8000_0000_0000_0000
  const MaxInt64: int := 0x7fff_ffff_ffff_ffff

  predicate IsInt32(x: int)
  {
    MinInt32 <= x <= MaxInt32
  }

  predicate IsInt64(x: int)
  {
    MinInt64 <= x <= MaxInt64
  }

  /** The Java `int` that an exact result wraps around to. */
  function Wrap32(x: int): (r: int)
    ensures IsInt32(r)
    ensures IsInt32(x) ==> r == x
    ensures (x - r) % Modulus32 == 0
  {
    var m := x % Modulus32;
    if m > MaxInt32 then m - Modulus32 else m
  }

  /** Two numbers that differ by a multiple of 2^32 wrap to the same `int`. */
  lemma WrapCongruent(x: int, y: int, k: int)
    requires x == y + k * Modulus32
    ensures Wrap32(x) == Wrap32(y)
  {
    assert x % Modulus32 == y % Modulus32 by {
      var q := y / Modulus32;
      assert y == q * Modulus32 + y % Modulus32;
      assert x == (q + k) * Modulus32 + y % Modulus32;
    }
  }

  /** Java's `/` on `int` (without the overflow of MIN_VALUE / -1):
      division rounding toward zero. */
  function JavaQuot(a: int, b: int): int
    requires b != 0
  {
    var ab := if a >= 0 then a else -a;
    var bb := if b >= 0 then b else -b;
    if (a >= 0) == (b > 0) then ab / bb else -(ab / bb)
  }

  /** Java's `%` on `int`: the remainder of truncating division, which has
      the sign of the dividend and completes Java's quotient to the
      dividend, `(a / b) * b + a % b == a`. */
  function JavaRem(a: int, b: int): (r: int)
    requires b != 0
    ensures a >= 0 ==> 0 <= r < (if b > 0 then b else -b)
    ensures a <= 0 ==> -(if b > 0 then b else -b) < r <= 0
    ensures JavaQuot(a, b) * b + r == a
  {
    var ab := if a >= 0 then a else -a;
    var bb := if b >= 0 then b else -b;
    QuotientIdentity(a, b, ab, bb);
    if a >= 0 then ab % bb else -(ab % bb)
  }

  /** Truncating division and its remainder recompose the dividend: for
      magnitudes `ab` and `bb`, the signs of `a` and `b` move to the
      quotient and the remainder without changing the product. */
  lemma QuotientIdentity(a: int, b: int, ab: nat, bb: int)
    requires b != 0
    requires ab == (if a >= 0 then a else -a) && bb == (if b >= 0 then b else -b)
    ensures JavaQuot(a, b) * b + (if a >= 0 then ab % bb else -(ab % bb)) == a
  {
    var q := ab / bb;
    var m := ab % bb;
    assert ab == q * bb + m;
    if a >= 0 && b < 0 {
      NegateBoth(q, bb);
    } else if a < 0 && b > 0 {
      NegateOne(q, bb);
    } else if a < 0 && b < 0 {
      NegateOne(bb, q);
    }
  }

  lemma NegateBoth(x: int, y: int)
    ensures (-x) * (-y) == x * y
  {
  }

  lemma NegateOne(x: int, y: int)
    ensures (-x) * y == -(x * y) && y * (-x) == -(x * y)
  {
  }

  /** A potential winner: the bank or a player, by identity. */
  datatype Winner = Winner(id: string)

  /** The evictor that stores the bet, by name. */
  datatype EvictorRef = EvictorRef(name: string)

  datatype BetError =
    | OutOfChips
    | DivisionByZero
    | IndexOutOfBounds(index: int)

  /** The chips a bet holds: the stake times the number of potential
      winners, as a Java `int`. */
  function ChipsFor(amount: int, size: int): (chips: int)
    ensures IsInt32(chips)
    ensures IsInt32(amount * size) ==> chips == amount * size
  {
    Wrap32(amount * size)
  }

  /** Each accepted player adds one stake to the chips in play, modulo
      2^32 as Java's `int` arithmetic has it. */
  lemma {:induction false} ChipsGrowByStake(amount: int, size: int)
    ensures ChipsFor(amount, size + 1) == Wrap32(ChipsFor(amount, size) + amount)
  {
    var w := Wrap32(amount * size);
    var k := (amount * size - w) / Modulus32;
    assert amount * size - w == k * Modulus32;
    assert amount * (size + 1) == amount * size + amount;
    WrapCongruent(amount * (size + 1), w + amount, k);
  }

  /** The winner index of `complete` exactly as written: `random` is
      negated in `int` arithmetic, the draw is taken modulo
      `size + (bankEdge - 1)` in `int` arithmetic, a draw past the last
      player goes to the bank, and a negative index is out of bounds for
      the vector. */
  function WinnerIndexAsWritten(random: int, size: int, bankEdge: int): (r: Result<int, BetError>)
    requires IsInt32(random) && IsInt32(size) && IsInt32(bankEdge)
    ensures r.Success? ==> 0 <= r.value && (size >= 1 ==> r.value < size)
  {
    var positive := if random < 0 then Wrap32(-random) else random;
    var range := Wrap32(size + Wrap32(bankEdge - 1));
    if range == 0 then Failure(DivisionByZero)
    else
      var draw := JavaRem(positive, range);
      var index := if draw >= size then 0 else draw;
      if index < 0 then Failure(IndexOutOfBounds(index)) else Success(index)
  }

  /** Negating Integer.MIN_VALUE overflows back to itself, so a draw of
      MIN_VALUE with one potential winner and a bank edge of 3 yields the
      index -2 and the vector access throws. */
  lemma MinValueDrawFails()
    ensures WinnerIndexAsWritten(MinInt32, 1, 3) == Failure(IndexOutOfBounds(-2))
  {
    assert Wrap32(-MinInt32) == MinInt32;
    assert JavaRem(MinInt32, 3) == -2;
  }

  /** The winner index as intended: `random` is negated exactly, as a
      64-bit negation would, and the range is computed exactly. */
  function WinnerIndex(random: int, size: int, bankEdge: int): (r: Result<int, BetError>)
    ensures r.Failure? <==> size + bankEdge == 1
    ensures r.Failure? ==> r.error == DivisionByZero
    ensures r.Success? && size >= 1 ==> 0 <= r.value < size
  {
    var positive := if random < 0 then -random else random;
    var range := size + (bankEdge - 1);
    if range == 0 then Failure(DivisionByZero)
    else
      var draw := JavaRem(positive, range);
      Success(if draw >= size then 0 else draw)
  }

  /** With at least one potential winner, the draw never divides by zero
      when the bank's edge is at least 1, and the index is always a valid
      position of the vector. */
  lemma WinnerIndexInRange(random: int, size: int, bankEdge: int)
    requires size >= 1
    ensures bankEdge >= 1 ==> WinnerIndex(random, size, bankEdge).Success?
    ensures WinnerIndex(random, size, bankEdge).Success? ==> 0 <= WinnerIndex(random, size, bankEdge).value < size
    ensures WinnerIndex(random, size, bankEdge).Failure? <==> size + bankEdge == 1
  {
  }

  /** Every potential winner can win: a draw below the number of potential
      winners picks that position. */
  lemma EveryWinnerReachable(j: int, size: int, bankEdge: int)
    requires 0 <= j < size && bankEdge >= 1
    ensures WinnerIndex(j, size, bankEdge) == Success(j)
  {
    var range := size + (bankEdge - 1);
    RemainderOfSmaller(j, range);
    assert JavaRem(j, range) == j;
  }

  /** A non-negative number below the divisor is its own remainder. */
  lemma RemainderOfSmaller(a: int, m: int)
    requires 0 <= a < m
    ensures a % m == a
  {
  }

  /** The bank's edge: draws from `size` to `size + bankEdge - 2` go to the
      bank, at index 0. */
  lemma EdgeGoesToBank(draw: int, size: int, bankEdge: int)
    requires size >= 1 && size <= draw < size + bankEdge - 1
    ensures WinnerIndex(draw, size, bankEdge) == Success(0)
  {
  }

  /** The corrected index is the source's wherever the source's `int`
      arithmetic does not overflow. */
  lemma WinnerIndexAgrees(random: int, size: int, bankEdge: int)
    requires IsInt32(random) && IsInt32(size) && IsInt32(bankEdge)
    requires random != MinInt32 && size >= 1 && IsInt32(size + bankEdge - 1)
    ensures WinnerIndexAsWritten(random, size, bankEdge) == WinnerIndex(random, size, bankEdge)
  {
    NegationFits(random);
    RangeFits(size, bankEdge);
  }

  /** Negating any `int` but MIN_VALUE gives an `int`. */
  lemma NegationFits(random: int)
    requires IsInt32(random) && random != MinInt32
    ensures (if random < 0 then Wrap32(-random) else random) == (if random < 0 then -random else random)
  {
  }

  /** `size + (bankEdge - 1)` wraps to its exact value when the exact sum
      fits, even if `bankEdge - 1` alone wraps around. */
  lemma RangeFits(size: int, bankEdge: int)
    requires IsInt32(size) && IsInt32(bankEdge) && size >= 1 && IsInt32(size + bankEdge - 1)
    ensures Wrap32(size + Wrap32(bankEdge - 1)) == size + (bankEdge - 1)
  {
    if bankEdge == MinInt32 {
      assert Wrap32(bankEdge - 1) == MaxInt32;
      WrapCongruent(size + MaxInt32, size + (bankEdge - 1), 1);
    }
  }

  /** What `complete` pays out: to whom and how many chips. */
  datatype Payout = Payout(winner: Winner, chips: int)

  class Bet {
    var amount: int
    var closeTime: int
    /** The bank, then the players in the order they accepted. */
    var potentialWinners: seq<Winner>
    var evictor: EvictorRef
    var bankEdge: int

    /** The fields hold Java `int` and `long` values and the bank is always
        there. */
    ghost predicate Valid()
      reads this
    {
      IsInt32(amount) && IsInt64(closeTime) && IsInt32(bankEdge) &&
      1 <= |potentialWinners| <= MaxInt32
    }

    /** A new bet has the bank as its only potential winner. */
    constructor(amount: int, closeTime: int, bank: Winner, evictor: EvictorRef, bankEdge: int)
      requires IsInt32(amount) && IsInt64(closeTime) && IsInt32(bankEdge)
      ensures Valid()
      ensures this.amount == amount && this.closeTime == closeTime
      ensures this.evictor == evictor && this.bankEdge == bankEdge
      ensures potentialWinners == [bank]
    {
      this.amount := amount;
      this.closeTime := closeTime;
      new;
      Init(evictor, bankEdge);
      potentialWinners := [bank];
    }

    /** Sets the evictor and the bank's edge, and nothing else. */
    method Init(evictor: EvictorRef, bankEdge: int)
      modifies this`evictor, this`bankEdge
      ensures this.evictor == evictor && this.bankEdge == bankEdge
    {
      this.evictor := evictor;
      this.bankEdge := bankEdge;
    }

    /** A player accepts the bet: a null player, or one whose chips cannot
        be withdrawn (`withdrawn` is false), is out of chips; otherwise the
        player becomes the last potential winner. */
    method Accept(p: Option<Winner>, withdrawn: bool) returns (r: Outcome<BetError>)
      requires Valid() && |potentialWinners| < MaxInt32
      modifies this`potentialWinners
      ensures Valid()
      ensures (p.None? || !withdrawn) ==> r == Fail(OutOfChips) && potentialWinners == old(potentialWinners)
      ensures p.Some? && withdrawn ==> r == Pass && potentialWinners == old(potentialWinners) + [p.value]
      ensures r.Pass? ==> ChipsInPlay() == Wrap32(old(ChipsInPlay()) + amount)
    {
      if p.None? {
        return Fail(OutOfChips);
      }
      if !withdrawn {
        return Fail(OutOfChips);
      }
      ChipsGrowByStake(amount, |potentialWinners|);
      potentialWinners := potentialWinners + [p.value];
      return Pass;
    }

    /** The chips in play. */
    function ChipsInPlay(): (chips: int)
      reads this
      ensures chips == ChipsFor(amount, |potentialWinners|)
    {
      Wrap32(amount * |potentialWinners|)
    }

    /** Completes the bet with the draw `random`: picks the winner's
        position, and pays the stake times the number of potential winners
        to that winner or, when the winner no longer exists (`winnerGone`),
        to the bank. */
    method Complete(random: int, winnerGone: bool) returns (r: Result<Payout, BetError>)
      requires Valid() && IsInt32(random)
      ensures WinnerIndex(random, |potentialWinners|, bankEdge).Failure? ==> r == Failure(DivisionByZero)
      ensures WinnerIndex(random, |potentialWinners|, bankEdge).Success? ==>
        var index := WinnerIndex(random, |potentialWinners|, bankEdge).value;
        0 <= index < |potentialWinners| &&
        r == Success(Payout(if winnerGone then potentialWinners[0] else potentialWinners[index],
                            ChipsFor(amount, |potentialWinners|)))
    {
      WinnerIndexInRange(random, |potentialWinners|, bankEdge);
      var positive := random;
      if positive < 0 {
        positive := -positive;
      }
      var size := |potentialWinners|;
      var range := size + (bankEdge - 1);
      if range == 0 {
        return Failure(DivisionByZero);
      }
      var winnerIndex := JavaRem(positive, range);
      if winnerIndex >= size {
        winnerIndex := 0;
      }
      var winner := potentialWinners[winnerIndex];
      var chips := Wrap32(amount * size);
      if winnerGone {
        winner := potentialWinners[0];
      }
      return Success(Payout(winner, chips));
    }
  }
}
