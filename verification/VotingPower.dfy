/** The decay of granted voting power (x/dao/keeper/keeper.go, CalculateVoterPower). */
module VotingPower {
  import opened GoInts
  import opened LegacyDec
  import opened DaoTypes

  /** One lot's contribution, in the operations the code uses: uint64 blocks, int64 ratios, decimals. */
  function LotPower(lot: Lot, decay: uint64, height: nat): int {
    if lot.amount == 0 then 0
    else if decay == 0 then lot.amount
    else
      var blocksPassed := ToUint64(height - lot.grantHeight);
      if blocksPassed >= decay then 0
      else
        var remainingRatio := ONE - QuoInt64(FromInt(ToInt(blocksPassed)), ToInt(decay));
        var decayedPower := TruncateInt(Mul(FromInt(lot.amount), remainingRatio));
        if decayedPower > 0 then decayedPower else 0
  }

  /** The share, in units of 10^-18, that a lot of the given age still counts. */
  function Remaining(age: nat, decay: nat): (r: nat)
    requires age < decay
    ensures 0 < r <= ONE
    ensures ONE * (decay - age) <= r * decay < ONE * (decay - age) + decay
  {
    RemainingBounds(age, decay);
    ONE - age * ONE / decay
  }

  lemma RemainingBounds(age: nat, decay: nat)
    requires age < decay
    ensures
      var r := ONE - age * ONE / decay;
      && 0 < r <= ONE
      && ONE * (decay - age) <= r * decay < ONE * (decay - age) + decay
  {
    var q := age * ONE / decay;
    DivBounds(age * ONE, decay);
    DivAtLeast(age * ONE, decay, ONE);
    assert ONE * decay > age * ONE;
    assert (ONE - q) * decay == ONE * decay - q * decay;
    assert ONE * (decay - age) == ONE * decay - ONE * age;
    assert (q + 1) * decay == q * decay + decay;
  }

  /** The same over natural numbers, for a lot of the given age. */
  function Decayed(amount: nat, age: nat, decay: nat): nat
    requires decay > 0
  {
    if age >= decay then 0 else amount * Remaining(age, decay) / ONE
  }

  /** Under the side conditions that no check enforces, the code computes Decayed. */
  lemma LotPowerIsDecayed(lot: Lot, decay: uint64, height: nat)
    requires lot.amount > 0 && 0 < decay < TWO_63
    requires lot.grantHeight <= height < TWO_64
    ensures LotPower(lot, decay, height) == Decayed(lot.amount, height - lot.grantHeight, decay)
  {
    hide Mul, TruncateInt, QuoInt64, Remaining;
    var age := height - lot.grantHeight;
    assert ToUint64(age) == age;
    if age < decay {
      QuoOfNaturals(FromInt(age), decay);
      assert Remaining(age, decay) == ONE - age * ONE / decay by { RemainingIs(age, decay); }
      MulIsExact(lot.amount, Remaining(age, decay));
    }
  }

  lemma QuoOfNaturals(a: nat, k: nat)
    requires k > 0
    ensures QuoInt64(a, k) == a / k
  {
  }

  lemma RemainingIs(age: nat, decay: nat)
    requires age < decay
    ensures Remaining(age, decay) == ONE - age * ONE / decay
  {
  }

  /** An integer times a ratio loses no digits before the truncation. */
  lemma MulIsExact(a: nat, r: nat)
    ensures TruncateInt(Mul(FromInt(a), r)) == a * r / ONE
  {
    assert FromInt(a) * r == (a * r) * ONE;
    ChopExact(a * r);
  }

  /**
   DaoParams.Validate accepts any uint64 as the decay duration, but from 2^63 on
   the conversion to int64 makes it negative, and an old lot counts for more than
   its amount. The code decays power exactly when the duration is below 2^63.
   */
  lemma DecayNeedsInt64(decay: uint64)
    requires decay > 0
    ensures
      decay < TWO_63 <==>
        forall lot: Lot, height: nat | lot.amount > 0 && lot.grantHeight <= height < TWO_64 ::
          LotPower(lot, decay, height) == Decayed(lot.amount, height - lot.grantHeight, decay)
  {
    if decay < TWO_63 {
      forall lot: Lot, height: nat | lot.amount > 0 && lot.grantHeight <= height < TWO_64
        ensures LotPower(lot, decay, height) == Decayed(lot.amount, height - lot.grantHeight, decay)
      {
        LotPowerIsDecayed(lot, decay, height);
      }
    } else {
      DecayOverflow(decay);
      DecayBounds(ONE, TWO_63 - 1, decay);
    }
  }

  /** A lot of 10^18 that has aged 2^63 - 1 blocks counts for more than 10^18. */
  lemma DecayOverflow(decay: uint64)
    requires decay >= TWO_63
    ensures LotPower(Lot("", 0, ONE, 0), decay, TWO_63 - 1) > ONE
  {
    hide QuoInt64, Mul, TruncateInt;
    var age, k := TWO_63 - 1, TWO_64 - decay;
    assert ToInt(decay) == -k && 0 < k <= TWO_63;
    QuoByNegative(FromInt(age), k);
    DivAtLeast(age * ONE, k, 1);
    MulIsExact(ONE, ONE + age * ONE / k);
    DivCancel(ONE + age * ONE / k, 1, ONE);
  }

  /** With the largest duration that Validate accepts, every lot counts double one block after its grant. */
  lemma DecayDoubles(lot: Lot)
    requires lot.amount > 0 && lot.grantHeight + 1 < TWO_64
    ensures LotPower(lot, TWO_64 - 1, lot.grantHeight + 1) == 2 * lot.amount
  {
    hide Mul, TruncateInt;
    assert ToUint64(lot.grantHeight + 1 - lot.grantHeight) == 1 && ToInt(TWO_64 - 1) == -1;
    assert QuoInt64(FromInt(1), -1) == -ONE;
    MulIsExact(lot.amount, 2 * ONE);
    DivCancel(2 * lot.amount, 1, ONE);
    assert lot.amount * (2 * ONE) == (2 * lot.amount) * ONE;
  }

  lemma QuoByNegative(a: nat, k: nat)
    requires a > 0 && k > 0
    ensures QuoInt64(a, 0 - k) == 0 - a / k
  {
  }

  // ---------- bounds ----------

  /** With p = Decayed(A, b, D): floor(A(D-b)/D) <= p <= A, and p is at most one more when A <= 10^18. */
  lemma DecayBounds(amount: nat, age: nat, decay: nat)
    requires age < decay
    ensures amount * (decay - age) / decay <= Decayed(amount, age, decay) <= amount
    ensures amount <= ONE ==> Decayed(amount, age, decay) <= amount * (decay - age) / decay + 1
  {
    var r := Remaining(age, decay);
    LowerBound(amount, age, decay, r);
    UpperBound(amount, r);
    if amount <= ONE { TightBound(amount, age, decay, r); }
  }

  lemma LowerBound(amount: nat, age: nat, decay: nat, r: nat)
    requires age < decay && ONE * (decay - age) <= r * decay
    ensures amount * (decay - age) / decay <= amount * r / ONE
  {
    assert (amount * (decay - age)) * ONE == amount * (ONE * (decay - age));
    assert (amount * r) * decay == amount * (r * decay);
    assert amount * (ONE * (decay - age)) <= amount * (r * decay);
    DivOrder(amount * (decay - age), decay, amount * r, ONE);
  }

  lemma UpperBound(amount: nat, r: nat)
    requires r <= ONE
    ensures amount * r / ONE <= amount
  {
    assert amount * r <= amount * ONE;
    DivOrder(amount * r, ONE, amount, 1);
  }

  lemma TightBound(amount: nat, age: nat, decay: nat, r: nat)
    requires age < decay && amount <= ONE
    requires r * decay < ONE * (decay - age) + decay
    ensures amount * r / ONE <= amount * (decay - age) / decay + 1
  {
    var p, m := amount * r / ONE, amount * (decay - age) / decay;
    DivBounds(amount * r, ONE);
    DivBounds(amount * (decay - age), decay);
    ScaledBound(amount, decay - age, decay, r, p);
    assert (m + 1) * decay + decay == (m + 2) * decay;
    MulLe(m + 2, p, decay);
  }

  lemma ScaledBound(amount: nat, left: nat, decay: nat, r: nat, p: nat)
    requires decay > 0 && amount <= ONE && r * decay < ONE * left + decay && p * ONE <= amount * r
    ensures p * decay <= amount * left + decay
  {
    assert amount * (r * decay) <= amount * (ONE * left + decay);
    assert amount * (ONE * left + decay) == ONE * (amount * left) + amount * decay;
    MulLe(amount, ONE, decay);
    MulLe(p * ONE, amount * r, decay);
    assert (amount * r) * decay == amount * (r * decay);
    assert (p * ONE) * decay == ONE * (p * decay);
  }

  /** A fresh lot counts in full, and an old one not at all. */
  lemma DecayEnds(amount: nat, decay: nat)
    requires decay > 0
    ensures Decayed(amount, 0, decay) == amount
    ensures forall age :: age >= decay ==> Decayed(amount, age, decay) == 0
  {
    assert 0 * ONE / decay == 0;
  }

  lemma RemainingAntitone(age: nat, age': nat, decay: nat)
    requires age' <= age < decay
    ensures Remaining(age, decay) <= Remaining(age', decay)
  {
    assert age' * ONE * decay <= age * ONE * decay;
    DivOrder(age' * ONE, decay, age * ONE, decay);
  }

  /** Power grows with the amount and shrinks with age. */
  lemma DecayMonotone(amount: nat, age: nat, amount': nat, age': nat, decay: nat)
    requires decay > 0 && amount <= amount' && age' <= age
    ensures Decayed(amount, age, decay) <= Decayed(amount', age', decay)
  {
    if age < decay {
      RemainingAntitone(age, age', decay);
      var r, r' := Remaining(age, decay), Remaining(age', decay);
      assert amount * r <= amount' * r';
      DivOrder(amount * r, ONE, amount' * r', ONE);
    }
  }

  function SumOf(amounts: seq<nat>): nat {
    if amounts == [] then 0 else amounts[0] + SumOf(amounts[1..])
  }

  function SumDecayed(amounts: seq<nat>, age: nat, decay: nat): nat
    requires decay > 0
  {
    if amounts == [] then 0 else Decayed(amounts[0], age, decay) + SumDecayed(amounts[1..], age, decay)
  }

  lemma SplitInTwo(x: nat, y: nat, age: nat, decay: nat)
    requires decay > 0
    ensures Decayed(x, age, decay) + Decayed(y, age, decay) <= Decayed(x + y, age, decay)
  {
    if age < decay {
      var r := Remaining(age, decay);
      assert (x + y) * r == x * r + y * r;
      DivBounds(x * r, ONE);
      DivBounds(y * r, ONE);
      DivAtLeast((x + y) * r, ONE, x * r / ONE + y * r / ONE);
    }
  }

  /** Splitting a lot into several of the same age never gives more power. */
  lemma {:induction false} SplittingNeverGains(amounts: seq<nat>, age: nat, decay: nat)
    requires decay > 0
    ensures SumDecayed(amounts, age, decay) <= Decayed(SumOf(amounts), age, decay)
  {
    if amounts != [] {
      SplittingNeverGains(amounts[1..], age, decay);
      SplitInTwo(amounts[0], SumOf(amounts[1..]), age, decay);
    }
  }
}
