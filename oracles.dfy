/** The two sources of randomness the generator draws from: `System.Random`
    and `Guid.NewGuid`. Their bodies are deterministic stand-ins; callers may
    rely only on what the contracts say (the range of a draw, the freshness of
    a GUID), which is all that the generator's behaviour depends on. */
module Oracles {
  import opened Decimal
  import opened Sequences

  /** `int.MaxValue`: `Random.Next()` draws from [0, Int32Max). */
  const Int32Max: int := 0x7FFF_FFFF

  /** Number of digits in the text of a GUID of this model. */
  const GuidDigits: nat := 32

  /** `System.Random`. The clock-derived seed is replaced by a fixed one. */
  class Random {
    var seed: nat

    constructor ()
    {
      seed := 0x5EED;
    }

    /** `Next(minValue, maxValue)`: a value in [minValue, maxValue). */
    method Next(minValue: int, maxValue: int) returns (r: int)
      requires minValue < maxValue
      modifies this`seed
      ensures minValue <= r < maxValue
    {
      r := minValue + seed % (maxValue - minValue);
      seed := (seed * 1103515245 + 12345) % 0x8000_0000;
    }

    /** `Next()`: a non-negative value below `int.MaxValue`. */
    method NextNonNegative() returns (r: int)
      modifies this`seed
      ensures 0 <= r < Int32Max
    {
      r := Next(0, Int32Max);
    }
  }

  /** The shape every GUID text of this model has: a string of digits. */
  predicate IsGuid(g: string) {
    |g| >= GuidDigits && AllDigits(g)
  }

  /** `Guid.NewGuid().ToString("D")`: every GUID handed out is new. The
      process-wide source is one object shared by all its users. */
  class GuidSource {
    var next: nat
    ghost var Issued: set<string>
    /** The GUIDs handed out, in order. */
    ghost var Log: seq<string>

    ghost predicate Valid()
      reads this
    {
      (forall g :: g in Issued ==> IsGuid(g) && ParseDecimal(g) < next) &&
      Distinct(Log) && Issued == Elems(Log)
    }

    constructor ()
      ensures Valid() && Issued == {} && Log == []
    {
      next := 0;
      Issued := {};
      Log := [];
    }

    method NewGuid() returns (g: string)
      requires Valid()
      modifies this`next, this`Issued, this`Log
      ensures Valid()
      ensures IsGuid(g) && g !in old(Issued)
      ensures Issued == old(Issued) + {g} && Log == old(Log) + [g]
    {
      g := PadLeft(Dec(next), GuidDigits);
      ParsePadded(next, GuidDigits);
      ElemsOf(Log);
      DistinctAppend(Log, [g]);
      ElemsSnoc(Log, g);
      Issued := Issued + {g};
      Log := Log + [g];
      next := next + 1;
    }
  }
}
