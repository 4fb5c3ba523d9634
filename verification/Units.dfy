/** Cacheable-prefix units, the vocabulary every offline cache simulation shares
    (kvcache.Unit): a block's identity and its token count. */
module Units {

  datatype Unit = Unit(hash: nat, tokens: int)

  /** A path from the root of a prefix cache: the hashes of a leading run of units. */
  type Path = seq<nat>

  function Hashes(units: seq<Unit>): (hs: Path)
    ensures |hs| == |units|
    ensures forall i | 0 <= i < |units| :: hs[i] == units[i].hash
  {
    seq(|units|, i requires 0 <= i < |units| => units[i].hash)
  }

  function SumTokens(units: seq<Unit>): int
  {
    if |units| == 0 then 0 else SumTokens(units[..|units| - 1]) + units[|units| - 1].tokens
  }

  function Max(a: int, b: int): int { if a >= b then a else b }

  function Min(a: int, b: int): int { if a <= b then a else b }

  lemma {:induction false} SumTokensMonotone(units: seq<Unit>, a: nat, b: nat)
    requires a <= b <= |units|
    requires forall u | u in units :: u.tokens >= 0
    ensures SumTokens(units[..a]) <= SumTokens(units[..b])
    decreases b
  {
    if a < b {
      SumTokensMonotone(units, a, b - 1);
      assert units[..b][..b - 1] == units[..b - 1];
    }
  }
}
