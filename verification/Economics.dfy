/** What a stake is worth to everyone: every on-chain value of a game derives from it, in sompi. */
module Economics {
  import opened Outcomes

  const SOMPI_PER_KAS := 100_000_000
  const MIN_STAKE_SOMPI := SOMPI_PER_KAS
  const GAME_FEE_DENOMINATOR := 100
  const GAME_FEE_NUMERATOR := 1
  const GAME_FEE_MINIMUM_SOMPI := SOMPI_PER_KAS
  const AUTOMATION_FEE_SOMPI := 1_600_000

  datatype Terms = Terms(
    lock: int,
    pot: int,
    gameFee: int,
    settlementPayout: int,
    fallbackPayout: int,
    refundPayout: int,
    refundOpenPayout: int,
    refundAllPayout: int)

  datatype StakeError = InvalidStake

  function GameFee(stake: int): int {
    var fee := 2 * stake * GAME_FEE_NUMERATOR / GAME_FEE_DENOMINATOR;
    if fee >= GAME_FEE_MINIMUM_SOMPI then fee else 0
  }

  function Resolve(stake: int): (r: Result<Terms, StakeError>)
    ensures r.Ok? <==> stake >= 100_000_000
    ensures r.Ok? ==> r.value.lock == stake && Conserves(r.value) && Positive(r.value)
  {
    if stake < MIN_STAKE_SOMPI then Err(InvalidStake)
    else
      var winner := 2 * stake - GameFee(stake);
      if winner - AUTOMATION_FEE_SOMPI <= 0 then Err(InvalidStake)
      else Ok(Terms(stake, 2 * stake, GameFee(stake), winner, winner - AUTOMATION_FEE_SOMPI, stake,
                    stake - AUTOMATION_FEE_SOMPI, stake - AUTOMATION_FEE_SOMPI / 2))
  }

  /** However a game ends, its payouts, the game fee and the automation fee are exactly what was locked. */
  ghost predicate Conserves(t: Terms) {
    && t.pot == 2 * t.lock
    && t.settlementPayout + t.gameFee == t.pot
    && t.fallbackPayout + t.gameFee + 1_600_000 == t.pot
    && t.refundAllPayout + t.refundAllPayout + 1_600_000 == t.pot
    && t.refundPayout == t.lock
    && t.refundOpenPayout + 1_600_000 == t.lock
  }

  ghost predicate Positive(t: Terms) {
    && t.lock > 0 && t.gameFee >= 0
    && t.settlementPayout > 0 && t.fallbackPayout > 0
    && t.refundPayout > 0 && t.refundOpenPayout > 0 && t.refundAllPayout > 0
  }

  /** The fee is one percent of the pot, rounded down, and is charged only from 100 KAS in the pot. */
  lemma GameFeeIsOnePercent(stake: int)
    requires Resolve(stake).Ok?
    ensures var fee := Resolve(stake).value.gameFee;
      && (fee > 0 <==> 2 * stake >= 100 * 100_000_000)
      && (fee > 0 ==> 100 * fee <= 2 * stake < 100 * (fee + 1))
  {
  }
}
