/** The logging levels and the gate that compares a call's level with the configured one. */
module Levels {

  import opened Options

  /** `Print.Level`, an `Int`-backed enumeration; `Max` is the "print nothing" threshold. */
  datatype Level = Debug | Info | Warning | Error | Max

  /** The raw value of a level: its position in the declaration, starting at 0. */
  function Rank(lv: Level): (r: nat)
    ensures lv == Debug ==> r == 0
    ensures lv == Info ==> r == 1
    ensures lv == Warning ==> r == 2
    ensures lv == Error ==> r == 3
    ensures lv == Max ==> r == 4
  {
    match lv
    case Debug => 0
    case Info => 1
    case Warning => 2
    case Error => 3
    case Max => 4
  }

  /** The level with a given raw value, if any (Swift's synthesized `init?(rawValue:)`). */
  function FromRank(n: int): (r: Option<Level>)
    ensures r.Some? <==> 0 <= n <= 4
    ensures r.Some? ==> Rank(r.value) == n
  {
    if n == 0 then Some(Debug)
    else if n == 1 then Some(Info)
    else if n == 2 then Some(Warning)
    else if n == 3 then Some(Error)
    else if n == 4 then Some(Max)
    else None
  }

  /** Every level is recovered from its raw value, so distinct levels have distinct raw values. */
  lemma RankRoundTrip(lv: Level)
    ensures FromRank(Rank(lv)) == Some(lv)
  {
  }

  /**
    The gate: whether a message at `lv` is written when the configured level
    is `threshold`. Each threshold lets through itself and the levels declared
    after it.
  */
  function Emits(lv: Level, threshold: Level): (b: bool)
    ensures b <==> match threshold
                   case Debug => true
                   case Info => lv != Debug
                   case Warning => lv in {Warning, Error, Max}
                   case Error => lv in {Error, Max}
                   case Max => lv == Max
  {
    Rank(lv) >= Rank(threshold)
  }

  /** The levels are totally ordered by the gate: of any two, one lets the other through. */
  lemma GateTotal(a: Level, b: Level)
    ensures Emits(a, b) || Emits(b, a)
    ensures Emits(a, b) && Emits(b, a) ==> a == b
  {
  }

  /** Lowering the threshold never silences a level; raising it never enables one. */
  lemma GateMonotone(lv: Level, lower: Level, higher: Level)
    requires Rank(lower) <= Rank(higher)
    ensures Emits(lv, higher) ==> Emits(lv, lower)
  {
  }

  /** At threshold `Max` only `Max` itself passes; at `Debug` every level passes. */
  lemma GateExtremes(lv: Level)
    ensures Emits(lv, Max) <==> lv == Max
    ensures Emits(lv, Debug)
  {
  }
}
