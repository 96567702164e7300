/** The two enumerations of include/tinylog/log_level.h. */
module Levels {

  /** Severity, declared in increasing order. */
  datatype LogLevel = Debug | Info | Warn | Error | Fatal

  /** Where log lines go. */
  datatype SinkKind = Console | File | Both

  /** The underlying value of the enum class, which `<` compares. */
  function Rank(l: LogLevel): nat
  {
    match l
    case Debug => 0
    case Info => 1
    case Warn => 2
    case Error => 3
    case Fatal => 4
  }

  /** `a < b` on the enum class. */
  predicate Below(a: LogLevel, b: LogLevel)
  {
    Rank(a) < Rank(b)
  }

  /** Rank is one-to-one, so `<` is a strict total order on the five levels. */
  lemma RankInjective(a: LogLevel, b: LogLevel)
    ensures Rank(a) == Rank(b) ==> a == b
  {
  }

}
