/**
 The severity levels of the logger (`LogEaseLogger.Level`): an `Int`-backed
 enum whose raw values give the total order verbose < debug < info < warning
 < error, and whose `string` is the upper-case name.
 */
module Levels {
  import opened Optional

  datatype Level = Verbose | Debug | Info | Warning | Error

  /** The levels in declaration order. */
  const AllLevels: seq<Level> := [Verbose, Debug, Info, Warning, Error]

  /** `rawValue`: the cases are numbered from 0 in declaration order. */
  function RawValue(l: Level): (r: nat)
    ensures r < |AllLevels| && AllLevels[r] == l
  {
    match l
    case Verbose => 0
    case Debug => 1
    case Info => 2
    case Warning => 3
    case Error => 4
  }

  /** `Level(rawValue:)`, the failable initialiser Swift derives for the enum. */
  function FromRawValue(raw: int): (r: Option<Level>)
    ensures r.Some? <==> 0 <= raw < |AllLevels|
    ensures r.Some? ==> RawValue(r.value) == raw
  {
    if 0 <= raw < |AllLevels| then Some(AllLevels[raw]) else None
  }

  /** `string`: the name printed in the level tag. */
  function Name(l: Level): (r: string)
    ensures |r| > 0 && IsUpperCaseLetters(r)
  {
    match l
    case Verbose => "VERBOSE"
    case Debug => "DEBUG"
    case Info => "INFO"
    case Warning => "WARNING"
    case Error => "ERROR"
  }

  /** Raw values are 0..4 and strictly increasing in declaration order, so the
      numeric comparison of raw values is the order of the declaration. */
  lemma RawValuesFollowDeclarationOrder()
    ensures forall i :: 0 <= i < |AllLevels| ==> RawValue(AllLevels[i]) == i
    ensures forall l: Level :: AllLevels[RawValue(l)] == l
  {
  }

  /** Decoding the raw value of a level gives the level back. */
  lemma RawValueRoundTrip(l: Level)
    ensures FromRawValue(RawValue(l)) == Some(l)
  {
  }

  predicate IsUpperCaseLetters(s: string) {
    forall i :: 0 <= i < |s| ==> 'A' <= s[i] <= 'Z'
  }

  /** Every level's name is a non-empty upper-case word, and no two levels share one. */
  lemma NamesAreDistinctUpperCaseWords(l: Level, m: Level)
    ensures |Name(l)| > 0 && IsUpperCaseLetters(Name(l))
    ensures Name(l) == Name(m) <==> l == m
  {
  }
}
