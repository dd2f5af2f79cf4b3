/** The two ends of a connection. */
module Parties {

  datatype Party = Left | Right {
    function Other(): Party {
      if this == Left then Right else Left
    }
  }

  datatype Pair<T> = Pair(left: T, right: T) {
    function At(p: Party): T {
      if p == Left then left else right
    }

    function With(p: Party, v: T): Pair<T> {
      if p == Left then Pair(v, right) else Pair(left, v)
    }
  }
}
