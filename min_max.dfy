/** What the minimum/maximum merges of `getDuration` and `getPlayers` in both
    BoardGameGeek scrapers promise about their result. */
module MinMax {

  /** `r` lies between `a` and `b`, whichever of them is smaller. */
  predicate Between(a: int, b: int, r: int) {
    (a <= r <= b) || (b <= r <= a)
  }
}
