/** Lists without repetition. */
module NoRepeats {
  ghost predicate NoRepeat<T>(s: seq<T>) {
    s == [] || (s[0] !in s[1..] && NoRepeat(s[1..]))
  }
}
