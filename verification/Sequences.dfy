/** Facts about sequences and strings that several modules share. */
module Sequences {
  import opened Wrappers

  ghost predicate Distinct<T>(s: seq<T>) {
    forall i, j | 0 <= i < j < |s| :: s[i] != s[j]
  }

  /** `s.find(t)`: where `t` first occurs. */
  function Find(s: string, t: string): Option<nat>
    decreases |s|
  {
    if t <= s then Some(0)
    else if |s| == 0 then None
    else
      match Find(s[1..], t)
      case None => None
      case Some(i) => Some(i + 1)
  }

  /** `t in s`. */
  predicate Contains(s: string, t: string) {
    Find(s, t).Some?
  }
}
