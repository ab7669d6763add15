/** What loops over a set need to take an element. */
module Sets {
  lemma InhabitedInts(s: set<int>)
    ensures s == {} || exists x :: x in s
  {
    if !(exists x :: x in s) { assert s == {}; }
  }

  lemma InhabitedStrings(s: set<string>)
    ensures s == {} || exists x :: x in s
  {
    if !(exists x :: x in s) { assert s == {}; }
  }
}
