/** Sequences in which nothing occurs twice. */
module Sequences {
  ghost predicate NoDuplicates<T>(s: seq<T>) { forall i, j :: 0 <= i < j < |s| ==> s[i] != s[j] }

  /** Nothing occurs twice exactly when every element is counted once. */
  lemma {:induction false} CountedOnce<T>(s: seq<T>)
    ensures NoDuplicates(s) <==> forall x :: x in s ==> multiset(s)[x] == 1
  {
    if s != [] {
      var front, last := s[..|s| - 1], s[|s| - 1];
      assert s == front + [last];
      CountedOnce(front);
      if NoDuplicates(s) {
        assert last !in front;
        assert NoDuplicates(front);
      }
      if forall x :: x in s ==> multiset(s)[x] == 1 {
        assert last in s && multiset(front)[last] == 0;
        forall x | x in front ensures multiset(front)[x] == 1 {
          assert x in s && multiset(s)[x] == multiset(front)[x] + multiset([last])[x];
        }
        assert last !in front;
      }
    }
  }
}
