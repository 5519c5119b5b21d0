/** Counting the elements of a sequence that satisfy a predicate; associativity. */
module Seqs {
  ghost function Count<T>(p: T -> bool, s: seq<T>): nat {
    if s == [] then 0 else (if p(s[0]) then 1 else 0) + Count(p, s[1..])
  }

  lemma {:induction false} CountAppend<T>(p: T -> bool, s: seq<T>, x: T)
    ensures Count(p, s + [x]) == Count(p, s) + if p(x) then 1 else 0
  {
    if s == [] {
      assert s + [x] == [x];
    } else {
      assert (s + [x])[1..] == s[1..] + [x];
      CountAppend(p, s[1..], x);
    }
  }

  lemma {:induction false} CountUpdate<T>(p: T -> bool, s: seq<T>, i: nat, x: T)
    requires i < |s|
    ensures Count(p, s[i := x]) + (if p(s[i]) then 1 else 0) == Count(p, s) + if p(x) then 1 else 0
  {
    if i == 0 {
      assert s[i := x][1..] == s[1..];
    } else {
      assert s[i := x][1..] == s[1..][i - 1 := x];
      CountUpdate(p, s[1..], i - 1, x);
    }
  }

  lemma {:induction false} CountZero<T>(p: T -> bool, s: seq<T>)
    ensures Count(p, s) == 0 <==> forall i :: 0 <= i < |s| ==> !p(s[i])
  {
    if s != [] {
      CountZero(p, s[1..]);
      assert forall i :: 1 <= i < |s| ==> s[i] == s[1..][i - 1];
      if Count(p, s) == 0 {
        forall i | 0 <= i < |s| ensures !p(s[i]) {
          if i > 0 { assert s[i] == s[1..][i - 1]; }
        }
      } else if !p(s[0]) {
        var i :| 0 <= i < |s[1..]| && p(s[1..][i]);
        assert p(s[i + 1]);
      }
    }
  }

  lemma Associate<T>(a: seq<T>, b: seq<T>, c: seq<T>)
    ensures a + (b + c) == (a + b) + c
  {}
}
