/** Waiting times: how soon a value shows up in a sequence of answers. */
module Waiting {

  /** x is among the first n answers, once there are n of them. */
  ghost predicate ReturnedWithin<T>(answers: seq<T>, x: T, n: nat) {
    n <= |answers| ==> x in answers[..n]
  }

  lemma ReturnedFirst<T>(answers: seq<T>, x: T, n: nat)
    requires n > 0 && (answers != [] ==> answers[0] == x)
    ensures ReturnedWithin(answers, x, n)
  {
    if n <= |answers| {
      assert answers[..n][0] == x;
    }
  }

  lemma ReturnedLater<T>(first: T, rest: seq<T>, x: T, m: nat, n: nat)
    requires ReturnedWithin(rest, x, m) && m < n
    ensures ReturnedWithin([first] + rest, x, n)
  {
    if n <= |[first] + rest| {
      var k :| 0 <= k < m && rest[..m][k] == x;
      assert ([first] + rest)[..n][k + 1] == x;
    }
  }

  lemma ReturnedWider<T>(answers: seq<T>, x: T, m: nat, n: nat)
    requires ReturnedWithin(answers, x, m) && m <= n
    ensures ReturnedWithin(answers, x, n)
  {
    if n <= |answers| {
      var k :| 0 <= k < m && answers[..m][k] == x;
      assert answers[..n][k] == x;
    }
  }
}
