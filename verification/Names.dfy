/** Default names of pools and xstreams: the search for one that is not used yet. */
module Names {

  function Digit(d: nat): char
    requires d < 10
  {
    '0' + d as char
  }

  /** The "%d" conversion of a non-negative number. */
  function Decimal(n: nat): (s: string)
    ensures |s| > 0
  {
    if n < 10 then [Digit(n)] else Decimal(n / 10) + [Digit(n % 10)]
  }

  function DigitValue(c: char): nat {
    if '0' <= c <= '9' then (c - '0') as int else 0
  }

  function Parse(s: string): nat {
    if s == "" then 0 else 10 * Parse(s[..|s| - 1]) + DigitValue(s[|s| - 1])
  }

  lemma DigitRoundTrip(d: nat)
    requires d < 10
    ensures DigitValue(Digit(d)) == d
  {
  }

  /** Printing a number and reading it back gives the number. */
  lemma {:induction false} ParseDecimal(n: nat)
    ensures Parse(Decimal(n)) == n
    decreases n
  {
    DigitRoundTrip(n % 10);
    var s := Decimal(n);
    if n < 10 {
      assert s[..0] == "" && s[0] == Digit(n);
    } else {
      ParseDecimal(n / 10);
      assert s[..|s| - 1] == Decimal(n / 10);
    }
  }

  function Candidate(prefix: string, i: nat): string {
    prefix + Decimal(i) + "__"
  }

  /** Different numbers give different names. */
  lemma CandidateInjective(prefix: string, i: nat, j: nat)
    requires Candidate(prefix, i) == Candidate(prefix, j)
    ensures i == j
  {
    var a, b := Candidate(prefix, i), Candidate(prefix, j);
    assert a[|prefix|..|a| - 2] == Decimal(i);
    assert b[|prefix|..|b| - 2] == Decimal(j);
    ParseDecimal(i);
    ParseDecimal(j);
  }

  ghost predicate AllUsed(prefix: string, from: nat, to: nat, names: seq<string>) {
    forall i :: from <= i < to ==> Candidate(prefix, i) in names
  }

  /** n distinct candidates in use need at least n names. */
  lemma {:induction false} Pigeonhole(prefix: string, from: nat, to: nat, names: seq<string>)
    requires from <= to && AllUsed(prefix, from, to, names)
    ensures to - from <= |names|
    decreases |names|
  {
    if from < to {
      var last := Candidate(prefix, to - 1);
      assert last in names;
      var k :| 0 <= k < |names| && names[k] == last;
      var rest := names[..k] + names[k + 1..];
      forall i | from <= i < to - 1 ensures Candidate(prefix, i) in rest {
        if Candidate(prefix, i) == last {
          CandidateInjective(prefix, i, to - 1);
        }
        var m :| 0 <= m < |names| && names[m] == Candidate(prefix, i);
        assert m != k;
        assert m < k ==> rest[m] == names[m];
        assert m > k ==> rest[m - 1] == names[m];
      }
      Pigeonhole(prefix, from, to - 1, rest);
    }
  }

  /** The first unused candidate from number i on. */
  function FirstUnused(prefix: string, names: seq<string>, i: nat): (name: string)
    requires |names| <= i && AllUsed(prefix, |names|, i, names)
    ensures name !in names
    decreases 2 * |names| - i + 1
  {
    Pigeonhole(prefix, |names|, i, names);
    if Candidate(prefix, i) in names then FirstUnused(prefix, names, i + 1) else Candidate(prefix, i)
  }

  function DefaultName(prefix: string, names: seq<string>): (name: string)
    ensures name !in names
  {
    FirstUnused(prefix, names, |names|)
  }

  lemma {:induction false} FirstUnusedPrefix(prefix: string, names: seq<string>, i: nat)
    requires |names| <= i && AllUsed(prefix, |names|, i, names)
    ensures var name := FirstUnused(prefix, names, i); |prefix| <= |name| && name[..|prefix|] == prefix
    decreases 2 * |names| - i + 1
  {
    Pigeonhole(prefix, |names|, i, names);
    if Candidate(prefix, i) in names {
      FirstUnusedPrefix(prefix, names, i + 1);
    }
  }

  /** A default name starts with the prefix. */
  lemma DefaultNamePrefix(prefix: string, names: seq<string>)
    ensures var name := DefaultName(prefix, names); |prefix| <= |name| && name[..|prefix|] == prefix
  {
    FirstUnusedPrefix(prefix, names, |names|);
  }

  /** The first default name, and one that skips a name in use. */
  lemma DefaultNames()
    ensures DefaultName("__pool_", []) == "__pool_0__"
    ensures DefaultName("__xstream_", ["__xstream_1__"]) == "__xstream_2__"
  {
    assert Decimal(0) == "0" && Decimal(1) == "1" && Decimal(2) == "2";
    assert Candidate("__pool_", 0) == "__pool_0__";
    assert Candidate("__xstream_", 1) == "__xstream_1__" && Candidate("__xstream_", 2) == "__xstream_2__";
    var names := ["__xstream_1__"];
    assert names[0] in names;
    assert "__xstream_2__"[10] != "__xstream_1__"[10];
  }

  /** The loop of generate_unused_pool_name and generate_unused_xstream_name: it returns an
      unused name after at most |names| + 1 candidates. */
  method UnusedName(prefix: string, names: seq<string>) returns (name: string, ghost tried: nat)
    ensures name == DefaultName(prefix, names) && name !in names
    ensures 1 <= tried <= |names| + 1
    ensures name == Candidate(prefix, |names| + tried - 1)
    ensures AllUsed(prefix, |names|, |names| + tried - 1, names)
  {
    var i := |names|;
    while true
      invariant |names| <= i && AllUsed(prefix, |names|, i, names)
      invariant i - |names| <= |names|
      invariant FirstUnused(prefix, names, i) == DefaultName(prefix, names)
      decreases 2 * |names| - i
    {
      name := Candidate(prefix, i);
      var j := 0;
      while j < |names| && name != names[j]
        invariant 0 <= j <= |names|
        invariant forall m :: 0 <= m < j ==> names[m] != name
      {
        j := j + 1;
      }
      if j == |names| {
        tried := i - |names| + 1;
        return;
      }
      i := i + 1;
      Pigeonhole(prefix, |names|, i, names);
    }
  }
}
