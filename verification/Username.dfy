// Picking a free username: backend/src/modules/auth/utils/username.util.ts.
module Username {
  import opened Sets

  // A number in decimal, as a template literal prints it.
  function Decimal(n: nat): (s: string)
    ensures |s| > 0
  {
    if n < 10 then [DigitChar(n)] else Decimal(n / 10) + [DigitChar(n % 10)]
  }

  function DigitChar(d: nat): char
    requires d < 10
  {
    "0123456789"[d]
  }

  function ParseDecimal(s: string): nat
    requires forall c :: c in s ==> c in "0123456789"
  {
    if s == "" then 0 else ParseDecimal(s[..|s| - 1]) * 10 + DigitValue(s[|s| - 1])
  }

  function DigitValue(c: char): (d: nat)
    requires c in "0123456789"
    ensures d < 10 && DigitChar(d) == c
  {
    if c == '0' then 0 else if c == '1' then 1 else if c == '2' then 2 else if c == '3' then 3
    else if c == '4' then 4 else if c == '5' then 5 else if c == '6' then 6 else if c == '7' then 7
    else if c == '8' then 8 else 9
  }

  lemma {:induction false} ParseOfDecimal(n: nat)
    ensures forall c :: c in Decimal(n) ==> c in "0123456789"
    ensures ParseDecimal(Decimal(n)) == n
  {
    var s := Decimal(n);
    if n < 10 {
      assert s == [DigitChar(n)];
      assert s[..0] == "";
    } else {
      ParseOfDecimal(n / 10);
      assert s[..|s| - 1] == Decimal(n / 10);
    }
  }

  function Candidate(base: string, k: nat): string {
    base + "-" + Decimal(k)
  }

  // Different suffixes give different names, and no suffixed name is the base.
  lemma CandidatesDiffer(base: string, j: nat, k: nat)
    ensures Candidate(base, k) != base
    ensures Candidate(base, j) == Candidate(base, k) ==> j == k
  {
    ParseOfDecimal(j);
    ParseOfDecimal(k);
    var a, b := Candidate(base, j), Candidate(base, k);
    assert a[|base| + 1..] == Decimal(j) && b[|base| + 1..] == Decimal(k);
  }

  // The names tried so far once suffix has reached k: the base and base-1 .. base-(k-1).
  function Tried(base: string, k: nat): set<string> {
    if k <= 1 then {base} else Tried(base, k - 1) + {Candidate(base, k - 1)}
  }

  lemma {:induction false} TriedMembers(base: string, k: nat, name: string)
    ensures name in Tried(base, k) <==> name == base || exists j :: 1 <= j < k && name == Candidate(base, j)
  {
    if k > 1 {
      TriedMembers(base, k - 1, name);
    }
  }

  lemma {:induction false} TriedCount(base: string, k: nat)
    requires k >= 1
    ensures |Tried(base, k)| == k
  {
    if k > 1 {
      TriedCount(base, k - 1);
      var c := Candidate(base, k - 1);
      TriedMembers(base, k - 1, c);
      CandidatesDiffer(base, k - 1, k - 1);
      forall j | 1 <= j < k - 1 ensures Candidate(base, j) != c {
        CandidatesDiffer(base, j, k - 1);
      }
      assert c !in Tried(base, k - 1);
    }
  }

  // Every suffix below k is in use.
  predicate AllTaken(base: string, k: nat, taken: set<string>) {
    forall j :: 1 <= j < k ==> Candidate(base, j) in taken
  }

  // One more taken name: there are still at most |taken| of them.
  lemma OneMoreTaken(base: string, k: nat, taken: set<string>)
    requires k >= 1 && Tried(base, k) <= taken && Candidate(base, k) in taken
    ensures Tried(base, k + 1) <= taken && k + 1 <= |taken|
  {
    TriedCount(base, k + 1);
    SubsetSize(Tried(base, k + 1), taken);
  }

  ghost predicate LeastFree(base: string, taken: set<string>, name: string) {
    exists k :: 1 <= k <= |taken| && name == Candidate(base, k) && AllTaken(base, k, taken)
  }

  // At most one free name is the least free one, so the answer is determined.
  lemma LeastFreeIsUnique(base: string, taken: set<string>, a: string, b: string)
    requires a !in taken && LeastFree(base, taken, a)
    requires b !in taken && LeastFree(base, taken, b)
    ensures a == b
  {
    var j :| 1 <= j <= |taken| && a == Candidate(base, j) && AllTaken(base, j, taken);
    var k :| 1 <= k <= |taken| && b == Candidate(base, k) && AllTaken(base, k, taken);
  }

  // resolveUsernameCollision, where exists(name) answers from the set taken. The
  // loop ends because every turn has found one more taken name.
  method ResolveUsernameCollision(base: string, taken: set<string>) returns (name: string)
    ensures name !in taken
    ensures base !in taken ==> name == base
    ensures base in taken ==> LeastFree(base, taken, name)
  {
    if base !in taken {
      return base;
    }
    var suffix := 1;
    SubsetSize(Tried(base, suffix), taken);
    name := Candidate(base, suffix);
    while name in taken
      invariant 1 <= suffix <= |taken| && name == Candidate(base, suffix)
      invariant Tried(base, suffix) <= taken
      invariant AllTaken(base, suffix, taken)
      decreases |taken| - suffix
    {
      OneMoreTaken(base, suffix, taken);
      suffix := suffix + 1;
      name := Candidate(base, suffix);
    }
  }
}
