/** The search for a free name when an asset type is cloned: "Foo (copy)", then "Foo (copy) 2", and so on. */
module CloneName {
  import opened Text

  // ----- printing suffixes -----

  lemma DigitsDiffer(m: nat, n: nat)
    requires m < 10 && n < 10 && Digit(m) == Digit(n)
    ensures m == n
  {
  }

  lemma {:induction false} PrintedNotEmpty(n: nat)
    ensures |Printed(n)| >= 1 && (|Printed(n)| == 1 <==> n < 10)
  {
    if n >= 10 {
      PrintedNotEmpty(n / 10);
    }
  }

  /** Different numbers print differently. */
  lemma {:induction false} PrintedIsInjective(m: nat, n: nat)
    requires Printed(m) == Printed(n)
    ensures m == n
  {
    PrintedNotEmpty(m);
    PrintedNotEmpty(n);
    if m < 10 {
      DigitsDiffer(m, n);
    } else {
      var a, b := Printed(m / 10), Printed(n / 10);
      assert a + [Digit(m % 10)] == b + [Digit(n % 10)];
      assert a == (a + [Digit(m % 10)])[..|a|] == (b + [Digit(n % 10)])[..|b|] == b;
      assert Digit(m % 10) == (a + [Digit(m % 10)])[|a|] == (b + [Digit(n % 10)])[|b|] == Digit(n % 10);
      PrintedIsInjective(m / 10, n / 10);
      DigitsDiffer(m % 10, n % 10);
    }
  }

  /** The number a text of decimal digits stands for. */
  function ReadDecimal(s: string): int {
    if s == "" then 0 else 10 * ReadDecimal(s[..|s| - 1]) + (s[|s| - 1] as int - '0' as int)
  }

  /** A printed number is its own decimal, without a leading zero. */
  lemma {:induction false} PrintedReadsBack(n: nat)
    ensures ReadDecimal(Printed(n)) == n
    ensures n > 0 ==> Printed(n) != "" && Printed(n)[0] != '0'
  {
    if n >= 10 {
      PrintedReadsBack(n / 10);
      var s := Printed(n);
      assert s[..|s| - 1] == Printed(n / 10) && s[0] == Printed(n / 10)[0];
      DigitReads(n % 10);
    } else {
      DigitReads(n);
      assert [Digit(n)][..0] == "";
    }
  }

  lemma DigitReads(n: nat)
    requires n < 10
    ensures Digit(n) as int - '0' as int == n && '0' <= Digit(n) <= '9'
  {
  }

  // ----- the candidates -----

  const COPY := " (copy)"

  /** The k-th name the search tries. */
  function Candidate(name: string, k: nat): string {
    if k == 0 then name + COPY else name + COPY + " " + Printed(k + 1)
  }

  lemma CandidatesDiffer(name: string, j: nat, k: nat)
    requires j < k
    ensures Candidate(name, j) != Candidate(name, k)
  {
    hide Printed;
    var base := name + COPY;
    assert Candidate(name, k)[..|base|] == base && Candidate(name, k)[|base|..] == " " + Printed(k + 1);
    if j == 0 {
      assert Candidate(name, j)[|base|..] == [];
    } else {
      assert Candidate(name, j)[|base|..] == " " + Printed(j + 1);
      assert (" " + Printed(j + 1))[1..] == Printed(j + 1) && (" " + Printed(k + 1))[1..] == Printed(k + 1);
      if Printed(j + 1) == Printed(k + 1) {
        PrintedIsInjective(j + 1, k + 1);
      }
    }
  }

  /** The first k candidates, all different. */
  function Tried(name: string, k: nat): (tried: set<string>)
    ensures forall t :: t in tried <==> exists j: nat :: j < k && t == Candidate(name, j)
  {
    set j: nat | j < k :: Candidate(name, j)
  }

  lemma {:induction false} TriedCount(name: string, k: nat)
    ensures |Tried(name, k)| == k
  {
    hide Candidate;
    if k == 0 {
      assert Tried(name, 0) == {};
    } else {
      TriedCount(name, k - 1);
      forall j: nat | j < k - 1 ensures Candidate(name, j) != Candidate(name, k - 1) {
        CandidatesDiffer(name, j, k - 1);
      }
      assert Tried(name, k) == Tried(name, k - 1) + {Candidate(name, k - 1)};
    }
  }

  lemma {:induction false} SubsetCount<T>(a: set<T>, b: set<T>)
    requires a <= b
    ensures |a| <= |b|
  {
    if a != {} {
      var x :| x in a;
      SubsetCount(a - {x}, b - {x});
    }
  }

  /** The first free candidate. */
  ghost predicate FirstFree(name: string, names: set<string>, k: nat) {
    Candidate(name, k) !in names && forall j: nat :: j < k ==> Candidate(name, j) in names
  }

  /** Pigeonhole: as many candidates as there are names cannot all be taken. */
  lemma TakenBound(name: string, names: set<string>, k: nat)
    requires forall j: nat :: j < k ==> Candidate(name, j) in names
    ensures k <= |names|
  {
    TriedCount(name, k);
    assert Tried(name, k) <= names;
    SubsetCount(Tried(name, k), names);
  }

  /** The index of the first free candidate, given that those before the k-th are taken. */
  ghost function FreeFrom(name: string, names: set<string>, k: nat): (i: nat)
    requires forall j: nat :: j < k ==> Candidate(name, j) in names
    ensures FirstFree(name, names, i)
    decreases |names| + 1 - k
  {
    TakenBound(name, names, k);
    if Candidate(name, k) in names then FreeFrom(name, names, k + 1) else k
  }

  /** The loop of the clone route; `probes` counts its queries. */
  method FindCloneName(name: string, names: set<string>) returns (candidate: string, ghost probes: nat)
    ensures candidate !in names
    ensures 1 <= probes <= |names| + 1
    ensures FirstFree(name, names, probes - 1) && probes - 1 == FreeFrom(name, names, 0)
    ensures candidate == Candidate(name, probes - 1)
    ensures candidate == name + " (copy)" + if probes == 1 then "" else " " + Printed(probes)
  {
    var base := name + COPY;
    candidate := base;
    var suffix := 2;
    probes := 1;
    while candidate in names
      invariant suffix == probes + 1 && probes >= 1
      invariant candidate == Candidate(name, probes - 1)
      invariant forall j: nat :: j < probes - 1 ==> Candidate(name, j) in names
      invariant probes - 1 <= |names|
      decreases |names| - probes
    {
      candidate := base + " " + Printed(suffix);
      suffix := suffix + 1;
      probes := probes + 1;
      TakenBound(name, names, probes - 1);
    }
  }

  /** The indices of the candidates that k clones in a row take, each made among the names left by the ones before. */
  ghost function Clones(name: string, names: set<string>, k: nat): seq<nat>
    decreases k
  {
    if k == 0 then []
    else
      var i := FreeFrom(name, names, 0);
      [i] + Clones(name, names + {Candidate(name, i)}, k - 1)
  }

  /**
    Cloning the same type k times in a row, among any names, takes ever later candidates, none of them
    taken before, and passes over no free one.
   */
  lemma {:induction false} RepeatedClones(name: string, names: set<string>, k: nat)
    ensures var taken := Clones(name, names, k);
            && |taken| == k
            && (forall m :: 0 <= m < k ==> Candidate(name, taken[m]) !in names)
            && (forall m, n :: 0 <= m < n < k ==> taken[m] < taken[n])
            && (k > 0 ==> forall j: nat :: j <= taken[k - 1] ==> Candidate(name, j) in names || j in taken)
    decreases k
  {
    hide Candidate;
    if k > 0 {
      var i := FreeFrom(name, names, 0);
      var more := names + {Candidate(name, i)};
      var rest := Clones(name, more, k - 1);
      RepeatedClones(name, more, k - 1);
      forall j: nat | j <= i ensures Candidate(name, j) in more {
      }
      forall m | 0 <= m < k - 1 ensures i < rest[m] {
        assert Candidate(name, rest[m]) !in more;
      }
      forall j: nat | j <= ([i] + rest)[k - 1] ensures Candidate(name, j) in names || j in [i] + rest {
        if j < i {
          CandidatesDiffer(name, j, i);
        } else if i < j {
          CandidatesDiffer(name, i, j);
          assert Candidate(name, j) in more || j in rest;
        }
      }
    }
  }
}
