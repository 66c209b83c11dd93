// Choosing a file name nobody uses yet: base, base_1, base_2, ...
module FreshNames {
  import opened FileNames

  function Digit(d: nat): char
    requires d < 10
  {
    "0123456789"[d]
  }

  // std::to_string
  function Decimal(n: nat): string {
    if n < 10 then [Digit(n)] else Decimal(n / 10) + [Digit(n % 10)]
  }

  function Parse(s: string): int {
    if s == [] then 0 else 10 * Parse(s[..|s| - 1]) + (s[|s| - 1] as int - '0' as int)
  }

  lemma {:induction false} DecimalParses(n: nat)
    ensures Parse(Decimal(n)) == n
  {
    var s := Decimal(n);
    if n >= 10 {
      DecimalParses(n / 10);
      assert s[..|s| - 1] == Decimal(n / 10);
    } else {
      assert s[..0] == [];
    }
  }

  function Candidate(stem: string, suffix: nat): string {
    if suffix == 0 then stem else stem + "_" + Decimal(suffix)
  }

  lemma CandidatesDiffer(stem: string, j: nat, k: nat)
    requires j != k
    ensures Candidate(stem, j) != Candidate(stem, k)
  {
    DecimalParses(j);
    DecimalParses(k);
    if j > 0 && k > 0 {
      var n := |stem| + 1;
      assert Candidate(stem, j)[n..] == Decimal(j);
      assert Candidate(stem, k)[n..] == Decimal(k);
    }
  }

  predicate Taken(dir: Directory, base: string) {
    IndexName(base) in dir || DataName(base) in dir
  }

  ghost predicate AllTaken(dir: Directory, stem: string, k: nat) {
    forall j: nat :: j < k ==> Taken(dir, Candidate(stem, j))
  }

  // One existing file for each of the first k candidates.
  ghost function Occupants(dir: Directory, stem: string, k: nat): set<string> {
    if k == 0 then {}
    else
      var c := Candidate(stem, k - 1);
      Occupants(dir, stem, k - 1) + {if IndexName(c) in dir then IndexName(c) else DataName(c)}
  }

  lemma {:induction false} OccupantsNamed(dir: Directory, stem: string, k: nat, other: nat)
    requires k <= other
    ensures IndexName(Candidate(stem, other)) !in Occupants(dir, stem, k)
    ensures DataName(Candidate(stem, other)) !in Occupants(dir, stem, k)
  {
    hide Decimal, Digit, Candidate, IndexName, DataName;
    if k > 0 {
      OccupantsNamed(dir, stem, k - 1, other);
      CandidatesDiffer(stem, k - 1, other);
      NamesDiffer(Candidate(stem, k - 1), Candidate(stem, other));
      NamesDiffer(Candidate(stem, other), Candidate(stem, k - 1));
    }
  }

  // Pigeonhole: k taken candidates are k different files.
  lemma {:induction false} TakenBound(dir: Directory, stem: string, k: nat)
    requires AllTaken(dir, stem, k)
    ensures Occupants(dir, stem, k) <= dir.Keys && |Occupants(dir, stem, k)| == k
    ensures k <= |dir|
  {
    hide Decimal, Digit, Candidate, IndexName, DataName;
    if k > 0 {
      assert Taken(dir, Candidate(stem, k - 1));
      TakenBound(dir, stem, k - 1);
      OccupantsNamed(dir, stem, k - 1, k - 1);
    }
    SubsetSize(Occupants(dir, stem, k), dir.Keys);
  }

  lemma {:induction false} SubsetSize<T>(a: set<T>, b: set<T>)
    requires a <= b
    ensures |a| <= |b|
  {
    if a != {} {
      var x :| x in a;
      SubsetSize(a - {x}, b - {x});
    }
  }

  // The first free suffix.  The search ends on every finite directory, after
  // at most as many probes as there are files, so a 32-bit suffix suffices.
  ghost function FreshSuffix(dir: Directory, stem: string, k: nat): (r: nat)
    requires AllTaken(dir, stem, k)
    ensures k <= r <= |dir| && AllTaken(dir, stem, r)
    ensures !Taken(dir, Candidate(stem, r))
    decreases |dir| + 1 - k
  {
    hide Candidate, Taken;
    TakenBound(dir, stem, k);
    if Taken(dir, Candidate(stem, k)) then
      TakenBound(dir, stem, k + 1);
      FreshSuffix(dir, stem, k + 1)
    else k
  }

  ghost function FreshBase(dir: Directory, stem: string): (base: string)
    ensures !Taken(dir, base)
  {
    Candidate(stem, FreshSuffix(dir, stem, 0))
  }

  lemma FreshSuffixIsFirst(dir: Directory, stem: string, r: nat)
    requires AllTaken(dir, stem, r) && !Taken(dir, Candidate(stem, r))
    ensures FreshBase(dir, stem) == Candidate(stem, r)
  {
    var f: nat := FreshSuffix(dir, stem, 0);
    assert f < r ==> Taken(dir, Candidate(stem, f));
  }
}
