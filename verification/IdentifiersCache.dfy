/** Fresh identifiers for rendered tests. */
module IdentifiersCache {
  function Digit(d: nat): char
    requires d < 10
  {
    '0' + d as char
  }

  /** The decimal suffix that string concatenation appends for an integer. */
  function Decimal(n: nat): (s: string)
    ensures |s| > 0 && '0' <= s[|s| - 1] <= '9'
  {
    if n < 10 then [Digit(n)] else Decimal(n / 10) + [Digit(n % 10)]
  }

  lemma {:induction false} DecimalInjective(m: nat, n: nat)
    requires Decimal(m) == Decimal(n)
    ensures m == n
  {
    var s, t := Decimal(m), Decimal(n);
    assert s[|s| - 1] == Digit(m % 10) && t[|t| - 1] == Digit(n % 10);
    assert m % 10 == n % 10;
    if m >= 10 && n >= 10 {
      assert s[..|s| - 1] == Decimal(m / 10) && t[..|t| - 1] == Decimal(n / 10);
      DecimalInjective(m / 10, n / 10);
    }
  }

  /** The number that a string of digits denotes. */
  function Denoted(s: string): int {
    if s == [] then 0 else 10 * Denoted(s[..|s| - 1]) + (s[|s| - 1] as int - '0' as int)
  }

  lemma {:induction false} DecimalDenotes(n: nat)
    ensures Denoted(Decimal(n)) == n && (forall i :: 0 <= i < |Decimal(n)| ==> '0' <= Decimal(n)[i] <= '9')
    ensures n > 0 ==> Decimal(n)[0] != '0'
    ensures Decimal(0) == "0"
  {
    var s := Decimal(n);
    if n >= 10 {
      DecimalDenotes(n / 10);
      assert s[..|s| - 1] == Decimal(n / 10) && s[0] == Decimal(n / 10)[0];
    } else {
      assert s[..0] == [];
      assert Denoted(s[..0]) == 0;
    }
  }

  /** The i-th name tried for a requested identifier. */
  function Candidate(name: string, i: nat): string {
    if i == 0 then name else name + Decimal(i)
  }

  lemma {:induction false} CandidatesDiffer(name: string, i: nat, j: nat)
    requires Candidate(name, i) == Candidate(name, j)
    ensures i == j
  {
    if i > 0 && j > 0 {
      assert Decimal(i) == Candidate(name, i)[|name|..] && Decimal(j) == Candidate(name, j)[|name|..];
      DecimalInjective(i, j);
    }
  }

  /** The first number from i on whose candidate is not taken. Taken names are
      used up one by one, so the search ends. */
  function NextFree(taken: set<string>, name: string, i: nat): (j: nat)
    ensures i <= j
    decreases |taken|
  {
    if Candidate(name, i) !in taken then i else NextFree(taken - {Candidate(name, i)}, name, i + 1)
  }

  lemma {:induction false} NextFreeIsFree(taken: set<string>, name: string, i: nat)
    ensures Candidate(name, NextFree(taken, name, i)) !in taken
    ensures forall k :: i <= k < NextFree(taken, name, i) ==> Candidate(name, k) in taken
    decreases |taken|
  {
    if Candidate(name, i) in taken {
      var rest := taken - {Candidate(name, i)};
      NextFreeIsFree(rest, name, i + 1);
      var j := NextFree(taken, name, i);
      if Candidate(name, j) == Candidate(name, i) {
        CandidatesDiffer(name, j, i);
      }
    }
  }

  // ----- the cache as a value -----

  /** Names issued so far, and the next number per requested name. */
  datatype Cache = Cache(identifiers: set<string>, idNames: map<string, nat>)

  function Start(c: Cache, name: string): nat {
    if name in c.idNames then c.idNames[name] else 0
  }

  function Issued(c: Cache, name: string): string {
    Candidate(name, NextFree(c.identifiers, name, Start(c, name)))
  }

  function Generate(c: Cache, name: string): Cache {
    Cache(c.identifiers + {Issued(c, name)}, c.idNames[name := NextFree(c.identifiers, name, Start(c, name)) + 1])
  }

  function GenerateAll(c: Cache, names: seq<string>): Cache {
    if names == [] then c else Generate(GenerateAll(c, names[..|names| - 1]), names[|names| - 1])
  }

  function Reserving(reserved: set<string>): Cache {
    Cache({}, map r | r in reserved :: 1)
  }

  /** In any run, each name issued differs from all names issued before it, by
      this cache or, for a copy, by the caches it was copied from. */
  lemma {:induction false} AlwaysFresh(c: Cache, names: seq<string>, m: nat, n: nat)
    requires m < n < |names|
    ensures Issued(GenerateAll(c, names[..m]), names[m]) != Issued(GenerateAll(c, names[..n]), names[n])
    ensures Issued(GenerateAll(c, names[..n]), names[n]) !in c.identifiers
  {
    var d := GenerateAll(c, names[..n]);
    NextFreeIsFree(d.identifiers, names[n], Start(d, names[n]));
    IssuedStays(c, names, m, n);
    OnlyGrows(c, names[..n]);
  }

  lemma {:induction false} OnlyGrows(c: Cache, names: seq<string>)
    ensures c.identifiers <= GenerateAll(c, names).identifiers
  {
    if names != [] {
      OnlyGrows(c, names[..|names| - 1]);
    }
  }

  lemma {:induction false} IssuedStays(c: Cache, names: seq<string>, m: nat, n: nat)
    requires m < n <= |names|
    ensures Issued(GenerateAll(c, names[..m]), names[m]) in GenerateAll(c, names[..n]).identifiers
  {
    assert names[..n][..n - 1] == names[..n - 1];
    if m < n - 1 {
      IssuedStays(c, names, m, n - 1);
    }
  }

  // ----- reserved names -----

  /** A name that ends in the decimal form of a positive number. */
  ghost predicate Numbered(r: string) {
    exists base: string, k: nat :: k > 0 && r == base + Decimal(k)
  }

  lemma {:induction false} NumberedEndsInDigit(r: string)
    requires Numbered(r)
    ensures |r| > 0 && '0' <= r[|r| - 1] <= '9'
  {
    var base: string, k: nat :| k > 0 && r == base + Decimal(k);
  }

  lemma {:induction false} ReservedStayNumbered(reserved: set<string>, names: seq<string>)
    ensures forall r :: r in reserved ==> Start(GenerateAll(Reserving(reserved), names), r) >= 1
  {
    if names != [] {
      ReservedStayNumbered(reserved, names[..|names| - 1]);
    }
  }

  function Repeated(base: string, m: nat): seq<string> {
    if m == 0 then [] else Repeated(base, m - 1) + [base]
  }

  ghost function Candidates(base: string, lo: nat, hi: nat): set<string> {
    set i | lo <= i < hi :: Candidate(base, i)
  }

  lemma {:induction false} NoCandidates(base: string, s: nat)
    ensures Candidates(base, s, s) == {}
  {
  }

  lemma {:induction false} NextIsFree(base: string, lo: nat, hi: nat)
    requires lo <= hi
    ensures NextFree(Candidates(base, lo, hi), base, hi) == hi
    ensures Candidates(base, lo, hi) + {Candidate(base, hi)} == Candidates(base, lo, hi + 1)
  {
    hide Candidate;
    if Candidate(base, hi) in Candidates(base, lo, hi) {
      var i :| lo <= i < hi && Candidate(base, hi) == Candidate(base, i);
      CandidatesDiffer(base, hi, i);
    }
  }

  lemma {:induction false} CountsStep(c: Cache, base: string, s: nat, n: nat)
    requires s <= n == Start(c, base) && c.identifiers == Candidates(base, s, n)
    ensures Issued(c, base) == Candidate(base, n)
    ensures Start(Generate(c, base), base) == n + 1 && Generate(c, base).identifiers == Candidates(base, s, n + 1)
  {
    hide NextFree, Candidate, Candidates;
    NextIsFree(base, s, n);
  }

  lemma {:induction false} RepeatedLast(base: string, m: nat)
    requires m > 0
    ensures |Repeated(base, m)| > 0 && Repeated(base, m)[|Repeated(base, m)| - 1] == base
    ensures Repeated(base, m)[..|Repeated(base, m)| - 1] == Repeated(base, m - 1)
  {
  }

  /** Asked for a base name over and over, a fresh cache goes through its candidates in order. */
  lemma {:induction false} CountsUp(reserved: set<string>, base: string, m: nat)
    ensures var c := GenerateAll(Reserving(reserved), Repeated(base, m));
            var s := Start(Reserving(reserved), base);
            Start(c, base) == s + m && c.identifiers == Candidates(base, s, s + m)
  {
    hide Candidates, Generate, Start;
    var s := Start(Reserving(reserved), base);
    if m == 0 {
      NoCandidates(base, s);
    } else {
      CountsUp(reserved, base, m - 1);
      RepeatedLast(base, m);
      CountsStep(GenerateAll(Reserving(reserved), Repeated(base, m - 1)), base, s, s + m - 1);
    }
  }

  /** Asked for a name that is not reserved over and over, it issues the name itself and then
      the name with 1, 2, 3 and so on; a reserved name starts with 1. */
  lemma {:induction false} IssuedInTurn(reserved: set<string>, base: string, m: nat)
    ensures var r := Issued(GenerateAll(Reserving(reserved), Repeated(base, m)), base);
      && (base !in reserved ==> r == if m == 0 then base else base + Decimal(m))
      && (base in reserved ==> r == base + Decimal(m + 1))
  {
    hide NextFree, Decimal, Candidates;
    CountsUp(reserved, base, m);
    var s := Start(Reserving(reserved), base);
    CountsStep(GenerateAll(Reserving(reserved), Repeated(base, m)), base, s, s + m);
  }

  ghost predicate CanIssue(reserved: set<string>, names: seq<string>, name: string, r: string) {
    Issued(GenerateAll(Reserving(reserved), names), name) == r
  }

  lemma {:induction false} OnlyNumbered(reserved: set<string>, names: seq<string>, name: string, r: string)
    requires r in reserved && CanIssue(reserved, names, name, r)
    ensures Numbered(r)
  {
    hide NextFree, Decimal;
    var c := GenerateAll(Reserving(reserved), names);
    ReservedStayNumbered(reserved, names);
    var j := NextFree(c.identifiers, name, Start(c, name));
    assert j > 0 && r == name + Decimal(j);
  }

  /** A reserved name is issued by some run exactly if it ends in a positive number. */
  lemma {:induction false} ReservedIssuedIff(reserved: set<string>, r: string)
    requires r in reserved
    ensures (exists names: seq<string>, name: string :: CanIssue(reserved, names, name, r)) <==> Numbered(r)
  {
    hide NextFree, Decimal, CanIssue;
    if exists names: seq<string>, name: string :: CanIssue(reserved, names, name, r) {
      var names: seq<string>, name: string :| CanIssue(reserved, names, name, r);
      OnlyNumbered(reserved, names, name, r);
    }
    if Numbered(r) {
      var base: string, k: nat :| k > 0 && r == base + Decimal(k);
      var s := Start(Reserving(reserved), base);
      CountsUp(reserved, base, k - s);
      var c := GenerateAll(Reserving(reserved), Repeated(base, k - s));
      CountsStep(c, base, s, k);
      assert Issued(c, base) == r;
      assert CanIssue(reserved, Repeated(base, k - s), base, r) by { IsIssue(reserved, Repeated(base, k - s), base, r); }
    }
  }

  lemma {:induction false} IsIssue(reserved: set<string>, names: seq<string>, name: string, r: string)
    requires Issued(GenerateAll(Reserving(reserved), names), name) == r
    ensures CanIssue(reserved, names, name, r)
  {
  }

  /** With x1 reserved, asking for x twice issues x and then x1. */
  lemma {:induction false} ReservedExample()
    ensures var c := Reserving({"x1"}); Issued(c, "x") == "x" && Issued(Generate(c, "x"), "x") == "x1"
  {
    var c := Reserving({"x1"});
    assert "x" !in c.idNames by { assert |"x"| != |"x1"|; }
    assert NextFree({}, "x", 0) == 0;
    assert Decimal(1) == "1";
    var d := Generate(c, "x");
    assert d.identifiers == {"x"} && Start(d, "x") == 1;
    assert Candidate("x", 1) == "x1";
    assert |"x1"| != |"x"|;
    assert NextFree({"x"}, "x", 1) == 1;
  }

  /** The usual case: reserved words do not end in digits, so none is ever issued. */
  lemma {:induction false} ReservedNeverIssued(reserved: set<string>, names: seq<string>, name: string)
    requires forall r :: r in reserved && |r| > 0 ==> !('0' <= r[|r| - 1] <= '9')
    ensures Issued(GenerateAll(Reserving(reserved), names), name) !in reserved
  {
    var r := Issued(GenerateAll(Reserving(reserved), names), name);
    if r in reserved {
      OnlyNumbered(reserved, names, name, r);
      NumberedEndsInDigit(r);
    }
  }

  // ----- the class -----

  class Identifiers {
    var identifiers: set<string>
    var idNames: map<string, nat>

    ghost function Contents(): Cache
      reads this
    {
      Cache(identifiers, idNames)
    }

    constructor ()
      ensures Contents() == Reserving({})
    {
      identifiers, idNames := {}, map[];
    }

    constructor Reserve(reservedNames: set<string>)
      ensures Contents() == Reserving(reservedNames)
    {
      identifiers, idNames := {}, map r | r in reservedNames :: 1;
    }

    /** A copy starts from what its original had issued. */
    constructor Copy(cache: Identifiers)
      ensures Contents() == old(cache.Contents())
    {
      identifiers, idNames := cache.identifiers, cache.idNames;
    }

    method GenerateIdentifier(identifierName: string) returns (uniqueName: string)
      modifies this
      ensures uniqueName == old(Issued(Contents(), identifierName))
      ensures uniqueName !in old(identifiers) && uniqueName in identifiers
      ensures Contents() == old(Generate(Contents(), identifierName))
    {
      var i := 0;
      if identifierName in idNames {
        i := idNames[identifierName];
      }
      hide NextFree, Decimal;
      ghost var start := i;
      NextFreeIsFree(identifiers, identifierName, start);
      uniqueName := identifierName;
      var done := false;
      while !done
        invariant start <= i && identifierName <= uniqueName
        invariant !done ==> i <= NextFree(old(identifiers), identifierName, start) && identifiers == old(identifiers)
        invariant !done && i == 0 ==> uniqueName == identifierName
        invariant done ==> i == NextFree(old(identifiers), identifierName, start) + 1
                           && uniqueName == Candidate(identifierName, i - 1)
                           && identifiers == old(identifiers) + {uniqueName}
        invariant idNames == old(idNames)
        decreases NextFree(old(identifiers), identifierName, start) + 1 - i
      {
        if i > 0 {
          uniqueName := identifierName + Decimal(i);
        }
        assert uniqueName == Candidate(identifierName, i);
        done := uniqueName !in identifiers;
        if done {
          identifiers := identifiers + {uniqueName};
        }
        i := i + 1;
      }
      idNames := idNames[identifierName := i];
    }
  }
}
