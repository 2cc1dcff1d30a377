/** The order issues are taken in: by the version in the milestone title, then by number. */
module Milestones {
  import opened Text
  import opened Numbers

  datatype Issue = Issue(number: nat, state: string, labels: seq<string>, milestone: Option<string>)

  datatype Key = Key(kind: nat, major: nat, minor: nat, patch: nat)

  const NO_VERSION := Key(1, 0, 0, 0)

  // ----- numbers in text

  /** A 64-bit number as the standard library reads it: digits, perhaps after one plus sign. */
  function ParseU64(s: string): Option<nat>
  {
    var digits := if s != "" && s[0] == '+' then s[1..] else s;
    if digits == "" || !AllDigits(digits) || Value(digits) > U64_MAX then None else Some(Value(digits))
  }

  lemma ParseDecimal(n: nat)
    requires n <= U64_MAX
    ensures ParseU64(Decimal(n)) == Some(n) && '.' !in Decimal(n) && 'v' !in Decimal(n) && 'V' !in Decimal(n)
  {
    assert Decimal(n)[0] in Decimal(n);
  }

  // ----- the version of a milestone

  function TrimStartChar(s: string, c: char): string { if s != "" && s[0] == c then TrimStartChar(s[1..], c) else s }

  function Part(parts: seq<string>, i: nat): nat
  {
    if i >= |parts| || ParseU64(parts[i]).None? then 0 else ParseU64(parts[i]).value
  }

  function VersionKey(parts: seq<string>): Key
    requires parts != []
  {
    match ParseU64(parts[0])
    case None => NO_VERSION
    case Some(major) => Key(0, major, Part(parts, 1), Part(parts, 2))
  }

  function Bare(title: string): string { TrimStartChar(TrimStartChar(title, 'v'), 'V') }

  function SemverKey(milestone: Option<string>): Key
  {
    if milestone.None? then NO_VERSION else VersionKey(Split(Bare(milestone.value), '.'))
  }

  /** The parts of a version with points between them. */
  function Spelled(parts: seq<nat>): (s: string)
    requires parts != []
    ensures s != "" && IsDigit(s[0])
  {
    var first := Decimal(parts[0]);
    assert first[0] in first;
    if |parts| == 1 then first else first + ['.'] + Spelled(parts[1..])
  }

  lemma {:induction false} SplitSpelled(parts: seq<nat>)
    requires parts != []
    ensures Split(Spelled(parts), '.') == seq(|parts|, i requires 0 <= i < |parts| => Decimal(parts[i]))
    decreases |parts|
  {
    var first := Decimal(parts[0]);
    if |parts| == 1 {
      SplitNone(first, '.');
    } else {
      SplitAtFirst(first, '.', Spelled(parts[1..]));
      SplitSpelled(parts[1..]);
    }
  }

  lemma {:induction false} TrimRun(s: string, c: char, n: nat)
    requires s == "" || s[0] != c
    ensures TrimStartChar(Run(c, n) + s, c) == s
  {
    if n == 0 {
      assert Run(c, n) + s == s;
    } else {
      assert (Run(c, n) + s)[1..] == Run(c, n - 1) + s;
      TrimRun(s, c, n - 1);
    }
  }

  /** The character `n` times. */
  function Run(c: char, n: nat): (s: string)
    ensures |s| == n && forall i :: 0 <= i < n ==> s[i] == c
  {
    if n == 0 then "" else [c] + Run(c, n - 1)
  }

  /** Part `i` of a version; parts left out count as 0. */
  function PartOf(parts: seq<nat>, i: nat): nat { if i < |parts| then parts[i] else 0 }

  /** A title that spells a version is read as that version: with as many of the
      leading letters as you like, with any number of parts, those left out
      counting as 0 and those past the third ignored. */
  lemma VersionReadBack(small: nat, capital: nat, parts: seq<nat>)
    requires parts != [] && forall i :: 0 <= i < |parts| && i < 3 ==> parts[i] <= U64_MAX
    ensures SemverKey(Some(Run('v', small) + (Run('V', capital) + Spelled(parts))))
         == Key(0, PartOf(parts, 0), PartOf(parts, 1), PartOf(parts, 2))
  {
    TrimRun(Run('V', capital) + Spelled(parts), 'v', small);
    TrimRun(Spelled(parts), 'V', capital);
    SplitSpelled(parts);
    forall i | 0 <= i < |parts| && i < 3 ensures ParseU64(Decimal(parts[i])) == Some(parts[i]) {
      ParseDecimal(parts[i]);
    }
  }

  // ----- the order

  predicate KeyLess(x: Key, y: Key)
  {
    x.kind < y.kind
    || (x.kind == y.kind && (x.major < y.major
    || (x.major == y.major && (x.minor < y.minor
    || (x.minor == y.minor && x.patch < y.patch)))))
  }

  /** `a` may stand before `b`. */
  predicate Before(bySemver: bool, a: Issue, b: Issue)
  {
    var x, y := SemverKey(a.milestone), SemverKey(b.milestone);
    if bySemver && x != y then KeyLess(x, y) else a.number <= b.number
  }

  lemma BeforeIsOrder(bySemver: bool, a: Issue, b: Issue, c: Issue)
    ensures Before(bySemver, a, b) || Before(bySemver, b, a)
    ensures Before(bySemver, a, b) && Before(bySemver, b, c) ==> Before(bySemver, a, c)
  {}

  /** The title spells the version with these parts. */
  ghost predicate SpellsVersion(issue: Issue, parts: seq<nat>)
  {
    && parts != [] && (forall i :: 0 <= i < |parts| && i < 3 ==> parts[i] <= U64_MAX)
    && exists small, capital ::
         issue.milestone == Some(Run('v', small) + (Run('V', capital) + Spelled(parts)))
  }

  /** There is no milestone, or its title does not begin with a number. */
  predicate SpellsNone(issue: Issue)
  {
    issue.milestone.None? || ParseU64(Split(Bare(issue.milestone.value), '.')[0]).None?
  }

  lemma SpelledKey(issue: Issue, parts: seq<nat>)
    requires SpellsVersion(issue, parts)
    ensures SemverKey(issue.milestone) == Key(0, PartOf(parts, 0), PartOf(parts, 1), PartOf(parts, 2))
  {
    var small, capital :| issue.milestone == Some(Run('v', small) + (Run('V', capital) + Spelled(parts)));
    VersionReadBack(small, capital, parts);
  }

  /** The first differing one of the first three parts, if any, is smaller in `a`. */
  predicate SmallerVersion(a: seq<nat>, b: seq<nat>)
  {
    exists i :: 0 <= i < 3 && PartOf(a, i) < PartOf(b, i) && forall j :: 0 <= j < i ==> PartOf(a, j) == PartOf(b, j)
  }

  /** By version, the smaller version stands first, and equal versions by number. */
  lemma VersionsInOrder(a: Issue, p: seq<nat>, b: Issue, q: seq<nat>)
    requires SpellsVersion(a, p) && SpellsVersion(b, q)
    ensures SmallerVersion(p, q) ==> Before(true, a, b) && !Before(true, b, a)
    ensures !SmallerVersion(p, q) && !SmallerVersion(q, p) ==> (Before(true, a, b) <==> a.number <= b.number)
  {
    SpelledKey(a, p);
    SpelledKey(b, q);
    SmallerKey(p, q);
    SmallerKey(q, p);
  }

  lemma SmallerKey(p: seq<nat>, q: seq<nat>)
    ensures SmallerVersion(p, q) <==> KeyLess(Key(0, PartOf(p, 0), PartOf(p, 1), PartOf(p, 2)),
                                              Key(0, PartOf(q, 0), PartOf(q, 1), PartOf(q, 2)))
  {
    if PartOf(p, 0) == PartOf(q, 0) && PartOf(p, 1) == PartOf(q, 1) && PartOf(p, 2) < PartOf(q, 2) {
      assert forall j :: 0 <= j < 2 ==> PartOf(p, j) == PartOf(q, j);
    }
  }

  /** An issue whose title spells a version stands before one whose does not, and
      among those the number decides; without version order only the number counts. */
  lemma VersionsFirst(a: Issue, p: seq<nat>, b: Issue, c: Issue)
    requires SpellsVersion(a, p) && SpellsNone(b) && SpellsNone(c)
    ensures Before(true, a, b) && !Before(true, b, a)
    ensures Before(true, b, c) <==> b.number <= c.number
    ensures Before(false, a, b) <==> a.number <= b.number
  {
    SpelledKey(a, p);
  }

  ghost predicate Sorted(bySemver: bool, s: seq<Issue>)
  {
    forall i, j :: 0 <= i < j < |s| ==> Before(bySemver, s[i], s[j])
  }

  /** The place of one more issue in a sorted list, behind its equals. */
  function Insert(bySemver: bool, s: seq<Issue>, x: Issue): (r: seq<Issue>)
    ensures multiset(r) == multiset(s) + multiset{x}
  {
    if s == [] then [x]
    else if Before(bySemver, s[|s| - 1], x) then s + [x]
    else
      assert s == s[..|s| - 1] + [s[|s| - 1]];
      Insert(bySemver, s[..|s| - 1], x) + [s[|s| - 1]]
  }

  lemma {:induction false} InsertSorted(bySemver: bool, s: seq<Issue>, x: Issue)
    requires Sorted(bySemver, s)
    ensures Sorted(bySemver, Insert(bySemver, s, x))
    decreases |s|
  {
    if s != [] {
      var last := s[|s| - 1];
      var front := s[..|s| - 1];
      if Before(bySemver, last, x) {
        forall i | 0 <= i < |s| ensures Before(bySemver, s[i], x) {
          BeforeIsOrder(bySemver, s[i], last, x);
        }
      } else {
        InsertSorted(bySemver, front, x);
        BeforeIsOrder(bySemver, x, last, x);
        var r := Insert(bySemver, front, x);
        forall i | 0 <= i < |r| ensures Before(bySemver, r[i], last) {
          assert r[i] in multiset(r);
          assert r[i] in front || r[i] == x;
        }
      }
    }
  }

  /** The library's stable sort, as a function. */
  function OrderIssues(bySemver: bool, issues: seq<Issue>): (r: seq<Issue>)
    ensures multiset(r) == multiset(issues)
    decreases |issues|
  {
    if issues == [] then []
    else
      assert issues == issues[..|issues| - 1] + [issues[|issues| - 1]];
      Insert(bySemver, OrderIssues(bySemver, issues[..|issues| - 1]), issues[|issues| - 1])
  }

  lemma {:induction false} OrderedIsSorted(bySemver: bool, issues: seq<Issue>)
    ensures Sorted(bySemver, OrderIssues(bySemver, issues))
    decreases |issues|
  {
    if issues != [] {
      OrderedIsSorted(bySemver, issues[..|issues| - 1]);
      InsertSorted(bySemver, OrderIssues(bySemver, issues[..|issues| - 1]), issues[|issues| - 1]);
    }
  }
}
