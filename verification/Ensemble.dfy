/**
 The instruments of an ensemble, their order and their grouping by role, as
 `flatten_ensemble` and `group_by_role` do it in `orchestration_engine.cpp`.
 */
module Ensemble {

  datatype Role = Melody | Countermelody | Harmony | Bass | Pad | Rhythm | Fill

  datatype Instrument = Instrument(
    name: string, program: int, channel: int, minNote: int, maxNote: int, role: Role, priority: int)

  datatype Section = Section(name: string, instruments: seq<Instrument>)

  ghost predicate DistinctNames(insts: seq<Instrument>) {
    forall i, j :: 0 <= i < j < |insts| ==> insts[i].name != insts[j].name
  }

  // ----- the order of instruments

  function RolePriority(role: Role): nat {
    match role
    case Melody => 0
    case Countermelody => 1
    case Harmony => 2
    case Bass => 3
    case Pad => 4
    case Rhythm => 5
    case Fill => 6
  }

  /** Names compare character by character. */
  predicate NameBefore(a: string, b: string) {
    b != [] && (a == [] || a[0] < b[0] || (a[0] == b[0] && NameBefore(a[1..], b[1..])))
  }

  /** Up to their first difference `a` and `b` agree, and there `a` ends or has the smaller character. */
  predicate DiffersAt(a: string, b: string, k: nat) {
    && k <= |a| && k < |b| && a[..k] == b[..k]
    && (k < |a| ==> a[k] < b[k])
  }

  /** The order of names is the order of words in a dictionary. */
  lemma {:induction false} NamesAsInDictionary(a: string, b: string)
    ensures NameBefore(a, b) <==> exists k :: 0 <= k <= |a| && DiffersAt(a, b, k)
  {
    if a == [] || b == [] || a[0] != b[0] {
      assert NameBefore(a, b) <==> DiffersAt(a, b, 0);
      assert forall k :: 0 < k <= |a| && DiffersAt(a, b, k) ==> a[..k][0] == b[..k][0];
    } else {
      NamesAsInDictionary(a[1..], b[1..]);
      forall k | 0 <= k < |a| ensures DiffersAt(a, b, k + 1) <==> DiffersAt(a[1..], b[1..], k) {
        if k < |b| {
          assert a[..k + 1] == [a[0]] + a[1..][..k] && b[..k + 1] == [b[0]] + b[1..][..k];
        }
      }
      if k :| 0 <= k <= |a| && DiffersAt(a, b, k) {
        assert k > 0 && DiffersAt(a[1..], b[1..], k - 1);
      }
      if NameBefore(a, b) {
        var k :| 0 <= k <= |a[1..]| && DiffersAt(a[1..], b[1..], k);
        assert DiffersAt(a, b, k + 1);
      }
    }
  }

  datatype Comparator = RoleThenName | NameOnly

  predicate Before(cmp: Comparator, a: Instrument, b: Instrument) {
    if cmp.RoleThenName? && RolePriority(a.role) != RolePriority(b.role)
    then RolePriority(a.role) < RolePriority(b.role)
    else NameBefore(a.name, b.name)
  }

  ghost predicate InOrder(cmp: Comparator, insts: seq<Instrument>) {
    forall i, j :: 0 <= i < j < |insts| ==> !Before(cmp, insts[j], insts[i])
  }

  lemma {:induction false} NamesTotal(a: string, b: string)
    ensures !(NameBefore(a, b) && NameBefore(b, a))
    ensures NameBefore(a, b) || NameBefore(b, a) || a == b
  {
    if a != [] && b != [] && a[0] == b[0] {
      NamesTotal(a[1..], b[1..]);
      assert a == [a[0]] + a[1..] && b == [b[0]] + b[1..];
    }
  }

  lemma {:induction false} NamesTransitive(a: string, b: string, c: string)
    requires !NameBefore(b, a) && !NameBefore(c, b)
    ensures !NameBefore(c, a)
  {
    if a != [] && b != [] && c != [] && a[0] == b[0] == c[0] {
      NamesTransitive(a[1..], b[1..], c[1..]);
    }
  }

  lemma OrderTransitive(cmp: Comparator, a: Instrument, b: Instrument, c: Instrument)
    requires !Before(cmp, b, a) && !Before(cmp, c, b)
    ensures !Before(cmp, c, a)
  {
    hide NameBefore;
    if !NameBefore(b.name, a.name) && !NameBefore(c.name, b.name) {
      NamesTransitive(a.name, b.name, c.name);
    }
  }

  // ----- the stable sort

  /** `x` goes behind everything it does not come before. */
  function Inserted(cmp: Comparator, insts: seq<Instrument>, x: Instrument): seq<Instrument> {
    var n := |insts|;
    if n > 0 && Before(cmp, x, insts[n - 1])
    then Inserted(cmp, insts[..n - 1], x) + [insts[n - 1]]
    else insts + [x]
  }

  function StableSort(cmp: Comparator, insts: seq<Instrument>): seq<Instrument> {
    if insts == [] then []
    else Inserted(cmp, StableSort(cmp, insts[..|insts| - 1]), insts[|insts| - 1])
  }

  lemma {:induction false} InsertedMembers(cmp: Comparator, insts: seq<Instrument>, x: Instrument)
    ensures multiset(Inserted(cmp, insts, x)) == multiset(insts) + multiset{x}
    ensures forall y :: y in Inserted(cmp, insts, x) <==> y in insts || y == x
  {
    var n := |insts|;
    if n > 0 && Before(cmp, x, insts[n - 1]) {
      InsertedMembers(cmp, insts[..n - 1], x);
      assert insts == insts[..n - 1] + [insts[n - 1]];
    }
  }

  lemma {:induction false} InsertedInOrder(cmp: Comparator, insts: seq<Instrument>, x: Instrument)
    requires InOrder(cmp, insts)
    ensures InOrder(cmp, Inserted(cmp, insts, x))
  {
    hide Before;
    var n := |insts|;
    if n > 0 && Before(cmp, x, insts[n - 1]) {
      var rest, last := insts[..n - 1], insts[n - 1];
      InsertedInOrder(cmp, rest, x);
      InsertedMembers(cmp, rest, x);
      BeforeAsymmetric(cmp, x, last);
      var r := Inserted(cmp, rest, x);
      forall i | 0 <= i < |r| ensures !Before(cmp, last, r[i]) {
        assert r[i] in r;
      }
    } else if n > 0 {
      forall i | 0 <= i < n ensures !Before(cmp, x, insts[i]) {
        if i < n - 1 {
          OrderTransitive(cmp, insts[i], insts[n - 1], x);
        }
      }
    }
  }

  lemma BeforeAsymmetric(cmp: Comparator, a: Instrument, b: Instrument)
    requires Before(cmp, a, b)
    ensures !Before(cmp, b, a)
  {
    hide NameBefore;
    NamesTotal(a.name, b.name);
  }

  /** The sort yields a permutation in order. */
  lemma {:induction false} StableSorts(cmp: Comparator, insts: seq<Instrument>)
    ensures multiset(StableSort(cmp, insts)) == multiset(insts)
    ensures InOrder(cmp, StableSort(cmp, insts))
  {
    hide Inserted;
    if insts != [] {
      var n := |insts| - 1;
      StableSorts(cmp, insts[..n]);
      InsertedInOrder(cmp, StableSort(cmp, insts[..n]), insts[n]);
      InsertedMembers(cmp, StableSort(cmp, insts[..n]), insts[n]);
      assert insts == insts[..n] + [insts[n]];
    }
  }

  /** What is in order already stays as it is. */
  lemma {:induction false} SortFixes(cmp: Comparator, insts: seq<Instrument>)
    requires InOrder(cmp, insts)
    ensures StableSort(cmp, insts) == insts
  {
    if insts != [] {
      SortFixes(cmp, insts[..|insts| - 1]);
      assert insts == insts[..|insts| - 1] + [insts[|insts| - 1]];
    }
  }

  lemma {:induction false} SortKeepsNames(cmp: Comparator, insts: seq<Instrument>)
    requires DistinctNames(insts)
    ensures DistinctNames(StableSort(cmp, insts))
  {
    hide Inserted;
    if insts != [] {
      var n := |insts| - 1;
      var sorted := StableSort(cmp, insts[..n]);
      SortKeepsNames(cmp, insts[..n]);
      SortMembers(cmp, insts[..n]);
      forall i | 0 <= i < |sorted| ensures sorted[i].name != insts[n].name {
        assert sorted[i] in insts[..n];
      }
      InsertKeepsNames(cmp, sorted, insts[n]);
    }
  }

  lemma {:induction false} InsertKeepsNames(cmp: Comparator, insts: seq<Instrument>, x: Instrument)
    requires DistinctNames(insts) && forall i :: 0 <= i < |insts| ==> insts[i].name != x.name
    ensures DistinctNames(Inserted(cmp, insts, x))
  {
    hide Before;
    var n := |insts|;
    if n > 0 && Before(cmp, x, insts[n - 1]) {
      var r := Inserted(cmp, insts[..n - 1], x);
      InsertKeepsNames(cmp, insts[..n - 1], x);
      InsertedMembers(cmp, insts[..n - 1], x);
      forall i | 0 <= i < |r| ensures r[i].name != insts[n - 1].name {
        assert r[i] in r;
      }
    }
  }

  lemma SortMembers(cmp: Comparator, insts: seq<Instrument>)
    ensures forall x :: x in StableSort(cmp, insts) <==> x in insts
  {
    StableSorts(cmp, insts);
    forall x ensures x in StableSort(cmp, insts) <==> x in insts {
      assert x in multiset(StableSort(cmp, insts)) <==> x in multiset(insts);
    }
  }

  // ----- all instruments, and those of one role

  function Instruments(ensemble: seq<Section>): seq<Instrument> {
    if ensemble == [] then []
    else Instruments(ensemble[..|ensemble| - 1]) + ensemble[|ensemble| - 1].instruments
  }

  function Flattened(ensemble: seq<Section>): seq<Instrument> {
    StableSort(RoleThenName, Instruments(ensemble))
  }

  method FlattenEnsemble(ensemble: seq<Section>) returns (all: seq<Instrument>)
    ensures all == Flattened(ensemble)
  {
    all := [];
    for i := 0 to |ensemble|
      invariant all == Instruments(ensemble[..i])
    {
      assert ensemble[..i + 1][..i] == ensemble[..i];
      all := all + ensemble[i].instruments;
    }
    assert ensemble[..|ensemble|] == ensemble;
    all := StableSort(RoleThenName, all);
  }

  /** Flattening keeps the instruments, in order of role and name. */
  lemma FlattenedIs(ensemble: seq<Section>)
    ensures multiset(Flattened(ensemble)) == multiset(Instruments(ensemble))
    ensures InOrder(RoleThenName, Flattened(ensemble))
    ensures forall x :: x in Flattened(ensemble) <==> x in Instruments(ensemble)
    ensures DistinctNames(Instruments(ensemble)) ==> DistinctNames(Flattened(ensemble))
  {
    hide StableSort, Instruments, InOrder, DistinctNames;
    var insts := Instruments(ensemble);
    StableSorts(RoleThenName, insts);
    SortMembers(RoleThenName, insts);
    if DistinctNames(insts) {
      SortKeepsNames(RoleThenName, insts);
    }
  }

  /** The roles in the order of the score. */
  const SCORE_ORDER := [Melody, Countermelody, Harmony, Bass, Pad, Rhythm, Fill]

  /** Flattened instruments stand in score order, and by name within a role. */
  lemma ScoreOrder(ensemble: seq<Section>, i: nat, j: nat, p: nat, q: nat)
    requires i < j < |Flattened(ensemble)| && p < 7 && q < 7
    requires Flattened(ensemble)[i].role == SCORE_ORDER[p] && Flattened(ensemble)[j].role == SCORE_ORDER[q]
    ensures p <= q && (p == q ==> !NameBefore(Flattened(ensemble)[j].name, Flattened(ensemble)[i].name))
  {
    hide Flattened, NameBefore;
    FlattenedIs(ensemble);
    assert !Before(RoleThenName, Flattened(ensemble)[j], Flattened(ensemble)[i]);
  }

  function OfRole(insts: seq<Instrument>, role: Role): seq<Instrument> {
    if insts == [] then []
    else
      var last := insts[|insts| - 1];
      OfRole(insts[..|insts| - 1], role) + if last.role == role then [last] else []
  }

  lemma {:induction false} OfRoleMembers(insts: seq<Instrument>, role: Role)
    ensures forall x :: x in OfRole(insts, role) <==> x in insts && x.role == role
  {
    if insts != [] {
      OfRoleMembers(insts[..|insts| - 1], role);
      assert insts == insts[..|insts| - 1] + [insts[|insts| - 1]];
    }
  }

  lemma {:induction false} OfRoleKeepsNames(insts: seq<Instrument>, role: Role)
    requires DistinctNames(insts)
    ensures DistinctNames(OfRole(insts, role))
  {
    if insts != [] {
      var n := |insts| - 1;
      OfRoleKeepsNames(insts[..n], role);
      var rest := OfRole(insts[..n], role);
      forall i | 0 <= i < |rest| ensures rest[i].name != insts[n].name {
        OfRoleAt(insts[..n], role, i);
      }
    }
  }

  lemma OfRoleAt(insts: seq<Instrument>, role: Role, i: nat)
    requires i < |OfRole(insts, role)|
    ensures OfRole(insts, role)[i] in insts && OfRole(insts, role)[i].role == role
  {
    OfRoleMembers(insts, role);
    assert OfRole(insts, role)[i] in OfRole(insts, role);
  }

  lemma {:induction false} OfRoleInOrder(insts: seq<Instrument>, role: Role)
    requires InOrder(RoleThenName, insts)
    ensures InOrder(NameOnly, OfRole(insts, role))
  {
    hide NameBefore;
    if insts != [] {
      var n := |insts| - 1;
      OfRoleInOrder(insts[..n], role);
      var rest := OfRole(insts[..n], role);
      forall i | 0 <= i < |rest| && insts[n].role == role ensures !Before(NameOnly, insts[n], rest[i]) {
        OfRoleAt(insts[..n], role, i);
      }
    }
  }

  datatype Groups = Groups(
    melody: seq<Instrument>, countermelody: seq<Instrument>, harmony: seq<Instrument>, bass: seq<Instrument>,
    pad: seq<Instrument>, rhythm: seq<Instrument>, fill: seq<Instrument>)

  function Grouped(insts: seq<Instrument>): Groups {
    Groups(OfRole(insts, Melody), OfRole(insts, Countermelody), OfRole(insts, Harmony), OfRole(insts, Bass),
           OfRole(insts, Pad), OfRole(insts, Rhythm), OfRole(insts, Fill))
  }

  method GroupByRole(insts: seq<Instrument>) returns (g: Groups)
    ensures g == Grouped(insts)
  {
    g := Groups([], [], [], [], [], [], []);
    for i := 0 to |insts|
      invariant g == Grouped(insts[..i])
    {
      assert insts[..i + 1][..i] == insts[..i];
      match insts[i].role {
        case Melody => g := g.(melody := g.melody + [insts[i]]);
        case Countermelody => g := g.(countermelody := g.countermelody + [insts[i]]);
        case Harmony => g := g.(harmony := g.harmony + [insts[i]]);
        case Bass => g := g.(bass := g.bass + [insts[i]]);
        case Pad => g := g.(pad := g.pad + [insts[i]]);
        case Rhythm => g := g.(rhythm := g.rhythm + [insts[i]]);
        case Fill => g := g.(fill := g.fill + [insts[i]]);
      }
    }
    assert insts[..|insts|] == insts;
  }

  /** The groups of a flattened ensemble are sorted by name already, so sorting them again changes nothing. */
  lemma SecondSortIdle(ensemble: seq<Section>, role: Role)
    ensures StableSort(NameOnly, OfRole(Flattened(ensemble), role)) == OfRole(Flattened(ensemble), role)
  {
    hide StableSort, OfRole, InOrder, Flattened;
    FlattenedIs(ensemble);
    OfRoleInOrder(Flattened(ensemble), role);
    SortFixes(NameOnly, OfRole(Flattened(ensemble), role));
  }
}
