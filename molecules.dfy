/**
 * Molecule graphs as the ring-template extractor sees them, the chemistry
 * toolkit it calls (as uninterpreted functions), and the pure graph
 * operations it performs itself: zeroing hydrogen counts, copying
 * coordinates and building the ring-with-stubs graph.
 */
module Molecules {
  import opened Wrappers

  /** The identity of an atom object: ring fragments share atoms with their molecule. */
  type AtomId = nat

  /** A 2D coordinate. Coordinates are only ever copied, never computed with. */
  datatype Point2d = Point2d(x: real, y: real)

  /**
   * An atom: its identity, element symbol, implicit hydrogen count and 2D point.
   * Records whose atoms lack a hydrogen count or a point are skipped before
   * they reach the extractor, so neither is nullable here.
   */
  datatype Atom = Atom(id: AtomId, symbol: string, implicitH: nat, point: Point2d)

  /** A bond between the atoms with identities `begin` and `end`; `order` is the numeric bond order. */
  datatype Bond = Bond(begin: AtomId, end: AtomId, order: int)

  /** A stereo element, kept only so that clearing the stereo elements is visible. */
  datatype StereoElement = StereoElement(focus: AtomId)

  /** An atom container: atoms and bonds in container order, stereo elements and the title property. */
  datatype Molecule = Molecule(atoms: seq<Atom>, bonds: seq<Bond>, stereo: seq<StereoElement>, title: Option<string>)

  /** The canonical-SMILES generator's checked exception. */
  datatype CdkError = CdkException

  /** What ring search reports: the fused ring systems and the isolated rings. */
  datatype RingFragments = RingFragments(fused: seq<Molecule>, isolated: seq<Molecule>)

  /**
   * The chemistry library calls the extractor makes, as uninterpreted functions:
   * hydrogen suppression, ring search, the skeleton and anonymous reductions and
   * unique SMILES generation.
   */
  datatype Toolkit = Toolkit(
    suppressHydrogens: Molecule -> Molecule,
    ringSearch: Molecule -> RingFragments,
    skeleton: Molecule -> Molecule,
    anonymise: Molecule -> Molecule,
    smiles: Molecule -> Result<string, CdkError>)

  /**
   * What the extractor relies on from the toolkit: the reductions keep the atom
   * count (and order), so atom i of a reduction corresponds to atom i of its
   * source, and hydrogen suppression keeps every bond between atoms of the container.
   */
  ghost predicate Sound(tk: Toolkit) {
    && (forall m :: |tk.skeleton(m).atoms| == |m.atoms|)
    && (forall m :: |tk.anonymise(m).atoms| == |m.atoms|)
    && (forall m :: WellFormed(m) ==> WellFormed(tk.suppressHydrogens(m)))
  }

  function AtomIds(atoms: seq<Atom>): set<AtomId> {
    set a | a in atoms :: a.id
  }

  /** Every bond joins two atoms of the container. */
  predicate WellFormed(m: Molecule) {
    forall b | b in m.bonds :: b.begin in AtomIds(m.atoms) && b.end in AtomIds(m.atoms)
  }

  predicate AllCarbonAtoms(m: Molecule) {
    forall a | a in m.atoms :: a.symbol == "C"
  }

  /** No bond has a numeric order above 2 or below 1. */
  predicate BondOrdersInRange(m: Molecule) {
    forall b | b in m.bonds :: 1 <= b.order <= 2
  }

  /** The atom object a bond refers to, found by its identity. */
  function FindAtom(atoms: seq<Atom>, id: AtomId): (a: Atom)
    requires id in AtomIds(atoms)
    ensures a in atoms && a.id == id
  {
    var w :| w in atoms && w.id == id;
    if atoms[0].id == id then atoms[0]
    else
      assert w in atoms[1..];
      FindAtom(atoms[1..], id)
  }

  lemma {:induction false} AtomIdsBound(atoms: seq<Atom>)
    ensures |AtomIds(atoms)| <= |atoms|
  {
    if atoms != [] {
      var init := atoms[..|atoms| - 1];
      assert atoms == init + [atoms[|atoms| - 1]];
      assert AtomIds(atoms) == AtomIds(init) + {atoms[|atoms| - 1].id};
      AtomIdsBound(init);
    }
  }

  /**
   * The graph the extractor stores for `src`: its reduction `reduced` (same atom
   * count) with every implicit hydrogen count set to zero, atom i placed at a
   * copy of src's atom i point, and src's title.
   */
  function Derived(src: Molecule, reduced: Molecule): Molecule
    requires |reduced.atoms| == |src.atoms|
  {
    reduced.(
      atoms := seq(|reduced.atoms|, i requires 0 <= i < |reduced.atoms| =>
                     reduced.atoms[i].(implicitH := 0, point := src.atoms[i].point)),
      title := src.title)
  }

  lemma DerivedFields(src: Molecule, reduced: Molecule)
    requires |reduced.atoms| == |src.atoms|
    ensures var d := Derived(src, reduced);
      && |d.atoms| == |src.atoms|
      && (forall i | 0 <= i < |d.atoms| ::
            d.atoms[i].implicitH == 0 && d.atoms[i].point == src.atoms[i].point
            && d.atoms[i].id == reduced.atoms[i].id && d.atoms[i].symbol == reduced.atoms[i].symbol)
      && d.bonds == reduced.bonds && d.stereo == reduced.stereo && d.title == src.title
  {
  }

  // ---------------------------------------------------------------------------
  // The ring-with-stubs graph

  /** A bond with exactly one end in the ring. */
  predicate IsStub(b: Bond, ringIds: set<AtomId>) {
    (b.begin in ringIds) != (b.end in ringIds)
  }

  /** Adding an atom object that the container already holds leaves it unchanged. */
  function AddAtom(m: Molecule, a: Atom): Molecule {
    if a.id in AtomIds(m.atoms) then m else m.(atoms := m.atoms + [a])
  }

  /** One step of the bond scan: a stub bond is added with both its atoms. */
  function AddStub(stub: Molecule, container: Molecule, ringIds: set<AtomId>, b: Bond): Molecule
    requires WellFormed(container) && b in container.bonds
  {
    if IsStub(b, ringIds) then
      AddAtom(AddAtom(stub.(bonds := stub.bonds + [b]), FindAtom(container.atoms, b.begin)),
              FindAtom(container.atoms, b.end))
    else stub
  }

  /** The ring-with-stubs graph after scanning the first n bonds of the container. */
  function StubsUpTo(ring: Molecule, container: Molecule, n: nat): Molecule
    requires WellFormed(container) && n <= |container.bonds|
  {
    if n == 0 then ring.(title := container.title)
    else AddStub(StubsUpTo(ring, container, n - 1), container, AtomIds(ring.atoms), container.bonds[n - 1])
  }

  /** The ring system plus every container bond with exactly one end in it, with its atoms. */
  function RingWithStubs(ring: Molecule, container: Molecule): Molecule
    requires WellFormed(container)
  {
    StubsUpTo(ring, container, |container.bonds|)
  }

  /** The stub bonds among `bonds`, in order. */
  function StubBonds(bonds: seq<Bond>, ringIds: set<AtomId>): seq<Bond> {
    if bonds == [] then []
    else
      var last := bonds[|bonds| - 1];
      StubBonds(bonds[..|bonds| - 1], ringIds) + (if IsStub(last, ringIds) then [last] else [])
  }

  function EndpointIds(bonds: seq<Bond>): set<AtomId> {
    (set b | b in bonds :: b.begin) + (set b | b in bonds :: b.end)
  }

  lemma {:induction false} StubBondsMembers(bonds: seq<Bond>, ringIds: set<AtomId>)
    ensures forall b :: b in StubBonds(bonds, ringIds) <==> b in bonds && IsStub(b, ringIds)
  {
    if bonds != [] {
      var init := bonds[..|bonds| - 1];
      assert bonds == init + [bonds[|bonds| - 1]];
      StubBondsMembers(init, ringIds);
    }
  }

  lemma {:induction false} StubsUpToBonds(ring: Molecule, container: Molecule, n: nat)
    requires WellFormed(container) && n <= |container.bonds|
    ensures StubsUpTo(ring, container, n).bonds == ring.bonds + StubBonds(container.bonds[..n], AtomIds(ring.atoms))
  {
    if n > 0 {
      StubsUpToBonds(ring, container, n - 1);
      assert container.bonds[..n][..n - 1] == container.bonds[..n - 1];
    }
  }

  lemma {:induction false} StubsUpToAtomIds(ring: Molecule, container: Molecule, n: nat)
    requires WellFormed(container) && n <= |container.bonds|
    ensures AtomIds(StubsUpTo(ring, container, n).atoms)
         == AtomIds(ring.atoms) + EndpointIds(StubBonds(container.bonds[..n], AtomIds(ring.atoms)))
  {
    var ids := AtomIds(ring.atoms);
    if n > 0 {
      StubsUpToAtomIds(ring, container, n - 1);
      var prev := StubsUpTo(ring, container, n - 1);
      var b := container.bonds[n - 1];
      assert container.bonds[..n][..n - 1] == container.bonds[..n - 1];
      var sb := StubBonds(container.bonds[..n - 1], ids);
      assert b in container.bonds;
      if IsStub(b, ids) {
        assert StubBonds(container.bonds[..n], ids) == sb + [b];
        var s1 := prev.(bonds := prev.bonds + [b]);
        AddAtomIds(s1, FindAtom(container.atoms, b.begin));
        var s2 := AddAtom(s1, FindAtom(container.atoms, b.begin));
        AddAtomIds(s2, FindAtom(container.atoms, b.end));
        assert StubsUpTo(ring, container, n) == AddAtom(s2, FindAtom(container.atoms, b.end));
        EndpointIdsAppend(sb, b);
      } else {
        assert StubBonds(container.bonds[..n], ids) == sb + [];
        assert sb + [] == sb;
        assert StubsUpTo(ring, container, n) == prev;
      }
    }
  }

  lemma EndpointIdsAppend(bonds: seq<Bond>, b: Bond)
    ensures EndpointIds(bonds + [b]) == EndpointIds(bonds) + {b.begin, b.end}
  {
    var r := bonds + [b];
    assert forall x | x in r :: x in bonds || x == b;
    assert b in r;
  }

  lemma AddAtomIds(m: Molecule, a: Atom)
    ensures AtomIds(AddAtom(m, a).atoms) == AtomIds(m.atoms) + {a.id}
    ensures m.atoms <= AddAtom(m, a).atoms
    ensures forall x | x in AddAtom(m, a).atoms :: x in m.atoms || x == a
    ensures AddAtom(m, a).bonds == m.bonds && AddAtom(m, a).stereo == m.stereo && AddAtom(m, a).title == m.title
  {
    if a.id !in AtomIds(m.atoms) {
      assert AtomIds(m.atoms + [a]) == AtomIds(m.atoms) + {a.id};
    }
  }

  lemma {:induction false} StubsUpToAtoms(ring: Molecule, container: Molecule, n: nat)
    requires WellFormed(container) && n <= |container.bonds|
    ensures var s := StubsUpTo(ring, container, n);
      && ring.atoms <= s.atoms
      && (forall a | a in s.atoms :: a in ring.atoms || a in container.atoms)
      && s.stereo == ring.stereo && s.title == container.title
  {
    if n > 0 {
      StubsUpToAtoms(ring, container, n - 1);
      var prev := StubsUpTo(ring, container, n - 1);
      var b := container.bonds[n - 1];
      var ids := AtomIds(ring.atoms);
      if IsStub(b, ids) {
        var s1 := prev.(bonds := prev.bonds + [b]);
        AddAtomIds(s1, FindAtom(container.atoms, b.begin));
        AddAtomIds(AddAtom(s1, FindAtom(container.atoms, b.begin)), FindAtom(container.atoms, b.end));
      }
    }
  }

  /** The bonds of the ring-with-stubs graph: the ring's bonds, then the stub bonds in container order. */
  lemma RingWithStubsBonds(ring: Molecule, container: Molecule)
    requires WellFormed(container)
    ensures RingWithStubs(ring, container).bonds == ring.bonds + StubBonds(container.bonds, AtomIds(ring.atoms))
    ensures forall b :: b in RingWithStubs(ring, container).bonds <==>
                        b in ring.bonds || (b in container.bonds && IsStub(b, AtomIds(ring.atoms)))
  {
    StubsUpToBonds(ring, container, |container.bonds|);
    assert container.bonds[..|container.bonds|] == container.bonds;
    StubBondsMembers(container.bonds, AtomIds(ring.atoms));
  }

  /**
   * The atoms of the ring-with-stubs graph: the ring's atoms first, then
   * container atoms, exactly the ring atoms and the ends of the stub bonds.
   */
  lemma RingWithStubsAtoms(ring: Molecule, container: Molecule)
    requires WellFormed(container)
    ensures var s := RingWithStubs(ring, container);
      && AtomIds(s.atoms) == AtomIds(ring.atoms) + EndpointIds(StubBonds(container.bonds, AtomIds(ring.atoms)))
      && ring.atoms <= s.atoms
      && (forall a | a in s.atoms :: a in ring.atoms || a in container.atoms)
      && s.title == container.title
  {
    StubsUpToAtomIds(ring, container, |container.bonds|);
    StubsUpToAtoms(ring, container, |container.bonds|);
    assert container.bonds[..|container.bonds|] == container.bonds;
  }

  /**
   * When the ring system holds every atom of the molecule, no bond is a stub,
   * so the ring-with-stubs graph is the ring system under the molecule's title.
   */
  lemma WholeRingHasNoStubs(ring: Molecule, container: Molecule)
    requires WellFormed(container)
    requires AtomIds(ring.atoms) <= AtomIds(container.atoms)
    requires |AtomIds(ring.atoms)| == |ring.atoms|
    requires |ring.atoms| == |container.atoms|
    ensures RingWithStubs(ring, container) == ring.(title := container.title)
  {
    AtomIdsBound(container.atoms);
    SubsetEqualCard(AtomIds(ring.atoms), AtomIds(container.atoms));
    NoStubsUpTo(ring, container, |container.bonds|);
  }

  /** A subset at least as large as its superset is the whole superset. */
  lemma {:induction false} SubsetEqualCard(a: set<AtomId>, b: set<AtomId>)
    requires a <= b && |b| <= |a|
    ensures a == b
  {
    if a != {} {
      var x :| x in a;
      SubsetEqualCard(a - {x}, b - {x});
    }
  }

  lemma {:induction false} NoStubsUpTo(ring: Molecule, container: Molecule, n: nat)
    requires WellFormed(container) && n <= |container.bonds|
    requires AtomIds(ring.atoms) == AtomIds(container.atoms)
    ensures StubsUpTo(ring, container, n) == ring.(title := container.title)
  {
    if n > 0 {
      NoStubsUpTo(ring, container, n - 1);
      assert container.bonds[n - 1] in container.bonds;
    }
  }
}
