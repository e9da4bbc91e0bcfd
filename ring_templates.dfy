/**
 * The ring-template extractor: a corpus of three tiers keyed by canonical
 * SMILES. `anonymous` and `skeltons` are seeded by molecules that are one
 * ring system and nothing else; `library` receives three reductions of every
 * accepted ring system. The writer exports one representative per library
 * key seen at least twice, most frequent first.
 */
module RingTemplates {
  import opened Wrappers
  import opened Molecules
  import opened Corpus

  /** The three tiers of the corpus. */
  datatype Tiers = Tiers(anonymous: Multimap, skeltons: Multimap, library: Multimap)

  /**
   * The seeded tiers keep one graph per key; the library keeps at least one
   * under every key it has.
   */
  ghost predicate TiersValid(t: Tiers) {
    && (forall k | k in t.anonymous :: |t.anonymous[k]| == 1)
    && (forall k | k in t.skeltons :: |t.skeltons[k]| == 1)
    && (forall k | k in t.library :: |t.library[k]| >= 1)
  }

  /** Exactly one ring system: one fused and no isolated one, or one isolated and no fused one. */
  predicate SingleRingSystem(f: RingFragments) {
    (|f.fused| == 1 && |f.isolated| == 0) || (|f.isolated| == 1 && |f.fused| == 0)
  }

  class RingTemplateExtractor {
    var anonymous: Multimap
    var skeltons: Multimap
    var library: Multimap
    /** The chemistry library calls, including the unique SMILES generator. */
    const tk: Toolkit

    function State(): Tiers
      reads this
    {
      Tiers(anonymous, skeltons, library)
    }

    ghost predicate Valid()
      reads this
    {
      Sound(tk) && TiersValid(State())
    }

    constructor (tk: Toolkit)
      requires Sound(tk)
      ensures Valid() && this.tk == tk
      ensures State() == Tiers(map[], map[], map[])
    {
      this.tk := tk;
      anonymous, skeltons, library := map[], map[], map[];
    }

    // -------------------------------------------------------------------------
    // Specification of the corpus updates

    /** The unique SMILES of m, or null when the generator throws. */
    function ToCanSmi(m: Molecule): (key: Key)
      ensures key.None? <==> tk.smiles(m).Err?
      ensures key.Some? ==> tk.smiles(m) == Ok(key.value)
    {
      match tk.smiles(m)
      case Ok(s) => Some(s)
      case Err(_) => None
    }

    /** The hydrogen-cleared, coordinate-copied skeleton of m. */
    function SkeletonOf(m: Molecule): Molecule
      requires Sound(tk)
    {
      Derived(m, tk.skeleton(m))
    }

    /** The hydrogen-cleared, coordinate-copied anonymised graph of m. */
    function AnonymousOf(m: Molecule): Molecule
      requires Sound(tk)
    {
      Derived(m, tk.anonymise(m))
    }

    /** What one call of addSkeletonToMainLib (or addAnonymousToMainLib) makes of the library. */
    function PutSkeleton(lib: Multimap, m: Molecule): Multimap
      requires Sound(tk)
    {
      Put(lib, ToCanSmi(SkeletonOf(m)), SkeletonOf(m))
    }

    /** The seeding of the anonymous or skeleton tier by a ring system that is the whole molecule. */
    function Seeded(t: Tiers, rs: Molecule, container: Molecule): Tiers
      requires Sound(tk)
    {
      if |rs.atoms| != |container.atoms| then t
      else if AllCarbonAtoms(rs) then
        t.(anonymous := PutIfAbsent(t.anonymous, ToCanSmi(AnonymousOf(rs)), AnonymousOf(rs)))
      else
        t.(skeltons := PutIfAbsent(t.skeltons, ToCanSmi(SkeletonOf(rs)), SkeletonOf(rs)))
    }

    /** The tiers after adding ring system `ringSystem` of `container` to tiers t. */
    function AfterRingSystem(t: Tiers, ringSystem: Molecule, container: Molecule): Tiers
      requires Sound(tk) && WellFormed(container)
    {
      var rs := ringSystem.(title := container.title);
      if !BondOrdersInRange(rs) then t
      else
        var seeded := Seeded(t, rs, container);
        var lib := PutSkeleton(PutSkeleton(PutSkeleton(seeded.library, RingWithStubs(rs, container)), rs), rs);
        seeded.(library := lib)
    }

    /** The container after hydrogen suppression and the removal of its stereo elements. */
    function Processed(container: Molecule): Molecule {
      tk.suppressHydrogens(container).(stereo := [])
    }

    /** The tiers after adding molecule `container` to tiers t. */
    function AfterAdd(t: Tiers, container: Molecule): Tiers
      requires Sound(tk) && WellFormed(container)
    {
      var m := Processed(container);
      var f := tk.ringSearch(m);
      if |f.fused| == 1 && |f.isolated| == 0 then AfterRingSystem(t, f.fused[0], m)
      else if |f.isolated| == 1 && |f.fused| == 0 then AfterRingSystem(t, f.isolated[0], m)
      else t
    }

    /**
     * A choice of library graph per key: the position, among the graphs put
     * under the key, of the one the key's hash set yields first.
     */
    predicate Picks(pick: Key -> nat)
      reads this
    {
      forall k | k in library :: pick(k) < |library[k]|
    }

    /**
     * The graph written for an exported key: the anonymous tier's only graph,
     * else the skeleton tier's only graph, else the library graph `pick` selects.
     */
    function Representative(key: Key, pick: Key -> nat): (g: Molecule)
      reads this
      requires Valid() && key in library && Picks(pick)
      ensures key in anonymous ==> g == anonymous[key][0] && anonymous[key] == [g]
      ensures key !in anonymous && key in skeltons ==> g == skeltons[key][0] && skeltons[key] == [g]
      ensures key !in anonymous && key !in skeltons ==> g in library[key]
    {
      if key in anonymous then anonymous[key][0]
      else if key in skeltons then skeltons[key][0]
      else library[key][pick(key)]
    }

    // -------------------------------------------------------------------------
    // Properties of the specification

    lemma AfterRingSystemValid(t: Tiers, ringSystem: Molecule, container: Molecule)
      requires Sound(tk) && WellFormed(container) && TiersValid(t)
      ensures TiersValid(AfterRingSystem(t, ringSystem, container))
    {
      var rs := ringSystem.(title := container.title);
      if BondOrdersInRange(rs) {
        var seeded := Seeded(t, rs, container);
        PutIfAbsentSingle(t.anonymous, ToCanSmi(AnonymousOf(rs)), AnonymousOf(rs));
        PutIfAbsentSingle(t.skeltons, ToCanSmi(SkeletonOf(rs)), SkeletonOf(rs));
        assert TiersValid(seeded);
        var lib1 := PutSkeleton(seeded.library, RingWithStubs(rs, container));
        PutNonEmpty(seeded.library, ToCanSmi(SkeletonOf(RingWithStubs(rs, container))), SkeletonOf(RingWithStubs(rs, container)));
        var lib2 := PutSkeleton(lib1, rs);
        PutNonEmpty(lib1, ToCanSmi(SkeletonOf(rs)), SkeletonOf(rs));
        PutNonEmpty(lib2, ToCanSmi(SkeletonOf(rs)), SkeletonOf(rs));
      }
    }

    /** A molecule with zero or several ring systems leaves every tier as it was. */
    lemma AdmissionRule(t: Tiers, container: Molecule)
      requires Sound(tk) && WellFormed(container)
      ensures !SingleRingSystem(tk.ringSearch(Processed(container))) ==> AfterAdd(t, container) == t
      ensures SingleRingSystem(tk.ringSearch(Processed(container))) ==>
        var f := tk.ringSearch(Processed(container));
        AfterAdd(t, container) == AfterRingSystem(t, if |f.fused| == 1 then f.fused[0] else f.isolated[0], Processed(container))
    {
    }

    /** A ring system with a bond order outside 1..2 adds nothing to any tier. */
    lemma RejectedRingSystem(t: Tiers, ringSystem: Molecule, container: Molecule)
      requires Sound(tk) && WellFormed(container)
      requires exists b | b in ringSystem.bonds :: b.order > 2 || b.order < 1
      ensures AfterRingSystem(t, ringSystem, container) == t
    {
    }

    /**
     * An accepted ring system puts exactly three graphs into the library: the
     * skeleton of its ring-with-stubs graph, then its own skeleton twice under
     * one key.
     */
    lemma AcceptedRingSystemLibrary(t: Tiers, ringSystem: Molecule, container: Molecule)
      requires Sound(tk) && WellFormed(container)
      requires BondOrdersInRange(ringSystem)
      ensures var rs := ringSystem.(title := container.title);
        var stubs := SkeletonOf(RingWithStubs(rs, container));
        var ring := SkeletonOf(rs);
        var after := AfterRingSystem(t, ringSystem, container).library;
        && after.Keys == t.library.Keys + {ToCanSmi(stubs), ToCanSmi(ring)}
        && forall k :: Entries(after, k) == Entries(t.library, k)
                                           + (if k == ToCanSmi(stubs) then [stubs] else [])
                                           + (if k == ToCanSmi(ring) then [ring, ring] else [])
    {
      var rs := ringSystem.(title := container.title);
      var stubs := SkeletonOf(RingWithStubs(rs, container));
      var ring := SkeletonOf(rs);
      var seeded := Seeded(t, rs, container);
      assert seeded.library == t.library;
      assert AfterRingSystem(t, ringSystem, container).library
          == Put(Put(Put(t.library, ToCanSmi(stubs), stubs), ToCanSmi(ring), ring), ToCanSmi(ring), ring);
      ThreePuts(t.library, ToCanSmi(stubs), stubs, ToCanSmi(ring), ring);
    }

    /**
     * Only a ring system that is the whole molecule seeds a tier: the anonymous
     * tier when every atom is carbon, the skeleton tier otherwise, and only
     * under a key the tier does not have yet.
     */
    lemma WholeMoleculeSeeding(t: Tiers, ringSystem: Molecule, container: Molecule)
      requires Sound(tk) && WellFormed(container)
      requires BondOrdersInRange(ringSystem)
      ensures var rs := ringSystem.(title := container.title);
        var after := AfterRingSystem(t, ringSystem, container);
        && (|rs.atoms| != |container.atoms| ==> after.anonymous == t.anonymous && after.skeltons == t.skeltons)
        && (|rs.atoms| == |container.atoms| && AllCarbonAtoms(rs) ==>
              after.skeltons == t.skeltons
              && after.anonymous == PutIfAbsent(t.anonymous, ToCanSmi(AnonymousOf(rs)), AnonymousOf(rs)))
        && (|rs.atoms| == |container.atoms| && !AllCarbonAtoms(rs) ==>
              after.anonymous == t.anonymous
              && after.skeltons == PutIfAbsent(t.skeltons, ToCanSmi(SkeletonOf(rs)), SkeletonOf(rs)))
        && (ToCanSmi(AnonymousOf(rs)) in t.anonymous ==> after.anonymous == t.anonymous)
        && (ToCanSmi(SkeletonOf(rs)) in t.skeltons ==> after.skeltons == t.skeltons)
    {
    }

    /**
     * When the ring system (with distinct atoms, all of the molecule's) spans
     * the whole molecule, the ring-with-stubs graph is the ring system itself,
     * so all three library entries are the ring system's skeleton.
     */
    lemma WholeMoleculeLibrary(t: Tiers, ringSystem: Molecule, container: Molecule)
      requires Sound(tk) && WellFormed(container)
      requires BondOrdersInRange(ringSystem)
      requires AtomIds(ringSystem.atoms) <= AtomIds(container.atoms)
      requires |AtomIds(ringSystem.atoms)| == |ringSystem.atoms| == |container.atoms|
      ensures var ring := SkeletonOf(ringSystem.(title := container.title));
        var after := AfterRingSystem(t, ringSystem, container).library;
        Entries(after, ToCanSmi(ring)) == Entries(t.library, ToCanSmi(ring)) + [ring, ring, ring]
    {
      var rs := ringSystem.(title := container.title);
      WholeRingHasNoStubs(rs, container);
      assert RingWithStubs(rs, container) == rs;
      AcceptedRingSystemLibrary(t, ringSystem, container);
    }

    // -------------------------------------------------------------------------
    // The operations

    /** add(IAtomContainer): admits molecules with exactly one ring system. */
    method Add(container: Molecule) returns (processed: Molecule)
      requires Valid() && WellFormed(container)
      modifies this
      ensures Valid()
      ensures processed == Processed(container)
      ensures State() == AfterAdd(old(State()), container)
    {
      processed := tk.suppressHydrogens(container);
      processed := processed.(stereo := []);
      var rings := tk.ringSearch(processed);
      var fused, isolated := rings.fused, rings.isolated;
      if |fused| == 1 && |isolated| == 0 {
        var _ := AddRingSystem(fused[0], processed);
      } else if |isolated| == 1 && |fused| == 0 {
        var _ := AddRingSystem(isolated[0], processed);
      }
    }

    /**
     * add(ringSystem, container): titles the ring system, rejects it on a bond
     * order outside 1..2, seeds a tier when it is the whole molecule, and puts
     * three skeletons into the library.
     */
    method AddRingSystem(ringSystem: Molecule, container: Molecule) returns (titled: Molecule)
      requires Valid() && WellFormed(container)
      modifies this
      ensures Valid()
      ensures titled == ringSystem.(title := container.title)
      ensures State() == AfterRingSystem(old(State()), ringSystem, container)
    {
      titled := ringSystem.(title := container.title);
      for i := 0 to |titled.bonds|
        invariant forall j | 0 <= j < i :: 1 <= titled.bonds[j].order <= 2
      {
        var order := titled.bonds[i].order;
        if order > 2 || order < 1 {
          return;
        }
      }
      assert BondOrdersInRange(titled);
      ghost var seeded := Seeded(State(), titled, container);
      if |titled.atoms| == |container.atoms| {
        var carbon := AllCarbon(titled);
        if carbon {
          AddAnonymous(titled);
        } else {
          AddSkeleton(titled);
        }
      }
      assert State() == seeded;
      var ringAtoms := AtomSet(titled);
      var ringWithStubs := BuildRingWithStubs(titled, container, ringAtoms);
      AddSkeletonToMainLib(ringWithStubs);
      AddSkeletonToMainLib(titled);
      AddAnonymousToMainLib(titled);
      assert library == PutSkeleton(PutSkeleton(PutSkeleton(seeded.library, ringWithStubs), titled), titled);
    }

    /** The identities of m's atoms, collected one atom at a time. */
    static method AtomSet(m: Molecule) returns (ids: set<AtomId>)
      ensures ids == AtomIds(m.atoms)
      ensures forall a | a in m.atoms :: a.id in ids
    {
      ids := {};
      for i := 0 to |m.atoms|
        invariant ids == AtomIds(m.atoms[..i])
      {
        assert m.atoms[..i + 1] == m.atoms[..i] + [m.atoms[i]];
        ids := ids + {m.atoms[i].id};
      }
      assert m.atoms[..|m.atoms|] == m.atoms;
    }

    /**
     * The ring-with-stubs graph: the ring system, then every container bond with
     * exactly one end among `ringAtoms`, each with the atoms it joins.
     */
    static method BuildRingWithStubs(ring: Molecule, container: Molecule, ringAtoms: set<AtomId>)
      returns (stubs: Molecule)
      requires WellFormed(container) && ringAtoms == AtomIds(ring.atoms)
      ensures stubs == RingWithStubs(ring, container)
      ensures stubs.title == container.title
      ensures forall b :: b in stubs.bonds <==> b in ring.bonds || (b in container.bonds && IsStub(b, ringAtoms))
      ensures ring.atoms <= stubs.atoms
      ensures AtomIds(stubs.atoms) == ringAtoms + EndpointIds(StubBonds(container.bonds, ringAtoms))
    {
      stubs := ring.(title := container.title);
      for i := 0 to |container.bonds|
        invariant stubs == StubsUpTo(ring, container, i)
      {
        var bond := container.bonds[i];
        assert bond in container.bonds;
        var atom1 := FindAtom(container.atoms, bond.begin);
        var atom2 := FindAtom(container.atoms, bond.end);
        if (bond.begin in ringAtoms) != (bond.end in ringAtoms) {
          stubs := stubs.(bonds := stubs.bonds + [bond]);
          stubs := AddAtom(stubs, atom1);
          stubs := AddAtom(stubs, atom2);
        }
      }
      RingWithStubsBonds(ring, container);
      RingWithStubsAtoms(ring, container);
    }

    /** addSkeletonToMainLib: one more library entry, the skeleton under its key. */
    method AddSkeletonToMainLib(container: Molecule)
      requires Valid()
      modifies this
      ensures Valid()
      ensures State() == old(State()).(library := PutSkeleton(old(library), container))
    {
      var skeleton := ClearHydrogens(tk.skeleton(container));
      skeleton := CopyCoordinates(container, skeleton);
      skeleton := skeleton.(title := container.title);
      assert skeleton == SkeletonOf(container);
      var skeletonKey := ToCanSmi(skeleton);
      library := Put(library, skeletonKey, skeleton);
    }

    /** addAnonymousToMainLib: word for word addSkeletonToMainLib (it too uses the skeleton reduction). */
    method AddAnonymousToMainLib(container: Molecule)
      requires Valid()
      modifies this
      ensures Valid()
      ensures State() == old(State()).(library := PutSkeleton(old(library), container))
    {
      var skeleton := ClearHydrogens(tk.skeleton(container));
      skeleton := CopyCoordinates(container, skeleton);
      skeleton := skeleton.(title := container.title);
      assert skeleton == SkeletonOf(container);
      var skeletonKey := ToCanSmi(skeleton);
      library := Put(library, skeletonKey, skeleton);
    }

    /** addSkeleton: puts the skeleton only under a key the skeleton tier does not have. */
    method AddSkeleton(container: Molecule)
      requires Valid()
      modifies this
      ensures Valid()
      ensures State() == old(State()).(skeltons :=
        PutIfAbsent(old(skeltons), ToCanSmi(SkeletonOf(container)), SkeletonOf(container)))
    {
      var skeleton := ClearHydrogens(tk.skeleton(container));
      skeleton := CopyCoordinates(container, skeleton);
      skeleton := skeleton.(title := container.title);
      assert skeleton == SkeletonOf(container);
      var skeletonKey := ToCanSmi(skeleton);
      if skeletonKey !in skeltons {
        skeltons := skeltons[skeletonKey := [skeleton]];
      }
    }

    /** addAnonymous: puts the anonymised graph only under a key the anonymous tier does not have. */
    method AddAnonymous(container: Molecule)
      requires Valid()
      modifies this
      ensures Valid()
      ensures State() == old(State()).(anonymous :=
        PutIfAbsent(old(anonymous), ToCanSmi(AnonymousOf(container)), AnonymousOf(container)))
    {
      var anon := ClearHydrogens(tk.anonymise(container));
      anon := CopyCoordinates(container, anon);
      anon := anon.(title := container.title);
      assert anon == AnonymousOf(container);
      var anonymousKey := ToCanSmi(anon);
      if anonymousKey !in anonymous {
        anonymous := anonymous[anonymousKey := [anon]];
      }
    }

    /** clearHydrogens: every implicit hydrogen count becomes zero; nothing else changes. */
    static method ClearHydrogens(m: Molecule) returns (r: Molecule)
      ensures r == m.(atoms := r.atoms)
      ensures |r.atoms| == |m.atoms|
      ensures forall i | 0 <= i < |m.atoms| :: r.atoms[i] == m.atoms[i].(implicitH := 0)
    {
      var atoms := m.atoms;
      for i := 0 to |atoms|
        invariant |atoms| == |m.atoms|
        invariant forall j | 0 <= j < i :: atoms[j] == m.atoms[j].(implicitH := 0)
        invariant forall j | i <= j < |atoms| :: atoms[j] == m.atoms[j]
      {
        atoms := atoms[i := atoms[i].(implicitH := 0)];
      }
      r := m.(atoms := atoms);
    }

    /** The coordinate loop: atom i of dst gets a copy of src's atom i point, for every atom of src. */
    static method CopyCoordinates(src: Molecule, dst: Molecule) returns (r: Molecule)
      requires |src.atoms| <= |dst.atoms|
      ensures r == dst.(atoms := r.atoms)
      ensures |r.atoms| == |dst.atoms|
      ensures forall i | 0 <= i < |src.atoms| :: r.atoms[i] == dst.atoms[i].(point := src.atoms[i].point)
      ensures forall i | |src.atoms| <= i < |dst.atoms| :: r.atoms[i] == dst.atoms[i]
    {
      var atoms := dst.atoms;
      for i := 0 to |src.atoms|
        invariant |atoms| == |dst.atoms|
        invariant forall j | 0 <= j < i :: atoms[j] == dst.atoms[j].(point := src.atoms[j].point)
        invariant forall j | i <= j < |atoms| :: atoms[j] == dst.atoms[j]
      {
        atoms := atoms[i := atoms[i].(point := src.atoms[i].point)];
      }
      r := dst.(atoms := atoms);
    }

    /** allCarbon: true exactly when every atom's symbol is "C". */
    static method AllCarbon(m: Molecule) returns (carbon: bool)
      ensures carbon <==> AllCarbonAtoms(m)
    {
      for i := 0 to |m.atoms|
        invariant forall j | 0 <= j < i :: m.atoms[j].symbol == "C"
      {
        if m.atoms[i].symbol != "C" {
          assert m.atoms[i] in m.atoms;
          return false;
        }
      }
      return true;
    }

    /**
     * writeSDfile, without the file: `order` is the multimap's iteration order
     * of its keys and `pick` the graph each key's hash set yields first.
     * Returns the keys written and the graph written for each.
     */
    method WriteSDfile(order: seq<Key>, pick: Key -> nat) returns (keys: seq<Key>, written: seq<Molecule>)
      requires Valid() && Picks(pick)
      requires Distinct(order) && (forall k :: k in order <==> k in library)
      ensures forall k :: k in keys <==> k in library && |library[k]| >= 2
      ensures Distinct(keys) && NonIncreasing(keys, library)
      ensures keys == ExportedKeys(order, library)
      ensures |written| == |keys|
      ensures forall i | 0 <= i < |keys| :: keys[i] in library && written[i] == Representative(keys[i], pick)
    {
      var list := SortByCount(order, library);
      SortByCountSorted(order, library);
      assert forall k | k in list :: k in library by {
        forall k | k in list ensures k in library {
          assert k in multiset(list);
        }
      }
      keys, written := WriteFrequent(list, pick);
      ExportedKeysSelection(order, library);
    }

    /** The writing loop of writeSDfile over the sorted keys: skips keys put fewer than twice. */
    method WriteFrequent(list: seq<Key>, pick: Key -> nat) returns (keys: seq<Key>, written: seq<Molecule>)
      requires Valid() && Picks(pick)
      requires forall k | k in list :: k in library
      ensures keys == Frequent(list, library)
      ensures |written| == |keys|
      ensures forall i | 0 <= i < |keys| :: keys[i] in library && written[i] == Representative(keys[i], pick)
    {
      keys, written := [], [];
      for i := 0 to |list|
        invariant keys == Frequent(list[..i], library)
        invariant |written| == |keys|
        invariant forall j | 0 <= j < |keys| :: keys[j] in library && written[j] == Representative(keys[j], pick)
      {
        assert list[..i + 1] == list[..i] + [list[i]];
        var key := list[i];
        assert Count(library, key) == |library[key]|;
        if |library[key]| < 2 {
          continue;
        }
        var representative;
        if key in anonymous {
          representative := anonymous[key][0];
        } else if key in skeltons {
          representative := skeltons[key][0];
        } else {
          representative := library[key][pick(key)];
        }
        keys := keys + [key];
        written := written + [representative];
      }
      assert list[..|list|] == list;
    }
  }
}
