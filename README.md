# CDK build utilities: ring templates, BODR element data, BibTeXML formatting

This project is a Dafny model of three parts of the CDK build utilities, with proofs about that model.

- **The ring-template extractor** (`ring_templates.dfy`, `molecules.dfy`, `template_corpus.dfy`) is modelled as a class with three multimap fields.
  - `anonymous`, `skeltons` and `library` are each keyed by a canonical SMILES string, or null when SMILES generation fails.
  - `add` admits molecules with exactly one ring system.
  - It drops ring systems with a bond order outside 1..2.
  - When the ring system is the whole molecule, it seeds the anonymous tier (all carbon) or the skeleton tier (otherwise). In both tiers the first graph put under a key wins.
  - It builds the ring-with-stubs graph and puts three hydrogen-cleared, coordinate-copied skeletons into the library.
  - `writeSDfile` selects each library key with at least two entries, in non-increasing entry-count order. For each one it writes the anonymous-tier graph if there is one, else the skeleton-tier graph, else the library graph that the key's hash set yields first. That choice is a parameter `pick`.
  - Molecules are values. Atoms are identified by an `id`, which stands in for Java object identity.
  - The chemistry toolkit calls are uninterpreted functions collected in a `Toolkit` value. These are hydrogen suppression, ring search, the skeleton and anonymise reductions, and unique SMILES. The model relies on only two facts about them:
    - the reductions keep the atom count;
    - hydrogen suppression keeps bonds between the container's atoms.
- **The element data of the Blue Obelisk Data Repository (BODR)** (`periodic_table_element.dfy`, `element_pt_handler.dfy`, `element_pt_factory.dfy`) has three parts:
  - `PeriodicTableElement` is a class of nullable fields. `setGroup` is its only validating setter.
  - `ElementPTHandler` is the SAX callback state machine that fills a list of elements from the CML element list.
  - `ElementPTFactory` is built over a given element list. It looks an element up by symbol (returning a copy), configures an element from the table, and has per-field queries.
  - A dereferenced null is modelled as a `NullPointerException` result.
- **`BibTeXMLEntry`** (`bibtexml_entry.dfy`) renders one entry as HTML.
  - It tries the kinds in a fixed dispatch order and takes per-field defaults.
  - The `format*` methods append to a `StringBuffer`; each is proved equal to an exact string layout.
  - The XPath child queries are a filter over the entry's children in document order.

`java_lang.dfy` holds the pieces of the Java runtime the code depends on:
- 32-bit `Integer` values;
- `Integer.parseInt`, proved to read back `Integer.toString`;
- the `"null"` that string conversion prints for a null reference;
- `StringBuffer`.

`wrappers.dfy` holds `Option`, `Result` and `Outcome`.

## Model

| member | source | states |
|---|---|---|
| JavaLang.ParseInt | src/main/java/net/sf/cdk/tools/bodr/ElementPTHandler.java:113-125 | `Integer.parseInt` as the handler calls it. A result needs at least one character. Empty text, a lone sign, and text containing a blank are all refused (NumberFormatException). |
| JavaLang.IntToString | src/main/java/net/sf/cdk/tools/bodr/PeriodicTableElement.java:416-420 | An Integer's decimal text is non-empty and starts with '-' exactly when the value is negative. |
| JavaLang.IntRoundTrip | src/main/java/net/sf/cdk/tools/bodr/PeriodicTableElement.java:416-420 | `parseInt` reads back the text printed for every 32-bit value. |
| JavaLang.ParseIntUntrimmed | src/main/java/net/sf/cdk/tools/bodr/ElementPTHandler.java:108-114 | For every text, a blank before or after it makes the parse fail. Signed numbers do parse. |
| JavaLang.JStr | src/main/java/net/sf/cdk/tools/bodr/PeriodicTableElement.java:415-422 | A String reference prints as its value, and a null one as "null". |
| JavaLang.JInt | src/main/java/net/sf/cdk/tools/bodr/PeriodicTableElement.java:416-420 | An Integer reference prints as its decimal text, and a null one as "null". |
| JavaLang.JDouble | src/main/java/net/sf/cdk/tools/bodr/PeriodicTableElement.java:423-425 | A Double reference prints through Double.toString, and a null one as "null". |
| JavaLang.StringBuffer.constructor | src/main/java/net/sf/cdk/tools/bibtex/BibTeXMLEntry.java:137 | A new buffer is empty. |
| JavaLang.StringBuffer.Append | src/main/java/net/sf/cdk/tools/bibtex/BibTeXMLEntry.java:138-142 | `append` puts its argument at the end and changes nothing else. |
| JavaLang.StringBuffer.ToString | src/main/java/net/sf/cdk/tools/bibtex/BibTeXMLEntry.java:144 | `toString` returns the text appended so far. |
| Molecules.FindAtom | src/main/java/org/openscience/cdk/layout/RingTemplateExtractor.java:121-122 | The atom a bond end refers to is in the container and has that identity. |
| Molecules.DerivedFields | src/main/java/org/openscience/cdk/layout/RingTemplateExtractor.java:137-140 | Every derived graph has the source's atom count and all implicit hydrogen counts 0. Atom i sits at source atom i's point and keeps the reduction's identity and symbol. Bonds and stereo come from the reduction, and the title from the source. |
| Molecules.StubBondsMembers | src/main/java/org/openscience/cdk/layout/RingTemplateExtractor.java:120-129 | The stub bonds are exactly the container bonds with one end, and only one, among the ring atoms. |
| Molecules.AddAtomIds | src/main/java/org/openscience/cdk/layout/RingTemplateExtractor.java:126-127 | Adding an atom adds exactly its identity, keeps the earlier atoms in front, and adds nothing else. |
| Molecules.RingWithStubsBonds | src/main/java/org/openscience/cdk/layout/RingTemplateExtractor.java:116-129 | The ring-with-stubs bonds are the ring's bonds, then the stub bonds in container order. A bond is there exactly when it is a ring bond or a stub bond. |
| Molecules.RingWithStubsAtoms | src/main/java/org/openscience/cdk/layout/RingTemplateExtractor.java:116-129 | The ring-with-stubs atoms start with the ring's atoms. They are container or ring atoms, and their identities are exactly the ring atoms plus both ends of every stub bond. The title is the molecule's. |
| Molecules.WholeRingHasNoStubs | src/main/java/org/openscience/cdk/layout/RingTemplateExtractor.java:105-129 | When the ring system holds every atom of the molecule, no bond is a stub, and the ring-with-stubs graph is the ring system under the molecule's title. |
| Corpus.Put | src/main/java/org/openscience/cdk/layout/RingTemplateExtractor.java:142 | A put adds its key and one more entry under it, and leaves every other key's entries alone (a null key included). |
| Corpus.PutIfAbsent | src/main/java/org/openscience/cdk/layout/RingTemplateExtractor.java:160-161 | A put guarded by `containsKey` changes nothing if the key is there; otherwise the key gets exactly that one entry. |
| Corpus.PutNonEmpty | src/main/java/org/openscience/cdk/layout/RingTemplateExtractor.java:142 | After a put, every key still has at least one entry. |
| Corpus.PutIfAbsentSingle | src/main/java/org/openscience/cdk/layout/RingTemplateExtractor.java:160-161 | Guarded puts keep every key of the tier at exactly one entry. |
| Corpus.ThreePuts | src/main/java/org/openscience/cdk/layout/RingTemplateExtractor.java:131-133 | One put under k1 and two puts of one graph under k2 add both keys. The entries gain exactly [v1] under k1 and [v2, v2] under k2. |
| Corpus.InsertByCountPermutes | src/main/java/org/openscience/cdk/layout/RingTemplateExtractor.java:70-74 | Inserting a key into the sorted list keeps every key and adds just that one. |
| Corpus.InsertByCountSorted | src/main/java/org/openscience/cdk/layout/RingTemplateExtractor.java:70-74 | Inserting into a list in non-increasing count order keeps that order. |
| Corpus.SortByCountSorted | src/main/java/org/openscience/cdk/layout/RingTemplateExtractor.java:66-74 | The sort by `o2.size - o1.size` gives a permutation of the key list, in non-increasing entry-count order. |
| Corpus.FrequentMembers | src/main/java/org/openscience/cdk/layout/RingTemplateExtractor.java:79-80 | The keys kept are exactly the listed keys with at least two entries. |
| Corpus.FrequentOrdered | src/main/java/org/openscience/cdk/layout/RingTemplateExtractor.java:76-90 | Skipping rare keys keeps the non-increasing order. |
| Corpus.FrequentDistinct | src/main/java/org/openscience/cdk/layout/RingTemplateExtractor.java:76-90 | Skipping rare keys keeps the keys distinct. |
| Corpus.ExportedKeysSelection | src/main/java/org/openscience/cdk/layout/RingTemplateExtractor.java:66-90 | For any iteration order of the library's keys, exactly the keys with at least two entries are exported, each once, in non-increasing entry-count order. |
| Corpus.ThresholdIsTwo | src/main/java/org/openscience/cdk/layout/RingTemplateExtractor.java:79-80 | A key put once is not exported, and a key put twice is. |
| RingTemplates.RingTemplateExtractor.constructor | src/main/java/org/openscience/cdk/layout/RingTemplateExtractor.java:34-41 | A new extractor has three empty tiers. |
| RingTemplates.RingTemplateExtractor.ToCanSmi | src/main/java/org/openscience/cdk/layout/RingTemplateExtractor.java:174-180 | The key is null exactly when SMILES generation throws; otherwise it is the generated SMILES. |
| RingTemplates.RingTemplateExtractor.AfterRingSystemValid | src/main/java/org/openscience/cdk/layout/RingTemplateExtractor.java:131-172 | Adding a ring system keeps one graph per key in the anonymous and skeleton tiers, and at least one per key in the library. |
| RingTemplates.RingTemplateExtractor.AdmissionRule | src/main/java/org/openscience/cdk/layout/RingTemplateExtractor.java:51-60 | A molecule without exactly one ring system leaves every tier unchanged. A single fused system, or a single isolated ring, is added as the processed molecule's ring system. |
| RingTemplates.RingTemplateExtractor.RejectedRingSystem | src/main/java/org/openscience/cdk/layout/RingTemplateExtractor.java:97-101 | A ring system with any bond order above 2 or below 1 leaves all three tiers as they were. |
| RingTemplates.RingTemplateExtractor.AcceptedRingSystemLibrary | src/main/java/org/openscience/cdk/layout/RingTemplateExtractor.java:131-152 | An accepted ring system adds exactly three library entries: the ring-with-stubs skeleton under its key, then the ring system's skeleton twice under its key. No other key changes. |
| RingTemplates.RingTemplateExtractor.WholeMoleculeSeeding | src/main/java/org/openscience/cdk/layout/RingTemplateExtractor.java:105-110 | Only a ring system with the molecule's atom count seeds a tier: an all-carbon one the anonymous tier, any other the skeleton tier, and only under a new key. |
| RingTemplates.RingTemplateExtractor.WholeMoleculeLibrary | src/main/java/org/openscience/cdk/layout/RingTemplateExtractor.java:105-133 | When the ring system spans the molecule, all three library entries are the ring system's skeleton, under one key. |
| RingTemplates.RingTemplateExtractor.Add | src/main/java/org/openscience/cdk/layout/RingTemplateExtractor.java:43-61 | `add(container)` suppresses hydrogens and clears stereo, and updates the tiers as the admission rule says. It keeps the tier invariant. |
| RingTemplates.RingTemplateExtractor.AddRingSystem | src/main/java/org/openscience/cdk/layout/RingTemplateExtractor.java:95-134 | `add(ringSystem, container)` titles the ring system. It then either rejects it or seeds a tier and makes the three library puts, and keeps the tier invariant. |
| RingTemplates.RingTemplateExtractor.AtomSet | src/main/java/org/openscience/cdk/layout/RingTemplateExtractor.java:112-114 | The ring-atom set is exactly the identities of the ring system's atoms. |
| RingTemplates.RingTemplateExtractor.BuildRingWithStubs | src/main/java/org/openscience/cdk/layout/RingTemplateExtractor.java:116-129 | The loop builds the ring-with-stubs graph: the ring's bonds plus exactly the stub bonds, the ring's atoms plus the stub ends, and the molecule's title. |
| RingTemplates.RingTemplateExtractor.AddSkeletonToMainLib | src/main/java/org/openscience/cdk/layout/RingTemplateExtractor.java:136-143 | One more library entry, the derived skeleton, goes under its key, and the other tiers are untouched. |
| RingTemplates.RingTemplateExtractor.AddAnonymousToMainLib | src/main/java/org/openscience/cdk/layout/RingTemplateExtractor.java:145-152 | Exactly the same library update as addSkeletonToMainLib (the skeleton reduction). |
| RingTemplates.RingTemplateExtractor.AddSkeleton | src/main/java/org/openscience/cdk/layout/RingTemplateExtractor.java:154-162 | The derived skeleton goes into the skeleton tier only under a key not yet present; the other tiers are untouched. |
| RingTemplates.RingTemplateExtractor.AddAnonymous | src/main/java/org/openscience/cdk/layout/RingTemplateExtractor.java:164-172 | The derived anonymised graph goes into the anonymous tier only under a key not yet present; the other tiers are untouched. |
| RingTemplates.RingTemplateExtractor.ClearHydrogens | src/main/java/org/openscience/cdk/layout/RingTemplateExtractor.java:182-186 | Every atom's implicit hydrogen count becomes 0, and nothing else about the molecule changes. |
| RingTemplates.RingTemplateExtractor.CopyCoordinates | src/main/java/org/openscience/cdk/layout/RingTemplateExtractor.java:138-139 | Atom i of the reduction gets source atom i's point, for each source atom; nothing else changes. |
| RingTemplates.RingTemplateExtractor.AllCarbon | src/main/java/org/openscience/cdk/layout/RingTemplateExtractor.java:188-193 | True exactly when every atom's symbol is "C". |
| RingTemplates.RingTemplateExtractor.WriteSDfile | src/main/java/org/openscience/cdk/layout/RingTemplateExtractor.java:63-93 | Output is duplicate-free and in non-increasing entry-count order. It writes exactly the library keys with at least two entries, each one with the anonymous-tier graph, else the skeleton-tier graph, else the library graph `pick` chooses. |
| RingTemplates.RingTemplateExtractor.WriteFrequent | src/main/java/org/openscience/cdk/layout/RingTemplateExtractor.java:76-90 | The loop skips keys with fewer than two entries and writes each other key's representative, in list order. |
| RingTemplates.RingTemplateExtractor.Representative | src/main/java/org/openscience/cdk/layout/RingTemplateExtractor.java:83-89 | A key in the anonymous tier is written with that tier's only graph, else a key in the skeleton tier with that tier's only graph. Any other key is written with one of its own library graphs. |
| PeriodicTable.Blank | src/main/java/net/sf/cdk/tools/bodr/PeriodicTableElement.java:136-138 | An element with only its symbol set: every other field is null. |
| PeriodicTable.LayoutFrame | src/main/java/net/sf/cdk/tools/bodr/PeriodicTableElement.java:411-429 | The text starts with "PeriodicTableElement(", the symbol, ", AN:" and the atomic number, which `parseInt` reads back. It ends with ')'. |
| PeriodicTable.PeriodicTableElement.constructor | src/main/java/net/sf/cdk/tools/bodr/PeriodicTableElement.java:136-138 | A new element has the given symbol and every other field null. |
| PeriodicTable.PeriodicTableElement.WithAtomicNumber | src/main/java/net/sf/cdk/tools/bodr/PeriodicTableElement.java:145-148 | A new element has the given symbol and atomic number and every other field null. |
| PeriodicTable.PeriodicTableElement.ShallowCopy | src/main/java/net/sf/cdk/tools/bodr/PeriodicTableElement.java:371 | `super.clone()` copies every field. |
| PeriodicTable.PeriodicTableElement.SetSymbol | src/main/java/net/sf/cdk/tools/bodr/PeriodicTableElement.java:164-166 | Only the symbol changes, to the given value. |
| PeriodicTable.PeriodicTableElement.SetName | src/main/java/net/sf/cdk/tools/bodr/PeriodicTableElement.java:186-188 | Only the name changes, to the given value. |
| PeriodicTable.PeriodicTableElement.SetChemicalSerie | src/main/java/net/sf/cdk/tools/bodr/PeriodicTableElement.java:208-210 | Only the chemical series changes, to the given value. |
| PeriodicTable.PeriodicTableElement.SetPeriod | src/main/java/net/sf/cdk/tools/bodr/PeriodicTableElement.java:230-233 | Only the period changes, to the given value. |
| PeriodicTable.PeriodicTableElement.SetGroup | src/main/java/net/sf/cdk/tools/bodr/PeriodicTableElement.java:255-258 | Succeeds exactly for a group in 1..18, and then changes only the group. A null group fails on unboxing and any other value with the "Invalid group number" CDKException; a failure changes nothing. The group stays unset or in 1..18. |
| PeriodicTable.PeriodicTableElement.SetPhase | src/main/java/net/sf/cdk/tools/bodr/PeriodicTableElement.java:280-283 | Only the phase changes, to the given value. |
| PeriodicTable.PeriodicTableElement.SetCASid | src/main/java/net/sf/cdk/tools/bodr/PeriodicTableElement.java:304-307 | Only the CAS id changes, to the given value. |
| PeriodicTable.PeriodicTableElement.SetVdwRadius | src/main/java/net/sf/cdk/tools/bodr/PeriodicTableElement.java:323-325 | Only the van der Waals radius changes, to the given value. |
| PeriodicTable.PeriodicTableElement.SetCovalentRadius | src/main/java/net/sf/cdk/tools/bodr/PeriodicTableElement.java:341-343 | Only the covalent radius changes, to the given value. |
| PeriodicTable.PeriodicTableElement.SetPaulingEneg | src/main/java/net/sf/cdk/tools/bodr/PeriodicTableElement.java:359-361 | Only the Pauling electronegativity changes, to the given value. |
| PeriodicTable.PeriodicTableElement.SetAtomicNumber | src/main/java/net/sf/cdk/tools/bodr/PeriodicTableElement.java:403-405 | Only the atomic number changes, to the given value. |
| PeriodicTable.PeriodicTableElement.Clone | src/main/java/net/sf/cdk/tools/bodr/PeriodicTableElement.java:368-387 | The result is a new object whose every field equals the original's. This holds even when setGroup throws on a null group and the remaining setters are skipped. The result keeps a valid group. |
| PeriodicTable.PeriodicTableElement.ToString | src/main/java/net/sf/cdk/tools/bodr/PeriodicTableElement.java:411-429 | The text is the class name, the symbol, then every field after its tag in the fixed order, then ')'. Null fields print as "null". |
| ElementHandler.ScalarKindOf | src/main/java/net/sf/cdk/tools/bodr/ElementPTHandler.java:174-204 | A `scalar` dictRef selects a kind exactly when it is one of the nine recognised values, and never UNSET or LABEL_CAS. |
| ElementHandler.ScalarKindOfInjective | src/main/java/net/sf/cdk/tools/bodr/ElementPTHandler.java:174-204 | Distinct recognised dictRef values select distinct kinds. |
| ElementHandler.KindAfterUnrecognised | src/main/java/net/sf/cdk/tools/bodr/ElementPTHandler.java:163-207 | A start tag without a recognised dictRef leaves the kind unchanged. |
| ElementHandler.KindAfterLastRecognised | src/main/java/net/sf/cdk/tools/bodr/ElementPTHandler.java:163-207 | With recognised dictRefs, the last one decides the kind: LABEL_CAS for `label`, and the value's kind for `scalar`. |
| ElementHandler.LastId | src/main/java/net/sf/cdk/tools/bodr/ElementPTHandler.java:157-161 | The symbol taken is the value of an `id` attribute, if there is one; none when no attribute is named `id`. |
| ElementHandler.Assignment | src/main/java/net/sf/cdk/tools/bodr/ElementPTHandler.java:109-141 | UNSET and LABEL_CAS call no setter. Empty text calls no setter for period, group, the radii or electronegativity. |
| ElementHandler.UntrimmedText | src/main/java/net/sf/cdk/tools/bodr/ElementPTHandler.java:108-114 | For every text, the trim result is discarded. Name, chemical series and phase store the text with its blanks. A blank anywhere makes the Integer fields (atomic number, period, group) a caught parse error. The Double fields (radii, electronegativity) pass the raw text to `parseDouble`. |
| ElementHandler.GroupCommit | src/main/java/net/sf/cdk/tools/bodr/ElementPTHandler.java:123-146 | A parsed group outside 1..18 is a caught CDKException that leaves the element unchanged; a valid one is stored and nothing else changes. |
| ElementHandler.AppliedKeepsGroupInRange | src/main/java/net/sf/cdk/tools/bodr/ElementPTHandler.java:109-146 | Committing any value keeps the group unset or in 1..18. Only a group value touches the group, and the symbol never changes. |
| ElementHandler.ElementPTHandler.constructor | src/main/java/net/sf/cdk/tools/bodr/ElementPTHandler.java:73-74 | Every field starts at its Java default (null, or kind 0). |
| ElementHandler.ListLengthUnstarted | src/main/java/net/sf/cdk/tools/bodr/ElementPTHandler.java:93-96 | Without a startDocument event, each closed `elementType` tag adds one element to the list there was. |
| ElementHandler.ListLengthSinceStart | src/main/java/net/sf/cdk/tools/bodr/ElementPTHandler.java:87-96 | After the last startDocument event, the list length is the number of `elementType` tags closed since then, whatever the list held before. |
| ElementHandler.ElementPTHandler.Parse | src/main/java/net/sf/cdk/tools/bodr/ElementPTHandler.java:87-150 | The handler is driven through a whole event sequence. It fails only with a NullPointerException. Otherwise the list exists exactly when it existed before or a startDocument occurred, and its length is `ListLength` of the events. |
| ElementHandler.ElementPTHandler.GetElements | src/main/java/net/sf/cdk/tools/bodr/ElementPTHandler.java:81-83 | Returns the element list, which is null before startDocument. |
| ElementHandler.ElementPTHandler.StartDocument | src/main/java/net/sf/cdk/tools/bodr/ElementPTHandler.java:87-91 | The list becomes empty, the kind UNSET and the current element null; the text and dictRef are kept. |
| ElementHandler.ElementPTHandler.StartElement | src/main/java/net/sf/cdk/tools/bodr/ElementPTHandler.java:152-209 | The text and dictRef are cleared and the list is kept. An `elementType` tag with an `id` makes a new blank element for the last `id`; other tags keep the current element. The kind is what the dictRef scan selects. |
| ElementHandler.ElementPTHandler.Characters | src/main/java/net/sf/cdk/tools/bodr/ElementPTHandler.java:211-213 | The chunk goes at the end of the text (a null text prints as "null"), and nothing else changes. |
| ElementHandler.ElementPTHandler.EndElement | src/main/java/net/sf/cdk/tools/bodr/ElementPTHandler.java:93-150 | The only failure is a NullPointerException, which escapes and changes nothing; otherwise the text ends up cleared. Closing `elementType` appends the current element (a null list fails). Closing `label` sets the CAS id to the untrimmed text only under LABEL_CAS and keeps the kind. Closing `scalar` commits the text to the kind's field and resets the kind, failing on a null text or a setter call on a null element. Other tags change only the text. |
| ElementHandler.ElementPTHandler.Commit | src/main/java/net/sf/cdk/tools/bodr/ElementPTHandler.java:109-146 | The setter call changes the element exactly as the committed value says; an invalid group is caught. |
| ElementFactory.ElementPTFactory.constructor | src/main/java/net/sf/cdk/tools/bodr/ElementPTFactory.java:49 | The factory holds the given element list. |
| ElementFactory.ElementPTFactory.LookupFrom | src/main/java/net/sf/cdk/tools/bodr/ElementPTFactory.java:115-116 | The index found is the first whose symbol equals the query. None means no element matched. An element met earlier with a null symbol throws a NullPointerException. |
| ElementFactory.ElementPTFactory.Entry | src/main/java/net/sf/cdk/tools/bodr/ElementPTFactory.java:137-139 | Dereferencing the lookup result fails only with a NullPointerException; an unknown symbol is one. |
| ElementFactory.ElementPTFactory.GetSize | src/main/java/net/sf/cdk/tools/bodr/ElementPTFactory.java:94-96 | The size is the length of the element list. |
| ElementFactory.ElementPTFactory.GetElements | src/main/java/net/sf/cdk/tools/bodr/ElementPTFactory.java:104-106 | Returns the element list itself. |
| ElementFactory.ElementPTFactory.GetElement | src/main/java/net/sf/cdk/tools/bodr/ElementPTFactory.java:114-125 | Returns a fresh copy of the first element with that symbol, null when none matches, or a NullPointerException exactly when the lookup throws one. The list is not modified. |
| ElementFactory.ElementPTFactory.Configure | src/main/java/net/sf/cdk/tools/bodr/ElementPTFactory.java:136-150 | Copies symbol, atomic number, name, chemical series, period, phase, CAS id and electronegativity from the table entry. The group is copied only when the table's is non-null, the radii are never touched, and the same object is returned. An unknown symbol is a NullPointerException that changes nothing. |
| ElementFactory.ElementPTFactory.GetAtomicNumber | src/main/java/net/sf/cdk/tools/bodr/ElementPTFactory.java:158-161 | The table's atomic number for the element's symbol; an unknown symbol or a null value is a NullPointerException. |
| ElementFactory.ElementPTFactory.GetName | src/main/java/net/sf/cdk/tools/bodr/ElementPTFactory.java:169-172 | The table's name for the symbol (possibly null); an unknown symbol is a NullPointerException. |
| ElementFactory.ElementPTFactory.GetChemicalSerie | src/main/java/net/sf/cdk/tools/bodr/ElementPTFactory.java:180-183 | The table's chemical series for the symbol; an unknown symbol is a NullPointerException. |
| ElementFactory.ElementPTFactory.GetPeriod | src/main/java/net/sf/cdk/tools/bodr/ElementPTFactory.java:191-194 | The table's period, unboxed; an unknown symbol or a null period is a NullPointerException. |
| ElementFactory.ElementPTFactory.GetGroup | src/main/java/net/sf/cdk/tools/bodr/ElementPTFactory.java:202-205 | The table's group, unboxed; an unknown symbol or a null group is a NullPointerException. |
| ElementFactory.ElementPTFactory.GetPhase | src/main/java/net/sf/cdk/tools/bodr/ElementPTFactory.java:213-216 | The table's phase for the symbol; an unknown symbol is a NullPointerException. |
| ElementFactory.ElementPTFactory.GetCASid | src/main/java/net/sf/cdk/tools/bodr/ElementPTFactory.java:224-227 | The table's CAS id for the symbol; an unknown symbol is a NullPointerException. |
| ElementFactory.ElementPTFactory.GetVdwRadius | src/main/java/net/sf/cdk/tools/bodr/ElementPTFactory.java:235-238 | The table's van der Waals radius, unboxed; an unknown symbol or a null value is a NullPointerException. |
| ElementFactory.ElementPTFactory.GetCovalentRadius | src/main/java/net/sf/cdk/tools/bodr/ElementPTFactory.java:246-249 | The table's covalent radius, unboxed; an unknown symbol or a null value is a NullPointerException. |
| ElementFactory.ElementPTFactory.GetPaulingEneg | src/main/java/net/sf/cdk/tools/bodr/ElementPTFactory.java:256-259 | The table's Pauling electronegativity, unboxed; an unknown symbol or a null value is a NullPointerException. |
| BibTeXML.Query | src/main/java/net/sf/cdk/tools/bibtex/BibTeXMLEntry.java:53 | The query result holds exactly the children of that kind, and it is empty exactly when no child has that kind. |
| BibTeXML.QueryFirst | src/main/java/net/sf/cdk/tools/bibtex/BibTeXMLEntry.java:53-55 | The query keeps document order: its first result is the first child of the kind. |
| BibTeXML.GetString | src/main/java/net/sf/cdk/tools/bibtex/BibTeXMLEntry.java:203-206 | The value of the first field with the name, else the default. |
| BibTeXML.DispatchOrder | src/main/java/net/sf/cdk/tools/bibtex/BibTeXMLEntry.java:51-130 | If kind k is present and no earlier kind of article, inbook, phdthesis, book, misc, techreport is, the HTML is kind k's layout of the first child of kind k. |
| BibTeXML.UnknownKind | src/main/java/net/sf/cdk/tools/bibtex/BibTeXMLEntry.java:131 | With no child of a recognised kind, the HTML is "Unknown BibTeXML type: " and the id attribute ("null" when absent). |
| BibTeXML.ArticleDefaults | src/main/java/net/sf/cdk/tools/bibtex/BibTeXMLEntry.java:57-65 | An article without fields uses the defaults "?Authors?", "?Title?", "?Journal?", "19??", "?", "?-?" and no DOI. |
| BibTeXML.DoiOnlyAppends | src/main/java/net/sf/cdk/tools/bibtex/BibTeXMLEntry.java:143-159 | Article and inbook: without a DOI the text is the plain layout; with one, the dx.doi.org link is appended to it. |
| BibTeXML.UrlOnlyAppends | src/main/java/net/sf/cdk/tools/bibtex/BibTeXMLEntry.java:189-193 | Techreport: without a URL the text ends with the institution; with one, the link is appended to that text. |
| BibTeXML.OptionallyAppendDOI | src/main/java/net/sf/cdk/tools/bibtex/BibTeXMLEntry.java:147-151 | The buffer is unchanged for a null DOI; otherwise the link text is appended to it. |
| BibTeXML.FormatInBook | src/main/java/net/sf/cdk/tools/bibtex/BibTeXMLEntry.java:134-145 | authors, ", <i>", title, "</i>, ", series, ", Ch. ", chapter, ", <b>", year, "</b>, ", volume, ":", pages, ", Eds. ", editor, then the optional DOI link. |
| BibTeXML.FormatArticle | src/main/java/net/sf/cdk/tools/bibtex/BibTeXMLEntry.java:153-161 | authors, ", <i>", title, "</i>, ", journal, ", <b>", year, "</b>, ", volume, ":", pages, then the optional DOI link. |
| BibTeXML.FormatMisc | src/main/java/net/sf/cdk/tools/bibtex/BibTeXMLEntry.java:163-167 | Exactly authors, ", <i>", title, "</i>". |
| BibTeXML.FormatThesis | src/main/java/net/sf/cdk/tools/bibtex/BibTeXMLEntry.java:169-175 | authors, ", <i>", title, "</i>, ", "<b>", year, "</b>, ", institute. |
| BibTeXML.FormatBook | src/main/java/net/sf/cdk/tools/bibtex/BibTeXMLEntry.java:177-183 | authors, ", <i>", title, "</i>, ", "<b>", year, "</b>, ", publisher. |
| BibTeXML.FormatTechReport | src/main/java/net/sf/cdk/tools/bibtex/BibTeXMLEntry.java:185-195 | The thesis-like layout with the institution, then the URL link only for a non-null URL. |
| BibTeXML.ArticleToHTML | src/main/java/net/sf/cdk/tools/bibtex/BibTeXMLEntry.java:57-65 | An article child is formatted from its first fields of each name, with the article defaults. |
| BibTeXML.InBookToHTML | src/main/java/net/sf/cdk/tools/bibtex/BibTeXMLEntry.java:72-82 | An inbook child is formatted with the defaults "?chapter?", "?In Series?", "?Editors?" and the common ones. |
| BibTeXML.ThesisToHTML | src/main/java/net/sf/cdk/tools/bibtex/BibTeXMLEntry.java:89-94 | A phdthesis takes its institute from the field named "adress", default "?Institute?". |
| BibTeXML.BookToHTML | src/main/java/net/sf/cdk/tools/bibtex/BibTeXMLEntry.java:101-106 | A book is formatted with the default publisher "?Publisher?". |
| BibTeXML.MiscToHTML | src/main/java/net/sf/cdk/tools/bibtex/BibTeXMLEntry.java:113-116 | A misc child is formatted from its author and title. |
| BibTeXML.TechReportToHTML | src/main/java/net/sf/cdk/tools/bibtex/BibTeXMLEntry.java:123-129 | A techreport takes "institution" (default "?Institute?") and an optional "url". |
| BibTeXML.ToHTML | src/main/java/net/sf/cdk/tools/bibtex/BibTeXMLEntry.java:51-132 | toHTML's result is the dispatch described by DispatchOrder and UnknownKind. |

## Left out

- File and stream I/O is not modelled. This covers `SDFWriter`, the `File` to write, the classpath resource the factory reads, and `ElementPTReader`'s parser set-up. `WriteSDfile` returns the keys and graphs it would write.
- CDK algorithms are uninterpreted functions in `Toolkit`: ring search, SMILES generation, the skeleton and anonymise reductions, and hydrogen suppression. Only atom-count preservation and bond preservation are assumed of them.
- The order in which `HashMultimap` iterates its keys is a parameter of `WriteSDfile`, because it is not specified. Ties between keys with equal counts therefore keep that given order. The graph each key's hash set yields first is also a parameter (`pick`), for the same reason.
- The sort is modelled as a stable insertion sort on a sequence, not in place. The ordering and permutation properties are proved for it.
- Aliasing is not modelled. The ring system shares atom objects with its container, and the ring-with-stubs container shares atoms and bonds with both. The model uses values with atom identities. `AtomContainer.addAtom` of an atom already present is modelled as doing nothing.
- The caller's container is modified in place by hydrogen suppression and stereo clearing. The model returns the processed container instead.
- Floating point is opaque `Double` values that are only copied. This covers `Point2d` coordinates and the element radii and electronegativity. `Double.parseDouble` and `Double.toString` are parameters.
- ExtractTemplates' record filter is captured by the types, not a precondition. The filter skips query containers and atoms without a hydrogen count or point. Records are plain containers here, and atom hydrogen counts and points are non-null in the type.
- `WellFormed` is assumed of every record: each bond joins two atoms of its container. This is an assumption about the input file; `extractTemplates` does not check it.
- `ParseInt` accepts ASCII digits only. Java's `Integer.parseInt` also accepts other Unicode decimal digits.
- The factory's private constructor, the `getInstance` singleton and its `debug` flag are not modelled. The factory is built over a given list.
- Null entries in the factory's list are not modelled: the list holds non-null elements.
- ElementFactory.ElementPTFactory.Configure: requires every table element to have a valid group. So the table's `setGroup` call cannot throw; the list the handler reads only ever has groups set through `setGroup`.
- ElementFactory.ElementPTFactory.GetAtomicNumber: returns the atomic number as an integer; the Java method widens it to `double`.
- The getters of `PeriodicTableElement` are plain field reads. Each setter's contract states the field value that the matching getter returns.
- `CloneNotSupportedException` in `getElement` cannot happen, since the class is cloneable; it is not modelled.
- The handler's `currentElement` field is never used, and `uri`/`raw` parameters are ignored; neither is modelled.
- The second `"cdk:name"` test in `startElement` (ElementPTHandler.java:181) can never be reached; it adds nothing to the model.
- The discarded `trim()` results in `endElement` (ElementPTHandler.java:98 and 108) are modelled as having no effect, which is what they have. They still throw on a null text, and the model keeps that.
- Stack traces printed by `printStackTrace` are output only and are not modelled. This covers the caught exception in `PeriodicTableElement.clone` (PeriodicTableElement.java:383-385) and the caught parse and `CDKException` errors in `endElement` (ElementPTHandler.java:102-103, 142-146).
- `getElements` returns the list itself in both the handler (ElementPTHandler.java:81-83) and the factory (ElementPTFactory.java:104-106). The model returns the list's value, so a caller that mutates the returned list and the sharing of elements between handler and factory are not modelled.
- The XPath namespace context of `BibTeXMLEntry` and the `./b:` prefix are not modelled. Children are matched by local name.
- `getString` returns `Element.getValue()`, the element's whole text content, which is modelled as the field's value string.
- The `toHTML` loops return in their first iteration. They are modelled as an `if` on a non-empty query result.
- The initial capacity of `StringBuffer(128)` has no observable effect and is not modelled.
- `addAnonymousToMainLib` is modelled as written: it applies the skeleton reduction, not `anonymise`.
- SDfileToTemplateLibrary, BODRElementsEnumGenerator, ElementPTReader's parsing and the doclet taglets are not part of this model.
