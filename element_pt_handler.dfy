/**
 * ElementPTHandler: the SAX callbacks that read the CML element list. An
 * `elementType` tag opens an element (its `id` is the symbol), `label` and
 * `scalar` tags pick a field through their `dictRef`, character data
 * accumulates, and the closing tag commits the text to the chosen field.
 */
module ElementHandler {
  import opened Wrappers
  import opened JavaLang
  import opened PeriodicTable

  /** The field kinds, in the order of the source's integer codes 0..10. */
  datatype ScalarType =
    | ScalarUnset
    | LabelCas
    | ScalarName
    | ScalarAtomicNumber
    | ScalarChemicalSerie
    | ScalarPeriod
    | ScalarGroup
    | ScalarPhase
    | ScalarRadCov
    | ScalarRadVdw
    | ScalarPaulE

  /** One SAX attribute: its qualified name and value. */
  datatype Attribute = Attribute(qName: string, value: string)

  /** The scalar kind a `scalar` tag's dictRef value selects, if it is one of the nine recognised values. */
  function ScalarKindOf(value: string): (k: Option<ScalarType>)
    ensures k.Some? <==> value in {"cdk:name", "cdk:atomicNumber", "cdk:chemicalSerie", "cdk:period",
                                   "cdk:group", "cdk:phase", "cdk:radiiCova", "cdk:radiiVdw", "cdk:paulingE"}
    ensures k.Some? ==> k.value != ScalarUnset && k.value != LabelCas
  {
    if value == "cdk:name" then Some(ScalarName)
    else if value == "cdk:atomicNumber" then Some(ScalarAtomicNumber)
    else if value == "cdk:chemicalSerie" then Some(ScalarChemicalSerie)
    else if value == "cdk:period" then Some(ScalarPeriod)
    else if value == "cdk:group" then Some(ScalarGroup)
    else if value == "cdk:phase" then Some(ScalarPhase)
    else if value == "cdk:radiiCova" then Some(ScalarRadCov)
    else if value == "cdk:radiiVdw" then Some(ScalarRadVdw)
    else if value == "cdk:paulingE" then Some(ScalarPaulE)
    else None
  }

  /** Distinct recognised dictRef values select distinct kinds. */
  lemma ScalarKindOfInjective(v1: string, v2: string)
    requires ScalarKindOf(v1).Some? && ScalarKindOf(v1) == ScalarKindOf(v2)
    ensures v1 == v2
  {
  }

  /** The kind after one attribute of a `label` or `scalar` start tag. */
  function KindStep(local: string, att: Attribute, k: ScalarType): ScalarType {
    if att.qName != "dictRef" then k
    else if local == "label" then (if att.value == "cas:id" then LabelCas else k)
    else if local == "scalar" then (match ScalarKindOf(att.value) case Some(k') => k' case None => k)
    else k
  }

  /** The kind after a start tag's attributes, scanned in order: the last recognised dictRef wins. */
  function KindAfter(local: string, atts: seq<Attribute>, k: ScalarType): ScalarType {
    if atts == [] then k
    else KindStep(local, atts[|atts| - 1], KindAfter(local, atts[..|atts| - 1], k))
  }

  /** A dictRef is recognised when it selects a kind for this tag. */
  predicate Recognised(local: string, att: Attribute) {
    && att.qName == "dictRef"
    && ((local == "label" && att.value == "cas:id") || (local == "scalar" && ScalarKindOf(att.value).Some?))
  }

  /** Without a recognised dictRef the kind is left as it was (for any tag). */
  lemma {:induction false} KindAfterUnrecognised(local: string, atts: seq<Attribute>, k: ScalarType)
    requires forall i | 0 <= i < |atts| :: !Recognised(local, atts[i])
    ensures KindAfter(local, atts, k) == k
  {
    if atts != [] {
      KindAfterUnrecognised(local, atts[..|atts| - 1], k);
    }
  }

  /** With a recognised dictRef, the kind is the one the last recognised dictRef selects. */
  lemma {:induction false} KindAfterLastRecognised(local: string, atts: seq<Attribute>, k: ScalarType, i: nat)
    requires i < |atts| && Recognised(local, atts[i])
    requires forall j | i < j < |atts| :: !Recognised(local, atts[j])
    ensures KindAfter(local, atts, k) == KindStep(local, atts[i], k)
    ensures local == "label" ==> KindAfter(local, atts, k) == LabelCas
    ensures local == "scalar" ==> Some(KindAfter(local, atts, k)) == ScalarKindOf(atts[i].value)
  {
    if i == |atts| - 1 {
      assert KindStep(local, atts[i], KindAfter(local, atts[..i], k)) == KindStep(local, atts[i], k);
    } else {
      var init := atts[..|atts| - 1];
      assert init[i] == atts[i];
      KindAfterLastRecognised(local, init, k, i);
    }
  }

  /** The value of the last `id` attribute, if there is one. */
  function LastId(atts: seq<Attribute>): (r: Option<string>)
    ensures r.Some? ==> exists i | 0 <= i < |atts| :: atts[i] == Attribute("id", r.value)
    ensures r.None? ==> forall i | 0 <= i < |atts| :: atts[i].qName != "id"
  {
    if atts == [] then None
    else if atts[|atts| - 1].qName == "id" then Some(atts[|atts| - 1].value)
    else
      var r := LastId(atts[..|atts| - 1]);
      assert forall i | 0 <= i < |atts| - 1 :: atts[..|atts| - 1][i] == atts[i];
      r
  }

  // ---------------------------------------------------------------------------
  // Committing a scalar's text

  /** A value a closing `scalar` tag hands to one of the element's setters. */
  datatype FieldValue =
    | NameValue(s: string)
    | AtomicNumberValue(n: Int32)
    | ChemicalSerieValue(s: string)
    | PeriodValue(n: Int32)
    | GroupValue(n: Int32)
    | PhaseValue(s: string)
    | CovalentRadiusValue(x: Double)
    | VdwRadiusValue(x: Double)
    | PaulingEnegValue(x: Double)

  /**
   * The setter call a closing `scalar` tag makes, if any: the text goes to the
   * kind's field as is (not trimmed); period, group, radii and electronegativity
   * skip empty text; a number that does not parse is a caught
   * NumberFormatException and no setter is called.
   */
  function Assignment(kind: ScalarType, text: string, parseDouble: string -> Option<Double>): (r: Option<FieldValue>)
    ensures kind == ScalarUnset || kind == LabelCas ==> r.None?
    ensures text == [] && kind !in {ScalarName, ScalarChemicalSerie, ScalarPhase} ==> r.None?
  {
    match kind
    case ScalarName => Some(NameValue(text))
    case ScalarAtomicNumber => (match ParseInt(text) case Some(n) => Some(AtomicNumberValue(n)) case None => None)
    case ScalarChemicalSerie => Some(ChemicalSerieValue(text))
    case ScalarPeriod =>
      if text == [] then None else (match ParseInt(text) case Some(n) => Some(PeriodValue(n)) case None => None)
    case ScalarGroup =>
      if text == [] then None else (match ParseInt(text) case Some(n) => Some(GroupValue(n)) case None => None)
    case ScalarPhase => Some(PhaseValue(text))
    case ScalarRadCov =>
      if text == [] then None else (match parseDouble(text) case Some(x) => Some(CovalentRadiusValue(x)) case None => None)
    case ScalarRadVdw =>
      if text == [] then None else (match parseDouble(text) case Some(x) => Some(VdwRadiusValue(x)) case None => None)
    case ScalarPaulE =>
      if text == [] then None else (match parseDouble(text) case Some(x) => Some(PaulingEnegValue(x)) case None => None)
    case _ => None
  }

  /** An element's fields after the setter call; an invalid group is a caught CDKException. */
  function Applied(d: ElementData, v: FieldValue): ElementData {
    match v
    case NameValue(s) => d.(name := Some(s))
    case AtomicNumberValue(n) => d.(atomicNumber := Some(n))
    case ChemicalSerieValue(s) => d.(chemicalSerie := Some(s))
    case PeriodValue(n) => d.(period := Some(n))
    case GroupValue(n) => if ValidGroup(n) then d.(group := Some(n)) else d
    case PhaseValue(s) => d.(phase := Some(s))
    case CovalentRadiusValue(x) => d.(covalentRadius := Some(x))
    case VdwRadiusValue(x) => d.(vdwRadius := Some(x))
    case PaulingEnegValue(x) => d.(paulingEneg := Some(x))
  }

  /**
   * A closing `scalar` tag hands the raw accumulated text on: names, series and
   * phases keep their blanks, an Integer field with a blank anywhere in its text
   * is a caught NumberFormatException, and a Double field's non-empty text goes
   * to Double.parseDouble as it is.
   */
  lemma UntrimmedText(text: string, parseDouble: string -> Option<Double>)
    ensures Assignment(ScalarName, text, parseDouble) == Some(NameValue(text))
    ensures Assignment(ScalarChemicalSerie, text, parseDouble) == Some(ChemicalSerieValue(text))
    ensures Assignment(ScalarPhase, text, parseDouble) == Some(PhaseValue(text))
    ensures (exists i | 0 <= i < |text| :: text[i] == ' ') ==>
      && Assignment(ScalarAtomicNumber, text, parseDouble) == None
      && Assignment(ScalarPeriod, text, parseDouble) == None
      && Assignment(ScalarGroup, text, parseDouble) == None
    ensures text != [] ==>
      && (Assignment(ScalarRadCov, text, parseDouble).Some? <==> parseDouble(text).Some?)
      && (Assignment(ScalarRadVdw, text, parseDouble).Some? <==> parseDouble(text).Some?)
      && (Assignment(ScalarPaulE, text, parseDouble).Some? <==> parseDouble(text).Some?)
  {
  }

  /** A group outside 1..18 leaves the element as it was; a valid one is stored and nothing else changes. */
  lemma GroupCommit(d: ElementData, n: Int32)
    ensures !ValidGroup(n) ==> Applied(d, GroupValue(n)) == d
    ensures ValidGroup(n) ==> Applied(d, GroupValue(n)) == d.(group := Some(n))
    ensures GroupInRange(d.group) ==> GroupInRange(Applied(d, GroupValue(n)).group)
  {
  }

  /** Committing a value never makes an element's group invalid. */
  lemma AppliedKeepsGroupInRange(d: ElementData, v: FieldValue)
    requires GroupInRange(d.group)
    ensures GroupInRange(Applied(d, v).group)
    ensures !v.GroupValue? ==> Applied(d, v).group == d.group
    ensures Applied(d, v).symbol == d.symbol
  {
  }

  // ---------------------------------------------------------------------------
  // A document as a sequence of SAX events

  /** The SAX callbacks the parser makes, in document order. */
  datatype Event =
    | StartDocumentEvent
    | StartElementEvent(local: string, atts: seq<Attribute>)
    | CharactersEvent(chars: seq<char>)
    | EndElementEvent(local: string)

  predicate IsStart(e: Event) {
    e.StartDocumentEvent?
  }

  predicate ClosesElement(e: Event) {
    e.EndElementEvent? && e.local == "elementType"
  }

  /** The number of closed `elementType` tags among the events. */
  function Closes(events: seq<Event>): nat {
    if events == [] then 0
    else Closes(events[..|events| - 1]) + (if ClosesElement(events[|events| - 1]) then 1 else 0)
  }

  /**
   * The list length after the events, starting from a list of n elements:
   * startDocument empties the list and each closed `elementType` adds one.
   */
  function ListLength(events: seq<Event>, n: nat): nat {
    if events == [] then n
    else
      var e := events[|events| - 1];
      if IsStart(e) then 0
      else ListLength(events[..|events| - 1], n) + (if ClosesElement(e) then 1 else 0)
  }

  /** Whether some event is a startDocument. */
  predicate Started(events: seq<Event>) {
    exists i | 0 <= i < |events| :: IsStart(events[i])
  }

  /** Without a startDocument, every closed `elementType` adds one element to the list there was. */
  lemma {:induction false} ListLengthUnstarted(events: seq<Event>, n: nat)
    requires !Started(events)
    ensures ListLength(events, n) == n + Closes(events)
  {
    if events != [] {
      var init := events[..|events| - 1];
      assert !Started(init) by {
        forall i | 0 <= i < |init| ensures !IsStart(init[i]) {
          assert init[i] == events[i];
        }
      }
      ListLengthUnstarted(init, n);
    }
  }

  /**
   * After the last startDocument (at index j), the list holds one element
   * per `elementType` tag closed since, whatever it held before.
   */
  lemma {:induction false} ListLengthSinceStart(events: seq<Event>, n: nat, j: nat)
    requires j < |events| && IsStart(events[j])
    requires forall i | j < i < |events| :: !IsStart(events[i])
    ensures ListLength(events, n) == Closes(events[j + 1..])
  {
    if j == |events| - 1 {
      assert events[j + 1..] == [];
    } else {
      var init := events[..|events| - 1];
      assert init[j] == events[j];
      ListLengthSinceStart(init, n, j);
      assert init[j + 1..] == events[j + 1..|events| - 1];
      assert events[j + 1..][..|events[j + 1..]| - 1] == init[j + 1..];
    }
  }

  class ElementPTHandler {
    var scalarType: ScalarType
    var currentChars: Option<string>
    /** Null until startDocument. */
    var elements: Option<seq<PeriodicTableElement?>>
    var elementType: PeriodicTableElement?
    var dictRef: Option<string>
    /** Double.parseDouble; None is its NumberFormatException. */
    const parseDouble: string -> Option<Double>

    /** ElementPTHandler(): every field at its Java default. */
    constructor (parseDouble: string -> Option<Double>)
      ensures this.parseDouble == parseDouble
      ensures scalarType == ScalarUnset && currentChars == None && elements == None
      ensures elementType == null && dictRef == None
    {
      this.parseDouble := parseDouble;
      scalarType := ScalarUnset;
      currentChars := None;
      elements := None;
      elementType := null;
      dictRef := None;
    }

    /** getElements: the list read so far, null before startDocument. */
    method GetElements() returns (r: Option<seq<PeriodicTableElement?>>)
      ensures r == elements
    {
      r := elements;
    }

    /** startDocument: an empty list, no kind, no current element. */
    method StartDocument()
      modifies this
      ensures elements == Some([]) && scalarType == ScalarUnset && elementType == null
      ensures currentChars == old(currentChars) && dictRef == old(dictRef)
    {
      elements := Some([]);
      scalarType := ScalarUnset;
      elementType := null;
    }

    /**
     * startElement: clears the text and dictRef; an `elementType` tag makes a
     * new element for every `id` attribute (the last one stays current); a
     * `label` or `scalar` tag sets the kind from its dictRef attributes.
     */
    method StartElement(local: string, atts: seq<Attribute>)
      modifies this
      ensures currentChars == Some("") && dictRef == Some("")
      ensures elements == old(elements)
      ensures scalarType == KindAfter(local, atts, old(scalarType))
      ensures local != "elementType" || LastId(atts).None? ==> elementType == old(elementType)
      ensures local == "elementType" && LastId(atts).Some? ==>
        elementType != null && fresh(elementType) && elementType.Data() == Blank(LastId(atts)) && elementType.Valid()
    {
      currentChars := Some("");
      dictRef := Some("");
      if local == "elementType" {
        for i := 0 to |atts|
          invariant currentChars == Some("") && dictRef == Some("")
          invariant scalarType == old(scalarType) && elements == old(elements)
          invariant LastId(atts[..i]).None? ==> elementType == old(elementType)
          invariant LastId(atts[..i]).Some? ==>
            elementType != null && fresh(elementType) && elementType.Data() == Blank(LastId(atts[..i])) && elementType.Valid()
        {
          assert atts[..i + 1][..i] == atts[..i];
          if atts[i].qName == "id" {
            elementType := new PeriodicTableElement(Some(atts[i].value));
          }
        }
        assert atts[..|atts|] == atts;
        KindAfterUnrecognised(local, atts, old(scalarType));
      } else if local == "label" {
        for i := 0 to |atts|
          invariant currentChars == Some("") && dictRef == Some("")
          invariant scalarType == KindAfter(local, atts[..i], old(scalarType))
          invariant elements == old(elements) && elementType == old(elementType)
        {
          assert atts[..i + 1][..i] == atts[..i];
          if atts[i].qName == "dictRef" {
            if atts[i].value == "cas:id" {
              scalarType := LabelCas;
            }
          }
        }
        assert atts[..|atts|] == atts;
      } else if local == "scalar" {
        for i := 0 to |atts|
          invariant currentChars == Some("") && dictRef == Some("")
          invariant scalarType == KindAfter(local, atts[..i], old(scalarType))
          invariant elements == old(elements) && elementType == old(elementType)
        {
          assert atts[..i + 1][..i] == atts[..i];
          if atts[i].qName == "dictRef" {
            var kind := ScalarKindOf(atts[i].value);
            if kind.Some? {
              scalarType := kind.value;
            }
          }
        }
        assert atts[..|atts|] == atts;
      } else {
        KindAfterUnrecognised(local, atts, old(scalarType));
      }
    }

    /** characters: the chunk chars[start..start + length] goes at the end of the text (a null text prints as "null"). */
    method Characters(chars: seq<char>, start: nat, length: nat)
      requires start + length <= |chars|
      modifies this
      ensures currentChars == Some(JStr(old(currentChars)) + chars[start..start + length])
      ensures elements == old(elements) && scalarType == old(scalarType)
      ensures elementType == old(elementType) && dictRef == old(dictRef)
    {
      currentChars := Some(JStr(currentChars) + chars[start..start + length]);
    }

    /**
     * endElement: closing `elementType` appends the current element; closing
     * `label` stores the text as CAS id under LABEL_CAS; closing `scalar`
     * commits the text to the kind's field and resets the kind. The text is then
     * cleared. A null list, text or element that is dereferenced throws a
     * NullPointerException, which escapes and leaves everything unchanged.
     */
    method EndElement(local: string) returns (outcome: Outcome<JavaException>)
      modifies this, elementType
      ensures elementType == old(elementType) && dictRef == old(dictRef)
      ensures outcome.Fail? ==> outcome.error == NullPointerException
      ensures outcome.Fail? ==>
        && elements == old(elements) && scalarType == old(scalarType) && currentChars == old(currentChars)
        && (elementType != null ==> elementType.Data() == old(elementType.Data()))
      ensures outcome.Pass? ==> currentChars == Some("")
      // elementType
      ensures local == "elementType" ==>
        && (outcome.Fail? <==> old(elements).None?)
        && (outcome.Pass? ==> elements == Some(old(elements).value + [old(elementType)]))
        && scalarType == old(scalarType)
        && (elementType != null ==> elementType.Data() == old(elementType.Data()))
      // label
      ensures local == "label" ==>
        && elements == old(elements) && scalarType == old(scalarType)
        && (outcome.Fail? <==> old(currentChars).None? || (old(scalarType) == LabelCas && elementType == null))
        && (outcome.Pass? && old(scalarType) == LabelCas ==>
              elementType.Data() == old(elementType.Data()).(casId := old(currentChars)))
        && (outcome.Pass? && old(scalarType) != LabelCas && elementType != null ==>
              elementType.Data() == old(elementType.Data()))
      // scalar
      ensures local == "scalar" ==>
        && elements == old(elements)
        && (outcome.Fail? <==>
              old(currentChars).None?
              || (Assignment(old(scalarType), old(currentChars).value, parseDouble).Some? && elementType == null))
        && (outcome.Pass? ==> scalarType == ScalarUnset)
        && (outcome.Pass? && elementType != null ==>
              var v := Assignment(old(scalarType), old(currentChars).value, parseDouble);
              elementType.Data() == if v.Some? then Applied(old(elementType.Data()), v.value) else old(elementType.Data()))
      // any other tag
      ensures local !in {"elementType", "label", "scalar"} ==>
        && outcome.Pass? && elements == old(elements) && scalarType == old(scalarType)
        && (elementType != null ==> elementType.Data() == old(elementType.Data()))
    {
      if local == "elementType" {
        if elements.None? {
          return Fail(NullPointerException);
        }
        elements := Some(elements.value + [elementType]);
      } else if local == "label" {
        if currentChars.None? {
          return Fail(NullPointerException);
        }
        if scalarType == LabelCas {
          if elementType == null {
            return Fail(NullPointerException);
          }
          elementType.SetCASid(currentChars);
        }
      } else if local == "scalar" {
        if currentChars.None? {
          return Fail(NullPointerException);
        }
        var text := currentChars.value;
        var value := Assignment(scalarType, text, parseDouble);
        if value.Some? {
          if elementType == null {
            return Fail(NullPointerException);
          }
          Commit(elementType, value.value);
        }
        scalarType := ScalarUnset;
      }
      currentChars := Some("");
      return Pass;
    }

    /**
     * The handler driven through a document: each event calls its callback in
     * order, and an exception a callback throws ends the parse. When no
     * callback throws, the list has one element per `elementType` tag closed
     * since the last startDocument (or, without one, that many more than it had).
     */
    method Parse(events: seq<Event>) returns (outcome: Outcome<JavaException>)
      modifies this, elementType
      ensures outcome.Fail? ==> outcome.error == NullPointerException
      ensures outcome.Pass? ==>
        && (elements.Some? <==> old(elements).Some? || Started(events))
        && (elements.Some? ==>
              |elements.value| == ListLength(events, if old(elements).Some? then |old(elements).value| else 0))
    {
      ghost var n := if elements.Some? then |elements.value| else 0;
      for i := 0 to |events|
        invariant elementType == null || elementType == old(elementType) || fresh(elementType)
        invariant elements.Some? <==> old(elements).Some? || Started(events[..i])
        invariant elements.Some? ==> |elements.value| == ListLength(events[..i], n)
      {
        assert events[..i + 1][..i] == events[..i];
        assert Started(events[..i]) ==> Started(events[..i + 1]) by {
          if Started(events[..i]) {
            var j :| 0 <= j < i && IsStart(events[..i][j]);
            assert events[..i + 1][j] == events[..i][j];
          }
        }
        assert IsStart(events[i]) ==> Started(events[..i + 1]) by {
          assert events[..i + 1][i] == events[i];
        }
        assert Started(events[..i + 1]) && !IsStart(events[i]) ==> Started(events[..i]) by {
          if Started(events[..i + 1]) && !IsStart(events[i]) {
            var j :| 0 <= j < i + 1 && IsStart(events[..i + 1][j]);
            assert events[..i][j] == events[..i + 1][j];
          }
        }
        match events[i]
        case StartDocumentEvent =>
          StartDocument();
        case StartElementEvent(local, atts) =>
          StartElement(local, atts);
        case CharactersEvent(chars) =>
          Characters(chars, 0, |chars|);
        case EndElementEvent(local) =>
          var result := EndElement(local);
          if result.Fail? {
            return result;
          }
      }
      assert events[..|events|] == events;
      return Pass;
    }

    /** The setter call for a committed value; setGroup's CDKException is caught here. */
    static method Commit(e: PeriodicTableElement, v: FieldValue)
      modifies e
      ensures e.Data() == Applied(old(e.Data()), v)
    {
      match v
      case NameValue(s) => e.SetName(Some(s));
      case AtomicNumberValue(n) => e.SetAtomicNumber(Some(n));
      case ChemicalSerieValue(s) => e.SetChemicalSerie(Some(s));
      case PeriodValue(n) => e.SetPeriod(Some(n));
      case GroupValue(n) =>
        var _ := e.SetGroup(Some(n));
      case PhaseValue(s) => e.SetPhase(Some(s));
      case CovalentRadiusValue(x) => e.SetCovalentRadius(Some(x));
      case VdwRadiusValue(x) => e.SetVdwRadius(Some(x));
      case PaulingEnegValue(x) => e.SetPaulingEneg(Some(x));
    }
  }
}
