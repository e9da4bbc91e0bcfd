/**
 * PeriodicTableElement: a mutable record of one element's periodic-table
 * data. Every field is a nullable reference; only the group has a
 * validating setter.
 */
module PeriodicTable {
  import opened Wrappers
  import opened JavaLang

  /** The fields of an element, as one value. */
  datatype ElementData = ElementData(
    symbol: Option<string>,
    atomicNumber: Option<Int32>,
    name: Option<string>,
    chemicalSerie: Option<string>,
    period: Option<Int32>,
    group: Option<Int32>,
    phase: Option<string>,
    casId: Option<string>,
    vdwRadius: Option<Double>,
    covalentRadius: Option<Double>,
    paulingEneg: Option<Double>)

  /** An element with only its symbol set: every other field is null (unset). */
  function Blank(symbol: Option<string>): (d: ElementData)
    ensures d.symbol == symbol
    ensures d.atomicNumber.None? && d.name.None? && d.chemicalSerie.None? && d.period.None?
    ensures d.group.None? && d.phase.None? && d.casId.None?
    ensures d.vdwRadius.None? && d.covalentRadius.None? && d.paulingEneg.None?
  {
    ElementData(symbol, None, None, None, None, None, None, None, None, None, None)
  }

  /** The IUPAC group numbers setGroup accepts. */
  predicate ValidGroup(g: Int32) {
    1 <= g <= 18
  }

  /** A group that is unset or a valid IUPAC group number. */
  predicate GroupInRange(g: Option<Int32>) {
    g.None? || ValidGroup(g.value)
  }

  const INVALID_GROUP := "Invalid group number specified. Must be between 1 and 18"

  /** The tags toString writes before each field, and the closing parenthesis. */
  const TAG_OPEN := "PeriodicTableElement("
  const TAG_AN := ", AN:"
  const TAG_N := ", N:"
  const TAG_CS := ", CS:"
  const TAG_P := ", P:"
  const TAG_G := ", G:"
  const TAG_PH := ", Ph:"
  const TAG_CAS := ", CAS:"
  const TAG_VDW := ", VdW:"
  const TAG_COV := ", Cov:"
  const TAG_ENEG := ", Eneg:"
  const TAG_CLOSE := ")"

  /** The text toString builds: the symbol, then each field after its tag, in a fixed order. */
  function Layout(d: ElementData, formatDouble: Double -> string): string {
    TAG_OPEN + JStr(d.symbol)
    + TAG_AN + JInt(d.atomicNumber)
    + TAG_N + JStr(d.name)
    + TAG_CS + JStr(d.chemicalSerie)
    + TAG_P + JInt(d.period)
    + TAG_G + JInt(d.group)
    + TAG_PH + JStr(d.phase)
    + TAG_CAS + JStr(d.casId)
    + TAG_VDW + JDouble(formatDouble, d.vdwRadius)
    + TAG_COV + JDouble(formatDouble, d.covalentRadius)
    + TAG_ENEG + JDouble(formatDouble, d.paulingEneg)
    + TAG_CLOSE
  }

  /**
   * The layout opens with the class name, the symbol and the atomic number,
   * which reads back with Integer.parseInt, and closes with ')'.
   */
  lemma LayoutFrame(d: ElementData, formatDouble: Double -> string)
    ensures TAG_OPEN + JStr(d.symbol) + TAG_AN + JInt(d.atomicNumber) <= Layout(d, formatDouble)
    ensures var s := Layout(d, formatDouble); |s| > 0 && s[|s| - 1] == ')'
    ensures d.atomicNumber.Some? ==> ParseInt(JInt(d.atomicNumber)) == d.atomicNumber
  {
    var head := TAG_OPEN + JStr(d.symbol) + TAG_AN + JInt(d.atomicNumber);
    var s := head;
    PrefixExtend(head, s, TAG_N); s := s + TAG_N;
    PrefixExtend(head, s, JStr(d.name)); s := s + JStr(d.name);
    PrefixExtend(head, s, TAG_CS); s := s + TAG_CS;
    PrefixExtend(head, s, JStr(d.chemicalSerie)); s := s + JStr(d.chemicalSerie);
    PrefixExtend(head, s, TAG_P); s := s + TAG_P;
    PrefixExtend(head, s, JInt(d.period)); s := s + JInt(d.period);
    PrefixExtend(head, s, TAG_G); s := s + TAG_G;
    PrefixExtend(head, s, JInt(d.group)); s := s + JInt(d.group);
    PrefixExtend(head, s, TAG_PH); s := s + TAG_PH;
    PrefixExtend(head, s, JStr(d.phase)); s := s + JStr(d.phase);
    PrefixExtend(head, s, TAG_CAS); s := s + TAG_CAS;
    PrefixExtend(head, s, JStr(d.casId)); s := s + JStr(d.casId);
    PrefixExtend(head, s, TAG_VDW); s := s + TAG_VDW;
    PrefixExtend(head, s, JDouble(formatDouble, d.vdwRadius)); s := s + JDouble(formatDouble, d.vdwRadius);
    PrefixExtend(head, s, TAG_COV); s := s + TAG_COV;
    PrefixExtend(head, s, JDouble(formatDouble, d.covalentRadius)); s := s + JDouble(formatDouble, d.covalentRadius);
    PrefixExtend(head, s, TAG_ENEG); s := s + TAG_ENEG;
    PrefixExtend(head, s, JDouble(formatDouble, d.paulingEneg)); s := s + JDouble(formatDouble, d.paulingEneg);
    PrefixExtend(head, s, TAG_CLOSE); s := s + TAG_CLOSE;
    assert s == Layout(d, formatDouble);
    if d.atomicNumber.Some? {
      IntRoundTrip(d.atomicNumber.value);
    }
  }

  /** A prefix of b is a prefix of anything b is extended to. */
  lemma PrefixExtend(a: string, b: string, c: string)
    requires a <= b
    ensures a <= b + c
  {
    assert (b + c)[..|a|] == b[..|a|];
  }

  class PeriodicTableElement {
    var symbol: Option<string>
    var atomicNumber: Option<Int32>
    var name: Option<string>
    var chemicalSerie: Option<string>
    var period: Option<Int32>
    var group: Option<Int32>
    var phase: Option<string>
    var casId: Option<string>
    var vdwRadius: Option<Double>
    var covalentRadius: Option<Double>
    var paulingEneg: Option<Double>

    /** All fields, as one value. */
    function Data(): ElementData
      reads this
    {
      ElementData(symbol, atomicNumber, name, chemicalSerie, period, group, phase, casId,
                  vdwRadius, covalentRadius, paulingEneg)
    }

    /** The group was only ever set through setGroup, so it is unset or in 1..18. */
    ghost predicate Valid()
      reads this
    {
      GroupInRange(group)
    }

    /** PeriodicTableElement(symbol). */
    constructor (symbol: Option<string>)
      ensures Data() == Blank(symbol) && Valid()
    {
      this.symbol := symbol;
      atomicNumber, name, chemicalSerie, period, group, phase, casId := None, None, None, None, None, None, None;
      vdwRadius, covalentRadius, paulingEneg := None, None, None;
    }

    /** PeriodicTableElement(symbol, atomicNumber). */
    constructor WithAtomicNumber(symbol: Option<string>, atomicNumber: Option<Int32>)
      ensures Data() == Blank(symbol).(atomicNumber := atomicNumber) && Valid()
    {
      this.symbol := symbol;
      this.atomicNumber := atomicNumber;
      name, chemicalSerie, period, group, phase, casId := None, None, None, None, None, None;
      vdwRadius, covalentRadius, paulingEneg := None, None, None;
    }

    /** Object.clone's field-for-field shallow copy. */
    constructor ShallowCopy(d: ElementData)
      ensures Data() == d
    {
      symbol, atomicNumber, name, chemicalSerie, period, group := d.symbol, d.atomicNumber, d.name, d.chemicalSerie, d.period, d.group;
      phase, casId, vdwRadius, covalentRadius, paulingEneg := d.phase, d.casId, d.vdwRadius, d.covalentRadius, d.paulingEneg;
    }

    method SetSymbol(symbol: Option<string>)
      modifies this
      ensures Data() == old(Data()).(symbol := symbol)
    {
      this.symbol := symbol;
    }

    method SetName(name: Option<string>)
      modifies this
      ensures Data() == old(Data()).(name := name)
    {
      this.name := name;
    }

    method SetChemicalSerie(chemicalSerie: Option<string>)
      modifies this
      ensures Data() == old(Data()).(chemicalSerie := chemicalSerie)
    {
      this.chemicalSerie := chemicalSerie;
    }

    method SetPeriod(period: Option<Int32>)
      modifies this
      ensures Data() == old(Data()).(period := period)
    {
      this.period := period;
    }

    /**
     * setGroup: stores a group in 1..18. A null group fails on unboxing; any
     * other value is refused with a CDKException. A failure changes nothing.
     */
    method SetGroup(group: Option<Int32>) returns (outcome: Outcome<JavaException>)
      modifies this
      ensures outcome.Pass? <==> group.Some? && ValidGroup(group.value)
      ensures outcome.Pass? ==> Data() == old(Data()).(group := group)
      ensures outcome.Fail? ==> Data() == old(Data())
      ensures group.None? ==> outcome == Fail(NullPointerException)
      ensures group.Some? && !ValidGroup(group.value) ==> outcome == Fail(CDKException(INVALID_GROUP))
      ensures old(Valid()) ==> Valid()
    {
      if group.None? {
        return Fail(NullPointerException);
      }
      if group.value < 1 || group.value > 18 {
        return Fail(CDKException(INVALID_GROUP));
      }
      this.group := group;
      return Pass;
    }

    method SetPhase(phase: Option<string>)
      modifies this
      ensures Data() == old(Data()).(phase := phase)
    {
      this.phase := phase;
    }

    method SetCASid(casId: Option<string>)
      modifies this
      ensures Data() == old(Data()).(casId := casId)
    {
      this.casId := casId;
    }

    method SetVdwRadius(vdwRadius: Option<Double>)
      modifies this
      ensures Data() == old(Data()).(vdwRadius := vdwRadius)
    {
      this.vdwRadius := vdwRadius;
    }

    method SetCovalentRadius(covalentRadius: Option<Double>)
      modifies this
      ensures Data() == old(Data()).(covalentRadius := covalentRadius)
    {
      this.covalentRadius := covalentRadius;
    }

    method SetPaulingEneg(paulingEneg: Option<Double>)
      modifies this
      ensures Data() == old(Data()).(paulingEneg := paulingEneg)
    {
      this.paulingEneg := paulingEneg;
    }

    method SetAtomicNumber(atomicNumber: Option<Int32>)
      modifies this
      ensures Data() == old(Data()).(atomicNumber := atomicNumber)
    {
      this.atomicNumber := atomicNumber;
    }

    /**
     * clone: a shallow copy, then every field set again through its setter. A
     * failing setGroup (a null group) skips the remaining setters, which the
     * shallow copy has already made equal.
     */
    method Clone() returns (c: PeriodicTableElement)
      ensures fresh(c)
      ensures c.Data() == Data()
      ensures Valid() ==> c.Valid()
    {
      c := new PeriodicTableElement.ShallowCopy(Data());
      c.SetSymbol(symbol);
      c.SetAtomicNumber(atomicNumber);
      c.SetChemicalSerie(chemicalSerie);
      c.SetCASid(casId);
      c.SetCovalentRadius(covalentRadius);
      var outcome := c.SetGroup(group);
      if outcome.Pass? {
        c.SetName(name);
        c.SetPaulingEneg(paulingEneg);
        c.SetPeriod(period);
        c.SetPhase(phase);
        c.SetVdwRadius(vdwRadius);
      }
    }

    /** toString, appending field by field to a buffer; `formatDouble` is Double.toString. */
    method ToString(formatDouble: Double -> string) returns (s: string)
      ensures s == Layout(Data(), formatDouble)
    {
      var resultString := new StringBuffer();
      resultString.Append(TAG_OPEN);
      assert resultString.text == TAG_OPEN;
      resultString.Append(JStr(symbol));
      resultString.Append(TAG_AN); resultString.Append(JInt(atomicNumber));
      resultString.Append(TAG_N); resultString.Append(JStr(name));
      resultString.Append(TAG_CS); resultString.Append(JStr(chemicalSerie));
      resultString.Append(TAG_P); resultString.Append(JInt(period));
      resultString.Append(TAG_G); resultString.Append(JInt(group));
      resultString.Append(TAG_PH); resultString.Append(JStr(phase));
      resultString.Append(TAG_CAS); resultString.Append(JStr(casId));
      resultString.Append(TAG_VDW); resultString.Append(JDouble(formatDouble, vdwRadius));
      resultString.Append(TAG_COV); resultString.Append(JDouble(formatDouble, covalentRadius));
      resultString.Append(TAG_ENEG); resultString.Append(JDouble(formatDouble, paulingEneg));
      resultString.Append(TAG_CLOSE);
      s := resultString.ToString();
    }
  }
}
