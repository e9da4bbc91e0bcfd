/**
 * ElementPTFactory over a given element list: lookup by symbol returning a
 * copy, configuration of an element from the table, and per-field queries.
 */
module ElementFactory {
  import opened Wrappers
  import opened JavaLang
  import opened PeriodicTable

  class ElementPTFactory {
    var elements: seq<PeriodicTableElement>

    /** The factory over an element list that has been read already. */
    constructor (elements: seq<PeriodicTableElement>)
      ensures this.elements == elements
    {
      this.elements := elements;
    }

    /**
     * The index of the first element whose symbol equals `symbol`, scanning
     * from `from`; an element with a null symbol met before any match throws
     * a NullPointerException.
     */
    function LookupFrom(symbol: Option<string>, from: nat): (r: Result<Option<nat>, JavaException>)
      reads this, elements
      requires from <= |elements|
      decreases |elements| - from
      ensures r.Ok? && r.value.Some? ==>
        && from <= r.value.value < |elements|
        && elements[r.value.value].symbol == symbol && symbol.Some?
        && forall j | from <= j < r.value.value :: elements[j].symbol.Some? && elements[j].symbol != symbol
      ensures r == Ok(None) ==>
        forall j | from <= j < |elements| :: elements[j].symbol.Some? && elements[j].symbol != symbol
      ensures r.Err? ==>
        && r.error == NullPointerException
        && exists j | from <= j < |elements| :: elements[j].symbol.None?
                                               && forall m | from <= m < j :: elements[m].symbol != symbol
    {
      if from == |elements| then Ok(None)
      else if elements[from].symbol.None? then Err(NullPointerException)
      else if elements[from].symbol == symbol then Ok(Some(from))
      else LookupFrom(symbol, from + 1)
    }

    function Lookup(symbol: Option<string>): Result<Option<nat>, JavaException>
      reads this, elements
    {
      LookupFrom(symbol, 0)
    }

    /** The table's data for `symbol`; a symbol the table lacks is the null getElement returns, dereferenced. */
    function Entry(symbol: Option<string>): (r: Result<ElementData, JavaException>)
      reads this, elements
      ensures r.Err? ==> r.error == NullPointerException
    {
      match Lookup(symbol)
      case Ok(Some(i)) => Ok(elements[i].Data())
      case Ok(None) => Err(NullPointerException)
      case Err(e) => Err(e)
    }

    /** getSize: the number of elements. */
    method GetSize() returns (n: int)
      ensures n == |elements|
    {
      n := |elements|;
    }

    /** getElements: the list itself. */
    method GetElements() returns (r: seq<PeriodicTableElement>)
      ensures r == elements
    {
      r := elements;
    }

    /**
     * getElement: a copy of the first element with the given symbol, or null.
     * The list and its elements are left as they were.
     */
    method GetElement(symbol: Option<string>) returns (r: Result<PeriodicTableElement?, JavaException>)
      ensures r.Err? <==> Lookup(symbol).Err?
      ensures r.Err? ==> r.error == NullPointerException
      ensures r.Ok? && r.value == null <==> Lookup(symbol) == Ok(None)
      ensures r.Ok? && r.value != null ==>
        Lookup(symbol).Ok? && Lookup(symbol).value.Some?
        && fresh(r.value) && r.value.Data() == elements[Lookup(symbol).value.value].Data()
    {
      for i := 0 to |elements|
        invariant LookupFrom(symbol, 0) == LookupFrom(symbol, i)
      {
        var element := elements[i];
        if element.symbol.None? {
          return Err(NullPointerException);
        }
        if element.symbol == symbol {
          var copy := element.Clone();
          return Ok(copy);
        }
      }
      return Ok(null);
    }

    /**
     * configure: overwrites the element's symbol, atomic number, name,
     * chemical series, period, phase, CAS id and electronegativity from the
     * table entry for its symbol, and its group too when the table's is not
     * null; the radii are left alone. Returns the same element.
     */
    method Configure(element: PeriodicTableElement) returns (r: Result<PeriodicTableElement, JavaException>)
      requires forall i | 0 <= i < |elements| :: elements[i].Valid()
      modifies element
      ensures r.Err? <==> old(Entry(element.symbol)).Err?
      ensures r.Err? ==> r.error == NullPointerException && element.Data() == old(element.Data())
      ensures r.Ok? ==> r.value == element
      ensures r.Ok? ==>
        var t := old(Entry(element.symbol)).value;
        var d := old(element.Data());
        element.Data() == d.(symbol := t.symbol, atomicNumber := t.atomicNumber, name := t.name,
                             chemicalSerie := t.chemicalSerie, period := t.period,
                             group := if t.group.Some? then t.group else d.group,
                             phase := t.phase, casId := t.casId, paulingEneg := t.paulingEneg)
    {
      var found := GetElement(element.symbol);
      if found.Err? || found.value == null {
        return Err(NullPointerException);
      }
      var elementInt := found.value;
      assert elementInt.Valid();
      element.SetSymbol(elementInt.symbol);
      element.SetAtomicNumber(elementInt.atomicNumber);
      element.SetName(elementInt.name);
      element.SetChemicalSerie(elementInt.chemicalSerie);
      element.SetPeriod(elementInt.period);
      if elementInt.group.Some? {
        var _ := element.SetGroup(elementInt.group);
      }
      element.SetPhase(elementInt.phase);
      element.SetCASid(elementInt.casId);
      element.SetPaulingEneg(elementInt.paulingEneg);
      return Ok(element);
    }

    // -------------------------------------------------------------------------
    // Queries by an element's symbol. Those whose Java return type is a
    // primitive unbox the field, which throws on null.

    /** getAtomicNumber: the table's atomic number for the element's symbol (returned as a double). */
    method GetAtomicNumber(element: PeriodicTableElement) returns (r: Result<int, JavaException>)
      ensures r.Ok? <==> Entry(element.symbol).Ok? && Entry(element.symbol).value.atomicNumber.Some?
      ensures r.Ok? ==> r.value == Entry(element.symbol).value.atomicNumber.value as int
      ensures r.Err? ==> r.error == NullPointerException
    {
      var found := GetElement(element.symbol);
      if found.Err? || found.value == null || found.value.atomicNumber.None? {
        return Err(NullPointerException);
      }
      return Ok(found.value.atomicNumber.value as int);
    }

    /** getName: the table's name for the element's symbol (null if unset). */
    method GetName(element: PeriodicTableElement) returns (r: Result<Option<string>, JavaException>)
      ensures r.Ok? <==> Entry(element.symbol).Ok?
      ensures r.Ok? ==> r.value == Entry(element.symbol).value.name
      ensures r.Err? ==> r.error == NullPointerException
    {
      var found := GetElement(element.symbol);
      if found.Err? || found.value == null {
        return Err(NullPointerException);
      }
      return Ok(found.value.name);
    }

    /** getChemicalSerie: the table's chemical series for the element's symbol. */
    method GetChemicalSerie(element: PeriodicTableElement) returns (r: Result<Option<string>, JavaException>)
      ensures r.Ok? <==> Entry(element.symbol).Ok?
      ensures r.Ok? ==> r.value == Entry(element.symbol).value.chemicalSerie
      ensures r.Err? ==> r.error == NullPointerException
    {
      var found := GetElement(element.symbol);
      if found.Err? || found.value == null {
        return Err(NullPointerException);
      }
      return Ok(found.value.chemicalSerie);
    }

    /** getPeriod: the table's period for the element's symbol, unboxed. */
    method GetPeriod(element: PeriodicTableElement) returns (r: Result<Int32, JavaException>)
      ensures r.Ok? <==> Entry(element.symbol).Ok? && Entry(element.symbol).value.period.Some?
      ensures r.Ok? ==> r.value == Entry(element.symbol).value.period.value
      ensures r.Err? ==> r.error == NullPointerException
    {
      var found := GetElement(element.symbol);
      if found.Err? || found.value == null || found.value.period.None? {
        return Err(NullPointerException);
      }
      return Ok(found.value.period.value);
    }

    /** getGroup: the table's group for the element's symbol, unboxed. */
    method GetGroup(element: PeriodicTableElement) returns (r: Result<Int32, JavaException>)
      ensures r.Ok? <==> Entry(element.symbol).Ok? && Entry(element.symbol).value.group.Some?
      ensures r.Ok? ==> r.value == Entry(element.symbol).value.group.value
      ensures r.Err? ==> r.error == NullPointerException
    {
      var found := GetElement(element.symbol);
      if found.Err? || found.value == null || found.value.group.None? {
        return Err(NullPointerException);
      }
      return Ok(found.value.group.value);
    }

    /** getPhase: the table's phase for the element's symbol. */
    method GetPhase(element: PeriodicTableElement) returns (r: Result<Option<string>, JavaException>)
      ensures r.Ok? <==> Entry(element.symbol).Ok?
      ensures r.Ok? ==> r.value == Entry(element.symbol).value.phase
      ensures r.Err? ==> r.error == NullPointerException
    {
      var found := GetElement(element.symbol);
      if found.Err? || found.value == null {
        return Err(NullPointerException);
      }
      return Ok(found.value.phase);
    }

    /** getCASid: the table's CAS id for the element's symbol. */
    method GetCASid(element: PeriodicTableElement) returns (r: Result<Option<string>, JavaException>)
      ensures r.Ok? <==> Entry(element.symbol).Ok?
      ensures r.Ok? ==> r.value == Entry(element.symbol).value.casId
      ensures r.Err? ==> r.error == NullPointerException
    {
      var found := GetElement(element.symbol);
      if found.Err? || found.value == null {
        return Err(NullPointerException);
      }
      return Ok(found.value.casId);
    }

    /** getVdwRadius: the table's van der Waals radius for the element's symbol, unboxed. */
    method GetVdwRadius(element: PeriodicTableElement) returns (r: Result<Double, JavaException>)
      ensures r.Ok? <==> Entry(element.symbol).Ok? && Entry(element.symbol).value.vdwRadius.Some?
      ensures r.Ok? ==> r.value == Entry(element.symbol).value.vdwRadius.value
      ensures r.Err? ==> r.error == NullPointerException
    {
      var found := GetElement(element.symbol);
      if found.Err? || found.value == null || found.value.vdwRadius.None? {
        return Err(NullPointerException);
      }
      return Ok(found.value.vdwRadius.value);
    }

    /** getCovalentRadius: the table's covalent radius for the element's symbol, unboxed. */
    method GetCovalentRadius(element: PeriodicTableElement) returns (r: Result<Double, JavaException>)
      ensures r.Ok? <==> Entry(element.symbol).Ok? && Entry(element.symbol).value.covalentRadius.Some?
      ensures r.Ok? ==> r.value == Entry(element.symbol).value.covalentRadius.value
      ensures r.Err? ==> r.error == NullPointerException
    {
      var found := GetElement(element.symbol);
      if found.Err? || found.value == null || found.value.covalentRadius.None? {
        return Err(NullPointerException);
      }
      return Ok(found.value.covalentRadius.value);
    }

    /** getPaulingEneg: the table's Pauling electronegativity for the element's symbol, unboxed. */
    method GetPaulingEneg(element: PeriodicTableElement) returns (r: Result<Double, JavaException>)
      ensures r.Ok? <==> Entry(element.symbol).Ok? && Entry(element.symbol).value.paulingEneg.Some?
      ensures r.Ok? ==> r.value == Entry(element.symbol).value.paulingEneg.value
      ensures r.Err? ==> r.error == NullPointerException
    {
      var found := GetElement(element.symbol);
      if found.Err? || found.value == null || found.value.paulingEneg.None? {
        return Err(NullPointerException);
      }
      return Ok(found.value.paulingEneg.value);
    }
  }
}
