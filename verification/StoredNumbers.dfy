/**
 * What becomes of a number the cell editor accepts (backend/app/features/cells/service.py): the
 * editor stores its canonical form, and validation, capture, comparison and rule loading
 * normalise the stored text again.
 */
module StoredNumbers {
  import opened Results
  import opened Ordering
  import opened BaselineSnapshot
  import opened BackboneDiff
  import Decimals
  import V = Validation

  /** The text stored for what was typed into a number cell. */
  function StoredText(typed: string): Result<Option<string>, Decimals.DecimalError> {
    Decimals.NormalizeOptional(Some(typed))
  }

  /** The typed number gains a digit and leaves the limit when it is stored. */
  predicate Outgrows(typed: string) { Decimals.FillsTheLimitBehindADot(Decimals.Split(Decimals.Strip(typed))) }

  lemma {:induction false} StoredAgain(typed: string, text: string)
    requires StoredText(typed) == Ok(Some(text))
    ensures text != "" && Decimals.Normalize(text) == if Outgrows(typed) then Err(Decimals.InvalidDecimal) else Ok(text)
  {
    hide Decimals.Normalize, Decimals.FillsTheLimitBehindADot, Decimals.Split, Decimals.Canonical, Decimals.DigitCount;
    Decimals.NormalizePreservesValue(typed);
    Decimals.NormalizeIdempotent(typed);
    Decimals.RenormalizeCanonical(text);
    CanonicalNotEmpty(text);
  }

  lemma {:induction false} CanonicalNotEmpty(text: string)
    requires Decimals.Canonical(text)
    ensures text != ""
  {
    Decimals.PartsDigitCount(text);
  }

  /**
   * A stored number is accepted again by capture, comparison and rule loading, and draws no
   * "malformed" issue, exactly when it did not outgrow the limit; it is then kept as it is.
   */
  lemma {:induction false} StoredNumberReturns(typed: string, text: string, p: V.Prepared, l: V.LayerInput,
      c: V.ConditionInput)
    requires StoredText(typed) == Ok(Some(text)) && p.valueType.Number? && V.Lookup(c.values, p.code) == Some(text)
    ensures CanonicalCellValue(V.Number, text) == if Outgrows(typed) then Err(InvalidSnapshot) else Ok(text)
    ensures CanonicalCurrentValue(V.Number, Some(text)) == if Outgrows(typed) then Err(BasisInvalid) else Ok(Some(text))
    ensures V.CanonicalTyped(V.Number, Some(text)) == if Outgrows(typed) then Err(V.ConfigurationInvalid)
      else Ok(Some(text))
    ensures Outgrows(typed) <==>
      V.CellIssue(p, l, c) == Some(V.StandaloneIssue("number_malformed", V.Error, c, l, p.code, map[]))
  {
    hide Decimals.Normalize, Decimals.NormalizeOptional, Outgrows, Decimals.Value;
    StoredAgain(typed, text);
    assert "number_malformed"[0] != "range_min"[0] && "number_malformed"[0] != "range_max"[0];
  }

  /** The tiny number is such a case. */
  lemma {:induction false} TinyNumberOutgrows()
    ensures StoredText(Decimals.TinyNumber()).Ok? && StoredText(Decimals.TinyNumber()).value.Some?
    ensures Outgrows(Decimals.TinyNumber())
  {
    hide Decimals.Normalize, Decimals.FillsTheLimitBehindADot;
    Decimals.NormalizeTwiceFails();
    NotBlank(Decimals.TinyNumber());
  }

  lemma {:induction false} NotBlank(raw: string)
    requires Decimals.Normalize(raw).Ok?
    ensures Decimals.Strip(raw) != ""
  {
  }

  // ---------------------------------------------------------------- a layer with such a cell

  lemma {:induction false} CellsEachCanonical(columns: seq<Column>, cells: seq<Cell>)
    requires CanonicalCells(columns, cells).Ok?
    ensures forall x :: x in cells ==>
      FindColumn(columns, x.code).Some? && CanonicalCellValue(FindColumn(columns, x.code).value.valueType, x.value).Ok?
  {
    hide FindColumn, CanonicalCellValue;
    if |cells| > 0 { CellsEachCanonical(columns, cells[1..]); }
  }

  /** Capturing a layer fails when one of its number cells outgrew the limit. */
  lemma {:induction false} CaptureFails(batchId: string, capturedAt: Instant, source: Source, columns: seq<Column>,
      conditions: seq<Condition>, i: nat, x: Cell, typed: string)
    requires i < |conditions| && x in conditions[i].cells && Outgrows(typed) && StoredText(typed) == Ok(Some(x.value))
    requires FindColumn(columns, x.code).Some? && FindColumn(columns, x.code).value.valueType.Number?
    ensures MakeSnapshot(batchId, capturedAt, source, columns, conditions).Err?
  {
    hide FindColumn, Outgrows, StoredText, CanonicalCells, SortBy, StoredCondition, ValidColumn, IsHex32, ValidInstant,
         ValidSource, Decimals.Normalize;
    StoredAgain(typed, x.value);
    if MakeConditions(columns, conditions).Ok? {
      MakeConditionsStored(columns, conditions);
      CapturedRowsHaveNone(columns, conditions[i], x);
    }
  }

  lemma {:induction false} CapturedRowsHaveNone(columns: seq<Column>, c: Condition, x: Cell)
    requires x in c.cells && FindColumn(columns, x.code).Some?
    requires CanonicalCellValue(FindColumn(columns, x.code).value.valueType, x.value).Err?
    ensures MakeCondition(columns, c).Err?
  {
    hide FindColumn, CanonicalCellValue, CanonicalCells, SortBy;
    var sorted := SortBy(c.cells, CellKey);
    SortProps(c.cells, CellKey);
    assert x in sorted;
    if CanonicalCells(columns, sorted).Ok? { CellsEachCanonical(columns, sorted); }
  }

  lemma {:induction false} OneCellFails(columns: map<string, Column>, selected: seq<CurrentParameter>,
      cells: seq<CurrentCell>, j: nat)
    requires j < |cells| && PrepareCell(columns, selected, cells[j]).Err?
    ensures PrepareCells(columns, selected, cells).Err?
  {
    hide PrepareCell;
    if j < |cells| - 1 { OneCellFails(columns, selected, cells[..|cells| - 1], j); }
  }

  lemma {:induction false} OneConditionFails(columns: map<string, Column>, selected: seq<CurrentParameter>,
      cs: seq<CurrentCondition>, i: nat)
    requires i < |cs| && PrepareCells(columns, selected, cs[i].cells).Err?
    ensures PrepareConditions(columns, selected, cs).Err?
  {
    hide PrepareCells;
    if i < |cs| - 1 { OneConditionFails(columns, selected, cs[..|cs| - 1], i); }
  }

  /** Comparing a layer fails when one of its number cells outgrew the limit. */
  lemma {:induction false} ComparisonFails(l: LayerInput, i: nat, j: nat, typed: string,
      selected: seq<CurrentParameter>)
    requires SelectParameters(l.parameters, StoredCodes(l.conditions)) == Ok(selected)
    requires i < |l.conditions| && j < |l.conditions[i].cells| && l.conditions[i].cells[j].value.Some?
    requires Outgrows(typed) && StoredText(typed) == Ok(Some(l.conditions[i].cells[j].value.value))
    requires DescriptorType(BaselineColumns(l), selected, l.conditions[i].cells[j].code) == Some(V.Number)
    ensures CompareLayer(l).Err?
  {
    hide Outgrows, StoredText, SelectParameters, StoredCodes, PlanOf, PrepareCells, PrepareConditions, DescriptorType,
         ColumnMap, ComparePrepared, LayerBasis, Decimals.Normalize;
    var columns, cell := BaselineColumns(l), l.conditions[i].cells[j];
    StoredAgain(typed, cell.value.value);
    OneCellFails(columns, selected, l.conditions[i].cells, j);
    OneConditionFails(columns, selected, l.conditions, i);
  }
}
