/**
 * The size budget of a refused review gate (backend/app/features/approval/service.py).
 *
 * `BoundedItems` selects a prefix of JSON items within a byte budget. `Fit` shrinks the details
 * of a refusal below 240 KiB by popping rule versions, then issues, then missing coordinates,
 * while it tracks the size with a counter that drifts from the real size.
 */
module GateBudget {
  import opened Json
  import opened Bytes
  import opened JsonSizes

  const BYTE_BUDGET := 240 * 1024
  const ISSUE_BUDGET := 144 * 1024
  const MISSING_BUDGET := 64 * 1024
  const MAX_ITEMS := 200

  // ---------------------------------------------------------------- a bounded prefix

  /** What `_bounded_json_items` counts for a list. */
  function Used(items: seq<Json>): nat {
    if |items| == 0 then 2 else Used(items[..|items| - 1]) + Size(items[|items| - 1]) + 1
  }

  lemma {:induction false} UsedSize(items: seq<Json>)
    ensures Used(items) == if items == [] then 2 else ListSize(items) + 3
  {
    hide Size, ListSize;
    if |items| > 0 {
      var n := |items| - 1;
      UsedSize(items[..n]);
      ItemsSnoc(items[..n], items[n]);
      assert items == items[..n] + [items[n]];
    }
  }

  /** The longest prefix within both limits. */
  method BoundedItems(items: seq<Json>, maxItems: nat, byteBudget: nat) returns (selected: seq<Json>)
    ensures |selected| <= |items| && |selected| <= maxItems && selected == items[..|selected|]
    ensures selected != [] ==> Used(selected) <= byteBudget
    ensures |selected| < |items| && |selected| < maxItems ==> Used(items[..|selected| + 1]) > byteBudget
  {
    hide Size;
    selected := [];
    var used := 2;
    var limit := if |items| < maxItems then |items| else maxItems;
    var i := 0;
    while i < limit
      invariant i <= limit && selected == items[..i] && used == Used(selected)
      invariant i > 0 ==> used <= byteBudget
    {
      assert items[..i + 1][..i] == items[..i];
      var encodedSize := Size(items[i]) + 1;
      if used + encodedSize > byteBudget { break; }
      selected := selected + [items[i]];
      used := used + encodedSize;
      i := i + 1;
    }
  }

  /** The selected list takes less than its budget, whatever the items are. */
  lemma {:induction false} BoundedListSize(selected: seq<Json>, byteBudget: nat)
    requires selected != [] ==> Used(selected) <= byteBudget
    ensures ListSize(selected) <= byteBudget
  {
    hide Size;
    UsedSize(selected);
    if selected == [] { Comma(); }
  }

  // ---------------------------------------------------------------- the details

  datatype Details = Details(
    errorCount: int, warningCount: int, issues: seq<Json>, evaluatedAt: string, basisHash: string,
    ruleVersions: seq<Field>,
    truncated: bool, missing: seq<Json>, totalMissing: int)

  function Summary(d: Details): Json {
    Obj([Field("error_count", Int(d.errorCount)), Field("warning_count", Int(d.warningCount))])
  }

  function ValidationPart(d: Details): seq<Field> {
    [Field("summary", Summary(d)), Field("issues", Arr(d.issues)), Field("evaluated_at", Str(d.evaluatedAt)),
     Field("basis_hash", Str(d.basisHash)), Field("rule_versions", Obj(d.ruleVersions)),
     Field("truncated", Bool(d.truncated))]
  }

  function DetailsValue(d: Details): Json {
    Obj([Field("validation", Obj(ValidationPart(d))), Field("missing_por_layers", Arr(d.missing)),
      Field("total_missing_por_count", Int(d.totalMissing))])
  }

  function DetailsSize(d: Details): nat { Size(DetailsValue(d)) }

  /** The size of everything but the three lists and the flag. */
  function FixedSize(d: Details): nat {
    Size(Str("summary")) + Size(Summary(d)) + Size(Str("issues")) + Size(Str("evaluated_at")) + Size(Str(d.evaluatedAt))
    + Size(Str("basis_hash")) + Size(Str(d.basisHash)) + Size(Str("rule_versions")) + Size(Str("truncated"))
    + Size(Str("validation")) + Size(Str("missing_por_layers")) + Size(Str("total_missing_por_count"))
      + Size(Int(d.totalMissing)) + 26
  }

  function FlagSize(b: bool): nat { if b then 4 else 5 }

  lemma {:induction false} ValidationPartSize(d: Details)
    ensures FieldsSize(ValidationPart(d)) ==
      Size(Str("summary")) + Size(Summary(d)) + Size(Str("issues")) + Size(Str("evaluated_at"))
        + Size(Str(d.evaluatedAt))
      + Size(Str("basis_hash")) + Size(Str(d.basisHash)) + Size(Str("rule_versions")) + Size(Str("truncated"))
      + ListSize(d.issues) + FieldsSize(d.ruleVersions) + FlagSize(d.truncated) + 15
  {
    hide Size, ListSize, FieldsSize, FieldSize, Summary;
    var f := ValidationPart(d);
    assert f == [f[0]] + f[1..] && f[1..] == [f[1]] + f[2..] && f[2..] == [f[2]] + f[3..] && f[3..] == [f[3]] + f[4..]
      && f[4..] == [f[4]] + f[5..] && f[5..] == [f[5]] + [];
    FieldsCons(f[0], f[1..]);
    FieldsCons(f[1], f[2..]);
    FieldsCons(f[2], f[3..]);
    FieldsCons(f[3], f[4..]);
    FieldsCons(f[4], f[5..]);
    FieldsCons(f[5], []);
    FieldSizeParts(f[0]);
    FieldSizeParts(f[1]);
    FieldSizeParts(f[2]);
    FieldSizeParts(f[3]);
    FieldSizeParts(f[4]);
    FieldSizeParts(f[5]);
    ArraySize(d.issues);
    ObjectSize(d.ruleVersions);
    BoolSize(d.truncated);
  }

  /** The size is the fixed part plus what the three lists and the flag take. */
  lemma {:induction false} SizeSplits(d: Details)
    ensures DetailsSize(d) == FixedSize(d) + ListSize(d.issues) + FieldsSize(d.ruleVersions) + ListSize(d.missing)
      + FlagSize(d.truncated)
  {
    hide Size, ListSize, FieldsSize, FieldSize, Summary, ValidationPart, FlagSize;
    ValidationPartSize(d);
    var f := DetailsValue(d).fields;
    assert f == [f[0]] + f[1..] && f[1..] == [f[1]] + f[2..] && f[2..] == [f[2]] + [];
    ObjectSize(f);
    FieldsCons(f[0], f[1..]);
    FieldsCons(f[1], f[2..]);
    FieldsCons(f[2], []);
    FieldSizeParts(f[0]);
    FieldSizeParts(f[1]);
    FieldSizeParts(f[2]);
    ObjectSize(ValidationPart(d));
    ArraySize(d.missing);
  }

  // ---------------------------------------------------------------- shrinking

  datatype Outcome = Fitted(details: Details) | FixedTooLarge(details: Details) | AssertionFails(details: Details)

  function DropRule(d: Details): Details
    requires |d.ruleVersions| > 0
  {
    d.(truncated := true, ruleVersions := d.ruleVersions[..|d.ruleVersions| - 1])
  }

  function DropIssue(d: Details): Details
    requires |d.issues| > 0
  {
    d.(truncated := true, issues := d.issues[..|d.issues| - 1])
  }

  function DropMissing(d: Details): Details
    requires |d.missing| > 0
  {
    d.(truncated := true, missing := d.missing[..|d.missing| - 1])
  }

  /** The loop of `_fit_review_gate_details` from a state with the tracked size `current`. */
  function Shrink(d: Details, current: int): Outcome
    decreases |d.ruleVersions| + |d.issues| + |d.missing|
  {
    if current <= BYTE_BUDGET then if DetailsSize(d) <= BYTE_BUDGET then Fitted(d) else AssertionFails(d)
    else if |d.ruleVersions| > 0 then
      Shrink(DropRule(d), current - (Size(Obj([d.ruleVersions[|d.ruleVersions| - 1]])) - 1))
    else if |d.issues| > 0 then Shrink(DropIssue(d), current - (Size(d.issues[|d.issues| - 1]) + 1))
    else if |d.missing| > 0 then Shrink(DropMissing(d), current - (Size(d.missing[|d.missing| - 1]) + 1))
    else FixedTooLarge(d.(truncated := true))
  }

  class GateDetails {
    var errorCount: int
    var warningCount: int
    var issues: seq<Json>
    var evaluatedAt: string
    var basisHash: string
    var ruleVersions: seq<Field>
    var truncated: bool
    var missing: seq<Json>
    var totalMissing: int

    constructor (d: Details)
      ensures Contents() == d
    {
      errorCount, warningCount, issues, evaluatedAt, basisHash := d.errorCount, d.warningCount, d.issues, d.evaluatedAt,
      d.basisHash;
      ruleVersions, truncated, missing, totalMissing := d.ruleVersions, d.truncated, d.missing, d.totalMissing;
    }

    function Contents(): Details
      reads this
    {
      Details(errorCount, warningCount, issues, evaluatedAt, basisHash, ruleVersions, truncated, missing, totalMissing)
    }

    /** Returns normally, or raises an AssertionError. */
    method Fit() returns (raised: bool)
      modifies this
      ensures var o := Shrink(old(Contents()), DetailsSize(old(Contents())));
        raised == !o.Fitted? && Contents() == o.details
    {
      hide Size, DetailsSize;
      var currentSize := DetailsSize(Contents());
      while currentSize > BYTE_BUDGET
        invariant Shrink(Contents(), currentSize) == Shrink(old(Contents()), DetailsSize(old(Contents())))
        decreases |ruleVersions| + |issues| + |missing|
      {
        ghost var before := Contents();
        truncated := true;
        if |ruleVersions| > 0 {
          var last := ruleVersions[|ruleVersions| - 1];
          ruleVersions := ruleVersions[..|ruleVersions| - 1];
          currentSize := currentSize - (Size(Obj([last])) - 1);
          assert Contents() == DropRule(before);
        } else if |issues| > 0 {
          var last := issues[|issues| - 1];
          issues := issues[..|issues| - 1];
          currentSize := currentSize - (Size(last) + 1);
          assert Contents() == DropIssue(before);
        } else if |missing| > 0 {
          var last := missing[|missing| - 1];
          missing := missing[..|missing| - 1];
          currentSize := currentSize - (Size(last) + 1);
          assert Contents() == DropMissing(before);
        } else {
          return true;
        }
      }
      raised := DetailsSize(Contents()) > BYTE_BUDGET;
    }
  }

  // ---------------------------------------------------------------- what shrinking keeps

  /** `e` is `d` with rule versions popped from the end. */
  predicate OnlyRulesDropped(d: Details, e: Details) {
    && |e.ruleVersions| <= |d.ruleVersions| && e.ruleVersions == d.ruleVersions[..|e.ruleVersions|]
    && e == d.(ruleVersions := e.ruleVersions, truncated := e.truncated)
    && e.truncated == (d.truncated || |e.ruleVersions| < |d.ruleVersions|)
  }

  /** The details once every rule version is gone. */
  function WithoutRules(d: Details): Details { d.(ruleVersions := [], truncated := true) }

  lemma {:induction false} DropRuleSize(d: Details)
    requires |d.ruleVersions| > 0
    ensures var last := d.ruleVersions[|d.ruleVersions| - 1];
      DetailsSize(DropRule(d)) == DetailsSize(d) - (Size(Obj([last])) - 1)
        + (if |d.ruleVersions| == 1 then 1 else 0) - (if d.truncated then 0 else 1)
    ensures DetailsSize(DropRule(d)) < DetailsSize(d)
  {
    hide Size, ListSize, FieldsSize, FieldSize, DetailsSize, FixedSize;
    var n := |d.ruleVersions| - 1;
    var last := d.ruleVersions[n];
    SizeSplits(d);
    SizeSplits(DropRule(d));
    FixedSame(d, DropRule(d));
    assert d.ruleVersions == d.ruleVersions[..n] + [last];
    FieldsSnoc(d.ruleVersions[..n], last);
    assert [last] == [last] + [];
    FieldsCons(last, []);
    ObjectSize([last]);
    FieldSizePositive(last);
    NoFields();
  }

  lemma {:induction false} FixedSame(d: Details, e: Details)
    requires e == d.(ruleVersions := e.ruleVersions, issues := e.issues, missing := e.missing, truncated := e.truncated)
    ensures FixedSize(d) == FixedSize(e)
  {
    hide Size;
  }

  lemma {:induction false} WithoutRulesSmallest(d: Details)
    requires |d.ruleVersions| > 0
    ensures DetailsSize(WithoutRules(d)) < DetailsSize(d)
    ensures |d.ruleVersions| > 1 ==> DetailsSize(WithoutRules(d)) < DetailsSize(DropRule(d))
    decreases |d.ruleVersions|
  {
    hide DetailsSize;
    DropRuleSize(d);
    if |d.ruleVersions| > 1 {
      WithoutRulesSmallest(DropRule(d));
      assert WithoutRules(DropRule(d)) == WithoutRules(d);
    } else {
      assert DropRule(d) == WithoutRules(d);
    }
  }

  /**
   * The issues and the missing coordinates survive exactly when the details already fit, or
   * fit once every rule version is gone.
   */
  lemma {:induction false} ShrinkKeepsListsExactly(d: Details)
    ensures var o := Shrink(d, DetailsSize(d));
      (o.Fitted? && OnlyRulesDropped(d, o.details)) <==>
      (DetailsSize(d) <= BYTE_BUDGET || (|d.ruleVersions| > 0 && DetailsSize(WithoutRules(d)) <= BYTE_BUDGET))
  {
    if DetailsSize(d) > BYTE_BUDGET {
      if |d.ruleVersions| > 0 {
        hide Shrink, DetailsSize;
        WithoutRulesSmallest(d);
        ShrinkRules(d, DetailsSize(d), d);
      } else {
        hide OnlyRulesDropped;
        ShrinkWithoutRules(d);
      }
    } else {
      hide DetailsSize, DropRule, DropIssue, DropMissing;
    }
  }

  /** Without rule versions an oversized value loses an issue or a coordinate, or raises. */
  lemma {:induction false} ShrinkWithoutRules(d: Details)
    requires DetailsSize(d) > BYTE_BUDGET && d.ruleVersions == []
    ensures var o := Shrink(d, DetailsSize(d)); !(o.Fitted? && OnlyRulesDropped(d, o.details))
  {
    hide DetailsSize, Size;
    if |d.issues| > 0 {
      ShrinkShortens(DropIssue(d), DetailsSize(d) - (Size(d.issues[|d.issues| - 1]) + 1));
    } else if |d.missing| > 0 {
      ShrinkShortens(DropMissing(d), DetailsSize(d) - (Size(d.missing[|d.missing| - 1]) + 1));
    }
  }

  lemma {:induction false} ShrinkShortens(d: Details, current: int)
    ensures var e := Shrink(d, current).details;
      |e.issues| <= |d.issues| && |e.missing| <= |d.missing| && |e.ruleVersions| <= |d.ruleVersions|
    decreases |d.ruleVersions| + |d.issues| + |d.missing|
  {
    hide DetailsSize, Size;
    if current > BYTE_BUDGET {
      if |d.ruleVersions| > 0 {
        ShrinkShortens(DropRule(d), current - (Size(Obj([d.ruleVersions[|d.ruleVersions| - 1]])) - 1));
      } else if |d.issues| > 0 {
        ShrinkShortens(DropIssue(d), current - (Size(d.issues[|d.issues| - 1]) + 1));
      } else if |d.missing| > 0 {
        ShrinkShortens(DropMissing(d), current - (Size(d.missing[|d.missing| - 1]) + 1));
      }
    }
  }

  /** While rule versions remain, the counter is the size, one more after the flag changed. */
  lemma {:induction false} ShrinkRules(d: Details, current: int, start: Details)
    requires OnlyRulesDropped(start, d) && |d.ruleVersions| > 0 && current > BYTE_BUDGET
    requires current == DetailsSize(d) + (if d.truncated != start.truncated then 1 else 0)
    ensures var o := Shrink(d, current);
      (o.Fitted? && OnlyRulesDropped(start, o.details)) <==> DetailsSize(WithoutRules(start)) <= BYTE_BUDGET
    decreases |d.ruleVersions|
  {
    hide DetailsSize, Size;
    var e := DropRule(d);
    var next := current - (Size(Obj([d.ruleVersions[|d.ruleVersions| - 1]])) - 1);
    DropRuleSize(d);
    assert WithoutRules(d) == WithoutRules(start);
    if |e.ruleVersions| > 0 {
      WithoutRulesSmallest(e);
      assert WithoutRules(e) == WithoutRules(start);
      if next > BYTE_BUDGET { ShrinkRules(e, next, start); }
    } else {
      assert e == WithoutRules(start);
      RulesGone(e, next, start);
    }
  }

  /** With no rule version left, either the loop stops here or an issue or coordinate goes. */
  lemma {:induction false} RulesGone(e: Details, current: int, start: Details)
    requires e.ruleVersions == [] && e.truncated && e == WithoutRules(start) && OnlyRulesDropped(start, e)
    requires DetailsSize(e) <= BYTE_BUDGET ==> current <= BYTE_BUDGET
    ensures var o := Shrink(e, current);
      (o.Fitted? && OnlyRulesDropped(start, o.details)) <==> DetailsSize(e) <= BYTE_BUDGET
  {
    hide DetailsSize, Size;
    if current > BYTE_BUDGET {
      if |e.issues| > 0 {
        ShrinkShortens(DropIssue(e), current - (Size(e.issues[|e.issues| - 1]) + 1));
      } else if |e.missing| > 0 {
        ShrinkShortens(DropMissing(e), current - (Size(e.missing[|e.missing| - 1]) + 1));
      }
    }
  }

  /** The bounds `_validation_details` and `_assert_request_review_gate` set up. */
  predicate CallerBounds(d: Details) {
    && (d.issues != [] ==> Used(d.issues) <= ISSUE_BUDGET)
    && (d.missing != [] ==> Used(d.missing) <= MISSING_BUDGET)
    && FixedSize(d) + 5 <= BYTE_BUDGET - ISSUE_BUDGET - MISSING_BUDGET
  }

  /**
   * With the callers' prefixes the loop ends within the budget by dropping rule versions only:
   * no issue and no missing coordinate is lost and no assertion fails.
   */
  lemma {:induction false} GateDetailsAlwaysFit(d: Details)
    requires CallerBounds(d)
    ensures var o := Shrink(d, DetailsSize(d));
      o.Fitted? && OnlyRulesDropped(d, o.details) && DetailsSize(o.details) <= BYTE_BUDGET
  {
    hide DetailsSize, Size, FixedSize, ListSize, FieldsSize, Used;
    BoundedListSize(d.issues, ISSUE_BUDGET);
    BoundedListSize(d.missing, MISSING_BUDGET);
    SizeSplits(d);
    SizeSplits(WithoutRules(d));
    FixedSame(d, WithoutRules(d));
    NoFields();
    ShrinkKeepsListsExactly(d);
    FittedFits(d, DetailsSize(d));
  }

  lemma {:induction false} FittedFits(d: Details, current: int)
    requires Shrink(d, current).Fitted?
    ensures DetailsSize(Shrink(d, current).details) <= BYTE_BUDGET
    decreases |d.ruleVersions| + |d.issues| + |d.missing|
  {
    hide DetailsSize, Size;
    if current > BYTE_BUDGET {
      if |d.ruleVersions| > 0 {
        FittedFits(DropRule(d), current - (Size(Obj([d.ruleVersions[|d.ruleVersions| - 1]])) - 1));
      } else if |d.issues| > 0 {
        FittedFits(DropIssue(d), current - (Size(d.issues[|d.issues| - 1]) + 1));
      } else if |d.missing| > 0 {
        FittedFits(DropMissing(d), current - (Size(d.missing[|d.missing| - 1]) + 1));
      }
    }
  }

  /**
   * A digest, a timestamp of at most 64 characters and counts below 10^18 leave the fixed fields
   * far below their share.
   */
  lemma {:induction false} FixedFieldsAreSmall(d: Details)
    requires Plain(d.basisHash) && |d.basisHash| == 71 && Plain(d.evaluatedAt) && |d.evaluatedAt| <= 64
    requires 0 <= d.errorCount < 1_000_000_000_000_000_000 && 0 <= d.warningCount < 1_000_000_000_000_000_000
    requires 0 <= d.totalMissing < 1_000_000_000_000_000_000
    ensures FixedSize(d) <= 512
  {
    hide Size, Plain, Summary;
    CountSize(d.totalMissing);
    PlainText(d.basisHash);
    PlainText(d.evaluatedAt);
    KeySizes();
    MissingKeySizes();
    SummarySize(d);
  }

  lemma {:induction false} KeySizes()
    ensures Size(Str("summary")) == 9 && Size(Str("issues")) == 8 && Size(Str("evaluated_at")) == 14
    ensures Size(Str("basis_hash")) == 12
    ensures Size(Str("rule_versions")) == 15 && Size(Str("truncated")) == 11 && Size(Str("validation")) == 12
  {
    hide Size;
    PlainText("summary");
    PlainText("issues");
    PlainText("evaluated_at");
    PlainText("basis_hash");
    PlainText("rule_versions");
    PlainText("truncated");
    PlainText("validation");
  }

  lemma {:induction false} MissingKeySizes()
    ensures Size(Str("missing_por_layers")) == 20 && Size(Str("total_missing_por_count")) == 25
  {
    hide Size;
    PlainText("missing_por_layers");
    PlainText("total_missing_por_count");
  }

  lemma {:induction false} SummarySize(d: Details)
    requires 0 <= d.errorCount < 1_000_000_000_000_000_000 && 0 <= d.warningCount < 1_000_000_000_000_000_000
    ensures Size(Summary(d)) <= 70
  {
    hide Size, FieldsSize, FieldSize;
    CountSize(d.errorCount);
    CountSize(d.warningCount);
    PlainText("error_count");
    PlainText("warning_count");
    var f := Summary(d).fields;
    assert f == [f[0]] + [f[1]] && [f[1]] == [f[1]] + [];
    ObjectSize(f);
    FieldsCons(f[0], [f[1]]);
    FieldsCons(f[1], []);
    FieldSizeParts(f[0]);
    FieldSizeParts(f[1]);
  }

  // ---------------------------------------------------------------- without the callers' bounds

  function Pops(d: Details): nat { |d.ruleVersions| + |d.issues| + |d.missing| }

  function PopOne(d: Details): (e: Details)
    requires Pops(d) > 0
    ensures Pops(e) == Pops(d) - 1
  {
    if |d.ruleVersions| > 0 then DropRule(d) else if |d.issues| > 0 then DropIssue(d) else DropMissing(d)
  }

  /** The details after `t` pops. */
  function Popped(d: Details, t: nat): Details
    requires t <= Pops(d)
    decreases t
  {
    if t == 0 then d else Popped(PopOne(d), t - 1)
  }

  /** The counter runs one byte below the size for each list that was emptied, and one above when the flag changed. */
  function Drift(d: Details, e: Details): int {
    (if d.ruleVersions != [] && e.ruleVersions == [] then 1 else 0)
      + (if d.issues != [] && e.issues == [] then 1 else 0)
    + (if d.missing != [] && e.missing == [] then 1 else 0) - (if e.truncated && !d.truncated then 1 else 0)
  }

  /** The tracked size in a run that began at `d`. */
  function Counter(d: Details, e: Details): int { DetailsSize(e) - Drift(d, e) }

  /** Over the budget by no more than the drift covers. */
  predicate StopsTooLarge(d: Details, e: Details) { BYTE_BUDGET < DetailsSize(e) <= BYTE_BUDGET + Drift(d, e) }

  /** `e` can come after `d` in the loop. */
  predicate After(d: Details, e: Details) {
    && (e.ruleVersions != [] ==> d.ruleVersions != []) && (e.issues != [] ==> d.issues != [])
    && (e.missing != [] ==> d.missing != [])
    && (d.truncated ==> e.truncated)
  }

  lemma {:induction false} SnocDrop(xs: seq<Json>)
    requires |xs| > 0
    ensures var n := |xs| - 1;
      ListSize(xs[..n]) == ListSize(xs) - Size(xs[n]) - (if n == 0 then 0 else 1) && Size(xs[n]) > 0
  {
    hide Size, ListSize;
    var n := |xs| - 1;
    assert xs == xs[..n] + [xs[n]];
    ItemsSnoc(xs[..n], xs[n]);
    NoFields();
    SizePositive(xs[n]);
  }

  lemma {:induction false} SizePositive(v: Json)
    ensures Size(v) > 0
  {
    hide EncodeChar;
    PrintStarts(v);
  }

  /** One pop lowers the size and the counter. */
  lemma {:induction false} PopTracks(start: Details, d: Details)
    requires After(start, d) && Pops(d) > 0
    ensures var e := PopOne(d);
      After(start, e) && DetailsSize(e) < DetailsSize(d) && Counter(start, e) < Counter(start, d)
    ensures Counter(start, d) > BYTE_BUDGET ==>
      Shrink(d, Counter(start, d)) == Shrink(PopOne(d), Counter(start, PopOne(d)))
  {
    hide Size, ListSize, FieldsSize, FieldSize, DetailsSize, FixedSize;
    var e := PopOne(d);
    if |d.ruleVersions| > 0 {
      DropRuleSize(d);
      RuleEntrySize(d.ruleVersions[|d.ruleVersions| - 1]);
    } else {
      SizeSplits(d);
      SizeSplits(e);
      FixedSame(d, e);
      if |d.issues| > 0 { SnocDrop(d.issues); } else { SnocDrop(d.missing); }
    }
  }

  lemma {:induction false} RuleEntrySize(f: Field)
    ensures Size(Obj([f])) > 2
  {
    hide Size, FieldsSize, FieldSize;
    assert [f] == [f] + [];
    ObjectSize([f]);
    FieldsCons(f, []);
    FieldSizePositive(f);
  }

  /** Further pops lower both. */
  lemma {:induction false} PoppedSmaller(start: Details, d: Details, t: nat)
    requires After(start, d) && t <= Pops(d)
    ensures DetailsSize(Popped(d, t)) <= DetailsSize(d) && Counter(start, Popped(d, t)) <= Counter(start, d)
    decreases t
  {
    hide DetailsSize, Counter, PopOne, After;
    if t > 0 {
      PopTracks(start, d);
      PoppedSmaller(start, PopOne(d), t - 1);
    }
  }

  /** Some number of pops ends in such details. */
  ghost predicate ReachesTooLarge(start: Details, d: Details) {
    exists t: nat :: t <= Pops(d) && StopsTooLarge(start, Popped(d, t))
  }

  lemma {:induction false} ReachesAfterPop(start: Details, d: Details)
    requires Pops(d) > 0 && !StopsTooLarge(start, d)
    ensures ReachesTooLarge(start, d) <==> ReachesTooLarge(start, PopOne(d))
  {
    hide PopOne, StopsTooLarge;
    var e := PopOne(d);
    if ReachesTooLarge(start, d) {
      var t: nat :| t <= Pops(d) && StopsTooLarge(start, Popped(d, t));
      assert Popped(d, t) == Popped(e, t - 1);
    }
    if ReachesTooLarge(start, e) {
      var t: nat :| t <= Pops(e) && StopsTooLarge(start, Popped(e, t));
      assert Popped(d, t + 1) == Popped(e, t);
    }
  }

  lemma {:induction false} ReachesAtOnce(start: Details, d: Details)
    requires After(start, d) && (Counter(start, d) <= BYTE_BUDGET || Pops(d) == 0)
    ensures ReachesTooLarge(start, d) <==> StopsTooLarge(start, d)
  {
    hide PopOne, DetailsSize, Drift, After;
    assert Popped(d, 0) == d;
    forall t: nat | t <= Pops(d) && StopsTooLarge(start, Popped(d, t)) ensures StopsTooLarge(start, d) {
      PoppedSmaller(start, d, t);
    }
  }

  /** How the loop ends from a state in the middle of a run that began at `start`. */
  lemma {:induction false} ShrinkEnds(start: Details, d: Details)
    requires After(start, d)
    ensures var o := Shrink(d, Counter(start, d));
      && (o.AssertionFails? <==> ReachesTooLarge(start, d))
      && (o.FixedTooLarge? <==> Counter(start, Popped(d, Pops(d))) > BYTE_BUDGET)
    decreases Pops(d)
  {
    hide DetailsSize, PopOne, Drift, After, ReachesTooLarge;
    if Counter(start, d) > BYTE_BUDGET && Pops(d) > 0 {
      PopTracks(start, d);
      ShrinkEnds(start, PopOne(d));
      ReachesAfterPop(start, d);
    } else {
      ReachesAtOnce(start, d);
      PoppedSmaller(start, d, Pops(d));
    }
  }

  /**
   * The final assertion fails exactly when popping reaches details over the budget whose excess
   * the drift covers: at most one byte for each emptied list. The loop runs out of items
   * exactly when even the emptied details leave the counter over the budget.
   */
  lemma {:induction false} AssertionFailsExactly(d: Details)
    ensures var o := Shrink(d, DetailsSize(d));
      && (o.AssertionFails? <==> ReachesTooLarge(d, d))
      && (o.FixedTooLarge? <==> DetailsSize(Popped(d, Pops(d))) > BYTE_BUDGET + Drift(d, Popped(d, Pops(d))))
  {
    hide DetailsSize, PopOne, StopsTooLarge, ReachesTooLarge;
    ShrinkEnds(d, d);
  }

  // ---------------------------------------------------------------- an oversized issue

  function Letters(n: nat): (s: string)
    ensures |s| == n && Plain(s)
  {
    seq(n, _ => 'a')
  }

  /** Truncated details with one rule version and one issue whose message has `n` letters. */
  function Oversized(n: nat): Details {
    Details(1, 0, [Obj([Field("message", Str(Letters(n)))])], "", Letters(71), [Field("r", Int(1))], true, [], 0)
  }

  lemma {:induction false} IssueSize(n: nat)
    ensures ListSize(Oversized(n).issues) == n + 14
  {
    hide Size, FieldsSize, FieldSize, ListSize;
    var f := Field("message", Str(Letters(n)));
    assert [f] == [f] + [];
    FieldsCons(f, []);
    FieldSizeParts(f);
    ObjectSize([f]);
    PlainText("message");
    PlainText(Letters(n));
    assert Oversized(n).issues == [Obj([f])] + [];
    ItemsCons(Obj([f]), []);
  }

  /** An issue past the callers' bounds can pass the loop one byte too large. */
  lemma {:induction false} AssertionCanFail() returns (d: Details)
    ensures |d.basisHash| == 71 && |d.issues| == 1 && |d.ruleVersions| == 1 && d.missing == []
    ensures Shrink(d, DetailsSize(d)).AssertionFails? && !CallerBounds(d)
  {
    hide Size, DetailsSize, FixedSize, ListSize, FieldsSize, Used;
    FixedFieldsAreSmall(Oversized(0));
    var n: nat := BYTE_BUDGET + 1 - 4 - 14 - FixedSize(Oversized(0));
    d := Oversized(n);
    var e := DropRule(d);
    FixedSame(d, Oversized(0));
    SizeSplits(e);
    FixedSame(d, e);
    IssueSize(n);
    NoFields();
    assert Popped(d, 1) == e by { assert Popped(e, 0) == e; }
    AssertionFailsExactly(d);
    if CallerBounds(d) { GateDetailsAlwaysFit(d); }
  }
}
