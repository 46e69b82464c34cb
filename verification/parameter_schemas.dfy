/**
 * The grading-parameter record and its request bodies: the field bounds
 * and defaults of `ParameterCreate`, and the all-optional `ParameterUpdate`.
 */
module ParameterSchemas {
  import opened Common
  import opened SchemaFields

  /** The eight grading thresholds, counted in issues. */
  datatype Thresholds = Thresholds(
    formatExcellent: int, formatGood: int, formatPassing: int, formatFailure: int,
    titleExcellent: int, titleGood: int, titlePassing: int, titleFailure: int)
  {
    /** Each threshold is at least 0; nothing relates one threshold to another. */
    predicate NonNegative() {
      formatExcellent >= 0 && formatGood >= 0 && formatPassing >= 0 && formatFailure >= 0
      && titleExcellent >= 0 && titleGood >= 0 && titlePassing >= 0 && titleFailure >= 0
    }
  }

  /** The column and field defaults: format 0/3/10/20, title 0/1/3/5. */
  const DefaultThresholds: Thresholds := Thresholds(0, 3, 10, 20, 0, 1, 3, 5)

  const DefaultDuplicateRate: real := 15.0
  const DefaultScope: string := "global"

  /** `^(global|department|major)$`. */
  predicate ScopeValid(s: string) {
    s == "global" || s == "department" || s == "major"
  }

  /** A `ParameterCreate` body as received, defaults already filled in for omitted fields. */
  datatype ParameterCreate = ParameterCreate(
    name: string,
    duplicateRate: real,
    thresholds: Thresholds,
    scope: string,
    scopeId: Option<string>)

  /** A body giving only a name: every other field takes its default. */
  function CreateWithDefaults(name: string): ParameterCreate {
    ParameterCreate(name, DefaultDuplicateRate, DefaultThresholds, DefaultScope, None)
  }

  /** The fields of a `ParameterCreate` body that break their bounds. */
  function ParameterCreateErrors(d: ParameterCreate): (errs: seq<string>)
    ensures errs == [] <==> |d.name| <= 100 && 0.0 <= d.duplicateRate <= 100.0
                            && d.thresholds.NonNegative() && ScopeValid(d.scope)
  {
    Check(|d.name| <= 100, "name")
    + Check(0.0 <= d.duplicateRate <= 100.0, "duplicate_rate_threshold")
    + Check(d.thresholds.NonNegative(), "thresholds")
    + Check(ScopeValid(d.scope), "application_scope")
  }

  /**
   * `ParameterCreate`: name at most 100 characters, duplicate rate in
   * [0, 100], every threshold at least 0, scope one of the three names.
   */
  function ValidateParameterCreate(d: ParameterCreate): (r: Result<ParameterCreate>)
    ensures r.Ok? <==> |d.name| <= 100 && 0.0 <= d.duplicateRate <= 100.0
                       && d.thresholds.NonNegative() && ScopeValid(d.scope)
    ensures r.Ok? ==> r.value == d
    ensures r.Err? ==> r.error.Unprocessable?
  {
    FromErrors(ParameterCreateErrors(d), d)
  }

  /**
   * A `ParameterUpdate` body: `None` is a field left unset. `scopeId` is the
   * one nullable column, so it can also be set to null explicitly.
   */
  datatype ParameterUpdate = ParameterUpdate(
    name: Option<string>,
    duplicateRate: Option<real>,
    formatExcellent: Option<int>, formatGood: Option<int>, formatPassing: Option<int>, formatFailure: Option<int>,
    titleExcellent: Option<int>, titleGood: Option<int>, titlePassing: Option<int>, titleFailure: Option<int>,
    scope: Option<string>,
    scopeId: Option<Option<string>>)

  const EmptyUpdate: ParameterUpdate :=
    ParameterUpdate(None, None, None, None, None, None, None, None, None, None, None, None)

  predicate NonNegativeOr(o: Option<int>) { o.None? || o.value >= 0 }

  /** `ParameterUpdate`: every field optional, with the create bounds applied to the ones present. */
  function ValidateParameterUpdate(d: ParameterUpdate): (r: Result<ParameterUpdate>)
    ensures r.Ok? <==>
              LenAtMost(d.name, 100)
              && (d.duplicateRate.None? || 0.0 <= d.duplicateRate.value <= 100.0)
              && NonNegativeOr(d.formatExcellent) && NonNegativeOr(d.formatGood)
              && NonNegativeOr(d.formatPassing) && NonNegativeOr(d.formatFailure)
              && NonNegativeOr(d.titleExcellent) && NonNegativeOr(d.titleGood)
              && NonNegativeOr(d.titlePassing) && NonNegativeOr(d.titleFailure)
              && (d.scope.None? || ScopeValid(d.scope.value))
    ensures r.Ok? ==> r.value == d
    ensures r.Err? ==> r.error.Unprocessable?
  {
    var thresholdsOk :=
      NonNegativeOr(d.formatExcellent) && NonNegativeOr(d.formatGood)
      && NonNegativeOr(d.formatPassing) && NonNegativeOr(d.formatFailure)
      && NonNegativeOr(d.titleExcellent) && NonNegativeOr(d.titleGood)
      && NonNegativeOr(d.titlePassing) && NonNegativeOr(d.titleFailure);
    FromErrors(
      Check(LenAtMost(d.name, 100), "name")
      + Check(d.duplicateRate.None? || 0.0 <= d.duplicateRate.value <= 100.0, "duplicate_rate_threshold")
      + Check(thresholdsOk, "thresholds")
      + Check(d.scope.None? || ScopeValid(d.scope.value), "application_scope"),
      d)
  }

  /**
   * The bounds and nothing more: the defaults satisfy every bound, so a body
   * with just a short name is accepted; no ordering between thresholds is
   * enforced, so even a reversed set is accepted; and an empty update body is
   * valid.
   */
  lemma SchemaLaws(name: string, t: Thresholds)
    ensures |name| <= 100 ==> ValidateParameterCreate(CreateWithDefaults(name)).Ok?
    ensures |name| <= 100 && t.NonNegative() ==>
              ValidateParameterCreate(ParameterCreate(name, DefaultDuplicateRate, t, DefaultScope, None)).Ok?
    ensures |name| <= 100 ==>
              ValidateParameterCreate(ParameterCreate(name, DefaultDuplicateRate,
                Thresholds(20, 10, 3, 0, 5, 3, 1, 0), DefaultScope, None)).Ok?
    ensures ValidateParameterUpdate(EmptyUpdate).Ok?
  {
  }
}
