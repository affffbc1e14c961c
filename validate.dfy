/** The request validators of the JSON handlers (`validateUpdateJSON`,
    `validateGetMetricJSON`; the older handlers carry identical copies). */
module Validate {
  import opened Wrappers
  import opened Models
  import opened AppErrors

  predicate IsKnownType(t: string)
  {
    t == GaugeType || t == CounterType
  }

  /** The record carries the field its type needs: `value` for a gauge, `delta` for a counter. */
  predicate HasMatchingField(m: Metrics)
  {
    (m.mtype == GaugeType && m.value.Some?) || (m.mtype == CounterType && m.delta.Some?)
  }

  /** `validateUpdateJSON`: the id first, then the type, then the field the type needs. */
  function ValidateUpdateJSON(m: Metrics): (r: Option<AppError>)
    ensures r.None? <==> m.id != "" && HasMatchingField(m)
    ensures m.id == "" ==> r == Some(ErrFieldIDRequired)
    ensures m.id != "" && !IsKnownType(m.mtype) ==> r == Some(ErrFieldTypeInvalid)
    ensures r == Some(ErrFieldValueRequired) <==> m.id != "" && m.mtype == GaugeType && m.value.None?
    ensures r == Some(ErrFieldDeltaRequired) <==> m.id != "" && m.mtype == CounterType && m.delta.None?
  {
    if m.id == "" then Some(ErrFieldIDRequired)
    else if !(m.mtype == GaugeType || m.mtype == CounterType) then Some(ErrFieldTypeInvalid)
    else if m.mtype == GaugeType then
      if m.value.None? then Some(ErrFieldValueRequired) else None
    else
      if m.delta.None? then Some(ErrFieldDeltaRequired) else None
  }

  /** `validateGetMetricJSON`: only the id and the type are checked. */
  function ValidateGetMetricJSON(m: Metrics): (r: Option<AppError>)
    ensures r.None? <==> m.id != "" && IsKnownType(m.mtype)
    ensures m.id == "" ==> r == Some(ErrFieldIDRequired)
    ensures m.id != "" && !IsKnownType(m.mtype) ==> r == Some(ErrFieldTypeInvalid)
  {
    if m.id == "" then Some(ErrFieldIDRequired)
    else if !(m.mtype == GaugeType || m.mtype == CounterType) then Some(ErrFieldTypeInvalid)
    else None
  }

  /** Every record accepted for an update is accepted for a read, and both validators agree
      on the id and type errors. */
  lemma UpdateAcceptedIsReadable(m: Metrics)
    ensures ValidateUpdateJSON(m).None? ==> ValidateGetMetricJSON(m).None?
    ensures ValidateGetMetricJSON(m).Some? ==> ValidateUpdateJSON(m) == ValidateGetMetricJSON(m)
  {
  }

  /** The optional field the type does not use is never looked at. */
  lemma UnusedFieldIgnored(m: Metrics, d: Option<int64>, v: Option<real>)
    ensures m.mtype == GaugeType ==> ValidateUpdateJSON(m.(delta := d)) == ValidateUpdateJSON(m)
    ensures m.mtype == CounterType ==> ValidateUpdateJSON(m.(value := v)) == ValidateUpdateJSON(m)
  {
  }
}
