/** Options of the older package goflat (flat_options.go, common.go): a
    record with a delimiter only, normalised before use. */
module LegacyOptions {
  import opened Outcomes

  const DefaultDelimiter: string := "."

  datatype LegacyOptions = LegacyOptions(delimiter: string)

  /** What createDefultOptionsIfNil hands back: the options to use, and the
      caller's own record afterwards. The function writes the substituted
      delimiter through the caller's pointer and returns that same pointer,
      so a caller that passed a record sees it changed. */
  datatype Normalised = Normalised(effective: LegacyOptions, callerAfter: Option<LegacyOptions>)

  /** createDefultOptionsIfNil: nil options become {Delimiter: "."}, an empty
      delimiter is replaced by "." in place, anything else is left alone. */
  function CreateDefaultOptionsIfNil(p: Option<LegacyOptions>): (r: Normalised)
    ensures r.effective.delimiter != ""
    ensures p.None? ==> r.effective == LegacyOptions(DefaultDelimiter) && r.callerAfter == None
    ensures p.Some? && p.value.delimiter == "" ==> r.effective.delimiter == DefaultDelimiter
    ensures p.Some? && p.value.delimiter != "" ==> r.effective == p.value
    ensures p.Some? ==> r.callerAfter == Some(r.effective)
  {
    var o := if p.None? then LegacyOptions(DefaultDelimiter) else p.value;
    var o' := if o.delimiter == "" then o.(delimiter := DefaultDelimiter) else o;
    Normalised(o', if p.None? then None else Some(o'))
  }
}
