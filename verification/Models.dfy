/** The records the pipeline passes around, and the ways reading a work log
    can fail. */
module Models {
  import opened Dates

  /** One logged piece of work. The optional line number and start/end
      timestamps of the record are never set by the code modelled here. */
  datatype WorkUnit = WorkUnit(date: Date, client: string, minutes: int, description: string)

  /** Minutes worked on one date against the daily quota. */
  datatype DayStat = DayStat(date: Date, minutes: int, diff: int, carryover: int)

  /** Minutes worked in one (year, ISO week) bucket against the weekly quota. */
  datatype WeekStat = WeekStat(year: int, week: int, minutes: int, diff: int, carryover: int)

  /** The weekly record of the older statistics module, keyed by week only. */
  datatype LegacyWeekStat = LegacyWeekStat(week: int, minutes: int, diff: int, carryover: int)

  /** Why reading a work log stopped: strptime rejected a date line, int()
      rejected a duration, a duration came before any date (or, in the older
      reader, before any client) was bound, a duration had no ':', the format
      check failed, or the operation is not available. */
  datatype ScanError =
    | DateParse(line: string)
    | IntParse(line: string)
    | UnboundDate
    | UnboundClient
    | NoColon(line: string)
    | Format(message: string)
    | NotImplemented(message: string)

  datatype Result<T> = Ok(value: T) | Err(error: ScanError)
}
