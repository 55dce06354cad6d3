/** Outcomes of the report functions. The date filter, the card summary,
    the top transactions, the weekday report and the transfer search each
    catch any exception and return the text `<prefix><str(e)>` instead of
    their result; the model returns `Err(f)` with the exception `f` as a
    value, and `Message` gives the text the source returns. The greeting
    has no handler and cannot fail on a valid clock reading. */
module Outcomes {
  import Text

  datatype Option<+T> = None | Some(value: T)

  /** Why `strptime` or `datetime` refused a value (a `ValueError`). */
  datatype TimeError =
    | NoMatch(data: string, format: string)   // the text does not fit the format
    | Unconverted(rest: string)               // text is left after the format
    | YearOutOfRange(year: int)
    | DayOutOfRange
    | SecondOutOfRange

  /** The exceptions the modelled code can raise. */
  datatype Failure =
    | MissingColumn(column: string)   // KeyError from `df[column]`
    | NotText(typeName: string)       // TypeError: `strptime` given a non-`str` cell
    | BadTime(reason: TimeError)      // ValueError from `strptime` or date arithmetic
    | MaskWithNA                      // ValueError: a boolean mask holding NaN
    | NoLocOnText                     // AttributeError: `.loc` asked of an error string

  datatype Result<+T> = Ok(value: T) | Err(error: Failure) {
    predicate IsFailure() { Err? }
    function PropagateFailure<U>(): Result<U> requires Err? { Err(error) }
    function Extract(): T requires Ok? { value }
  }

  /** `str(e)` for the exception `e`. */
  function Describe(f: Failure): string
  {
    match f
    case MissingColumn(c) => "'" + c + "'"
    case NotText(t) => "strptime() argument 1 must be str, not " + t
    case BadTime(NoMatch(d, fmt)) => "time data '" + d + "' does not match format '" + fmt + "'"
    case BadTime(Unconverted(rest)) => "unconverted data remains: " + rest
    case BadTime(YearOutOfRange(y)) => "year " + Text.IntText(y) + " is out of range"
    case BadTime(DayOutOfRange) => "day is out of range for month"
    case BadTime(SecondOutOfRange) => "second must be in 0..59"
    case MaskWithNA => "Cannot mask with non-boolean array containing NA / NaN values"
    case NoLocOnText => "'str' object has no attribute 'loc'"
  }

  /** The prefix of the error texts of src/utils.py and src/services.py. */
  const UtilsPrefix: string := "Произошла ошибка "
  /** The prefix of the error texts of src/reports.py (lower case). */
  const ReportsPrefix: string := "произошла ошибка "

  /** The text the source returns in place of a result. */
  function Message(prefix: string, f: Failure): (m: string)
    ensures |prefix| <= |m| && m[..|prefix|] == prefix
  {
    prefix + Describe(f)
  }
}
