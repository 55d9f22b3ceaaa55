/**
 * The values a decoded spreadsheet holds and the foreign conversions applied to them.
 *
 * A cell is what the spreadsheet reader yields for one grid position: nothing, a string
 * or a number. Converting a number to text (Number#toString), reading a number out of
 * text (parseFloat) and reading a date out of text (Date.parse) involve floating point
 * and host-specific parsing; they are the fields of a Host, supplied by the caller.
 * What ECMAScript fixes independently of the host is written out here: blank text never
 * parses as a number, `undefined` is never a date, and a number becomes a Date through
 * TimeClip. That the empty string is never a date is an assumption: the standard leaves
 * Date.parse of a string it does not recognise to the implementation, and engines give
 * NaN for it.
 */
module Cells {
  import opened Values
  import opened Text

  datatype Cell = Undefined | Str(s: string) | Num(x: real)

  /** The foreign conversions. None stands for NaN (and, for parseNumber, also for the
      infinities, which every range test and JSON.stringify treat as NaN is treated). */
  datatype Host = Host(
    numberText: real -> string,
    parseNumber: string -> Option<real>,
    parseDate: string -> Option<int>)

  /** A category as the Categories service lists it. */
  datatype Category = Category(id: int, name: string)

  /** The record kind an import modal is opened for. */
  datatype Kind = PoiKind | EventKind

  /** JavaScript truthiness of a cell. */
  function Truthy(c: Cell): (b: bool)
    ensures !b <==> c == Undefined || c == Str("") || c == Num(0.0)
  {
    match c
    case Undefined => false
    case Str(s) => |s| > 0
    case Num(x) => x != 0.0
  }

  /** String(c), as toString, template literals and FormData.append render it. */
  function Show(host: Host, c: Cell): (r: string)
    ensures c.Str? ==> r == c.s
    ensures c == Undefined ==> r == "undefined"
    ensures c.Num? ==> r == host.numberText(c.x)
  {
    match c
    case Undefined => "undefined"
    case Str(s) => s
    case Num(x) => host.numberText(x)
  }

  /** parseFloat(String(c)). */
  function ParseFloat(host: Host, c: Cell): (r: Option<real>)
    ensures c.Num? ==> r == Some(c.x)
    ensures c == Undefined || (c.Str? && IsBlank(c.s)) ==> r == None
  {
    match c
    case Undefined => None
    case Str(s) => ParseFloatText(host, s)
    case Num(x) => Some(x)
  }

  function ParseFloatText(host: Host, s: string): (r: Option<real>)
    ensures IsBlank(s) ==> r == None
  {
    if IsBlank(s) then None else host.parseNumber(s)
  }

  /** ToIntegerOrInfinity on a finite value: truncation toward zero. */
  function Truncate(x: real): (n: int)
    ensures x >= 0.0 ==> n as real <= x < n as real + 1.0
    ensures x < 0.0 ==> n as real - 1.0 < x <= n as real
  {
    if x >= 0.0 then x.Floor else -((-x).Floor)
  }

  /** The largest magnitude of a valid time value, in milliseconds. */
  const MaxTime: real := 8640000000000000.0

  /** new Date(c).getTime(), None for an Invalid Date. */
  function NewDate(host: Host, c: Cell): (r: Option<int>)
    ensures c == Undefined || c == Str("") ==> r == None
    ensures c.Num? ==> (r.Some? <==> -MaxTime <= c.x <= MaxTime)
  {
    match c
    case Undefined => None
    case Str(s) => if |s| == 0 then None else host.parseDate(s)
    case Num(x) => if -MaxTime <= x <= MaxTime then Some(Truncate(x)) else None
  }
}
