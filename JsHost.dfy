/** The two host-library parsers the components call and do not implement:
    `parseFloat(text)` (None stands for NaN) and `new Date(text)` (None stands
    for an Invalid Date, whose `getTime()` is NaN). They are parameters of the
    model, so every property holds whatever they return. */
module JsHost {
  import opened Wrappers
  import opened Calendar

  datatype Host = Host(parseFloat: string -> Option<real>, parseDate: string -> Option<Moment>)
}
