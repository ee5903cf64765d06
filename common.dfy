/** Values shared by the models of the tracker's server and views. */
module Common {

  /** A value that may be absent: a JSON field that is undefined or null, a missing map entry. */
  datatype Option<+T> = None | Some(value: T)

  /** A calendar day, counted in days from the Unix epoch (day 0, what `new Date(null)` gives);
      the task tables store dates, not times. */
  type Day = int

  /** A JavaScript number restricted to what the models need: a finite value or NaN. */
  datatype JsNumber = Num(r: real) | NaN
}
