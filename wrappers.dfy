/** Option, the datatype the model uses for values that may be missing
    (nullable columns, optional form fields, a database call that failed),
    and JavaScript's and Python's truthiness of optional strings. */
module Wrappers {

  datatype Option<+T> = None | Some(value: T) {
    function GetOr(default: T): T {
      match this
      case Some(v) => v
      case None => default
    }
  }

  /** Truthiness of an optional string in Python and JavaScript alike
      (`if sub_category:`, `apt.notes || ''`): present and not empty. */
  predicate Truthy(o: Option<string>) {
    o.Some? && o.value != ""
  }

  /** `o || d` on an optional string: the value when truthy, else `d`. */
  function OrElse(o: Option<string>, d: string): (r: string)
    ensures Truthy(o) ==> r == o.value
    ensures !Truthy(o) ==> r == d
    ensures r != "" <==> Truthy(o) || d != ""
  {
    if Truthy(o) then o.value else d
  }
}
