/** The `arguments` object of a tools/call request. The protocol delivers it as an
    arbitrary JSON object that no handler validates up front; each handler reads the
    keys it needs with `args?.key` and applies JavaScript's own truthiness and
    string interpolation to what it finds. */
module Arguments {

  datatype Option<+T> = None | Some(value: T)

  /** One argument value. A JSON string is kept as it is. Any other JSON value
      (number, boolean, null, array, object) is kept as the only two things the
      handlers can observe of it: what a template literal turns it into, and whether
      JavaScript treats it as truthy. The conversion is `None` when it throws a
      TypeError: an object whose `toString` is not callable (such as
      `{"toString": 0}`), since its `valueOf` gives back the object itself, or an
      array holding such an object. */
  datatype Value = Str(s: string) | NonString(display: Option<string>, truthy: bool)

  /** A missing `arguments` object behaves like the empty one under `args?.key`. */
  type Args = map<string, Value>

  /** JavaScript truthiness: the empty string is the only falsy string. */
  predicate Truthy(v: Value)
  {
    match v
    case Str(s) => s != ""
    case NonString(_, truthy) => truthy
  }

  /** The text `${v}` produces, or `None` when the conversion throws a TypeError. */
  function Display(v: Value): Option<string>
  {
    match v
    case Str(s) => Some(s)
    case NonString(display, _) => display
  }

  /** `args?.key` is defined and truthy. */
  predicate Present(args: Args, key: string)
  {
    key in args && Truthy(args[key])
  }

  /** `args?.key` is truthy but cannot be interpolated into a template literal. */
  predicate Unprintable(args: Args, key: string)
  {
    Present(args, key) && Display(args[key]).None?
  }
}
