/** The few Python values and operations the checks depend on: the shapes an
    attribute of a parsed Terraform resource can take, truthiness, `dict.get`
    and list membership. */
module Python {

  /** An attribute value as the checks can see it: `None`, a string, or a list
      of such values. Python's `==` on these shapes is structural equality
      (None equals only None, strings compare by content, lists element by
      element), which is Dafny's `==` on this datatype. */
  datatype PyVal = PyNone | Str(s: string) | PyList(items: seq<PyVal>)

  /** The attribute map of one resource (`conf`). */
  type Conf = map<string, PyVal>

  /** Python truthiness: exactly `None`, `""` and `[]` are falsy. */
  function Truthy(v: PyVal): (r: bool)
    ensures r <==> v !in {PyNone, Str(""), PyList([])}
  {
    match v
    case PyNone => false
    case Str(s) => |s| > 0
    case PyList(xs) => |xs| > 0
  }

  /** `conf.get(key, default)`. */
  function Get(conf: Conf, key: string, default: PyVal): PyVal {
    if key in conf then conf[key] else default
  }

  /** `v in xs` for a Python list: the elements are compared with `==`, left to right. */
  function InList(v: PyVal, xs: seq<PyVal>): (r: bool)
    ensures r <==> v in xs
  {
    if |xs| == 0 then false
    else
      assert xs == [xs[0]] + xs[1..];
      xs[0] == v || InList(v, xs[1..])
  }
}
