/** The two kinds of Python value that the `snippet` argument takes: the
    boolean default and a text. */
module PyValues {

  datatype PyValue = PyBool(b: bool) | PyStr(s: string)

  /** Python truthiness, as `if snippet:` tests it: a boolean is itself, a
      text is true when it is not empty. */
  predicate Truthy(v: PyValue)
  {
    match v
    case PyBool(b) => b
    case PyStr(s) => s != ""
  }

  /** What an f-string replacement field `{snippet}` renders: `str(v)`. */
  function Str(v: PyValue): (r: string)
    ensures v.PyBool? ==> (r == "True" <==> v.b)
    ensures v.PyStr? ==> r == v.s
  {
    match v
    case PyBool(b) => if b then "True" else "False"
    case PyStr(s) => s
  }
}
