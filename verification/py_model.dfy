/** The Python values the extraction scripts handle: scalar cells of the tuples
    that the (unseen) feed and comment readers return, and the exceptions the
    scripts' `try`/`except` blocks catch. */
module PyModel {
  import opened Results
  import Decimal

  /** The exception that aborted a computation. Every `except:` in the scripts
      catches all of them alike; the kind only documents why the code raised. */
  datatype PyError =
    | AttributeError  // `.get` on something that is not a dict
    | TypeError       // `in`, `[key]` or iteration on the wrong kind of value
    | KeyError        // `d[key]` on a dict without that key
    | IndexError      // a tuple shorter than the index read
    | ParseError      // `xmltodict.parse` rejected its input
    | DriverError     // the database reader raised

  /** A scalar cell of a result tuple. */
  datatype Value = Int(i: int) | Text(s: string) | NoneV {
    /** Python truthiness: `0`, `""` and `None` are false. */
    predicate Truthy() {
      match this
      case Int(i) => i != 0
      case Text(s) => s != ""
      case NoneV => false
    }
  }

  /** `x if x else ""`: a falsy value replaced by the empty string. */
  function OrEmpty(v: Value): (r: Value)
    ensures v.Truthy() ==> r == v
    ensures !v.Truthy() ==> r == Text("")
  {
    if v.Truthy() then v else Text("")
  }

  /** Python `str(v)`: an integer in decimal, text unchanged, `None` spelled out. */
  function PyStr(v: Value): (r: string)
    ensures v.Int? ==> Decimal.Canonical(r) && Decimal.ParseDecimal(r) == Some(v.i)
    ensures v.Text? ==> r == v.s
    ensures v.NoneV? ==> r == "None"
  {
    match v
    case Int(i) => Decimal.DecimalRoundTrip(i); Decimal.Decimal(i)
    case Text(s) => s
    case NoneV => "None"
  }

  /** A tuple returned by the database reader. */
  type Row = seq<Value>
}
