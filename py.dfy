/** Python values the bot handles: a `str` that may be `None`, the exceptions the
    core can raise, and the result of a call that may raise. */
module Py {

  datatype Option<+T> = None | Some(value: T)

  /** The exceptions that the bot's lookup code can let escape. */
  datatype PyError =
    | AttributeError  // an attribute or method looked up on `None`
    | TypeError       // `str + None`
    | IndexError      // `[][0]`

  /** The outcome of a Python call: a value, or an exception that escaped it. */
  datatype Outcome<+T> = Ok(value: T) | Raised(error: PyError)

  /** An entry of a Python list that holds a `str` or `None`. */
  type Entry = Option<string>

  /** Python truthiness of a value that is a `str` or `None`. */
  predicate Truthy(o: Option<string>) {
    o.Some? && o.value != ""
  }

  function Min(a: nat, b: nat): nat {
    if a <= b then a else b
  }

  /** Python's slice `s[lo:hi]` for non-negative bounds: both bounds are clamped to
      the string, and a slice whose start is past its end is empty. */
  function Slice(s: string, lo: nat, hi: nat): (r: string)
    ensures |r| <= |s|
    ensures lo <= hi <= |s| ==> r == s[lo..hi]
    ensures lo <= |s| <= hi ==> r == s[lo..]
    ensures |s| <= lo ==> r == ""
    ensures hi <= lo ==> r == ""
  {
    var l, h := Min(lo, |s|), Min(hi, |s|);
    if l <= h then s[l..h] else ""
  }
}
