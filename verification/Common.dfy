/** What every part of the model uses. */
module Common {

  /** A value that may be missing: a null pointer, an absent element, a search that found nothing. */
  datatype Option<+T> = None | Some(value: T)

  function Max(a: int, b: int): int {
    if a > b then a else b
  }

  function Without<T>(s: seq<T>, k: nat): seq<T>
    requires k < |s|
  {
    s[..k] + s[k + 1..]
  }
}
