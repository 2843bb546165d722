/** JavaScript value conventions shared by the backend triggers and the service worker.

    A string-valued field that JavaScript reads as falsy (missing, null or the empty
    string) is represented by the empty string, so `s || fallback` becomes OrElse.
    Fields whose absence the source treats differently from every present value
    are wrapped in Option. */
module JsValues {

  datatype Option<+T> = None | Some(value: T)

  /** `s || fallback` on a string. */
  function OrElse(s: string, fallback: string): string {
    if s != "" then s else fallback
  }

  function Min(a: int, b: int): int {
    if a <= b then a else b
  }

  /** `s.substring(0, n)`: the first n characters of s, or all of s when it is shorter. */
  function Prefix(s: string, n: nat): (r: string)
    ensures r <= s
    ensures |r| == Min(|s|, n)
  {
    if |s| <= n then s else s[..n]
  }
}
