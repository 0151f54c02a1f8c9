/**
 * JavaScript value conventions the components rely on: optional values
 * (`null` / `undefined`), string truthiness and `||` defaulting, the outcome
 * of an awaited call that may throw, and `Array.prototype.slice`.
 */
module JsValues {

  /** A value that may be `null` or `undefined` (both are `None`). */
  datatype Option<+T> = None | Some(value: T)

  /**
   * The outcome of an awaited call: it either returned a value or threw an
   * error. An error is represented by its `message`; a missing message is
   * the empty string, since every use of it (`?.includes`, `||`) treats the
   * two alike.
   */
  datatype Settled<+T> = Returned(value: T) | Threw(message: string)

  /** JavaScript truthiness of a `string | null | undefined`: present and non-empty. */
  predicate Truthy(o: Option<string>) {
    o.Some? && o.value != ""
  }

  /** `o || fallback` for an optional string. */
  function OrElse(o: Option<string>, fallback: string): (r: string)
    ensures Truthy(o) ==> r == o.value
    ensures !Truthy(o) ==> r == fallback
    ensures fallback != "" ==> r != ""
  {
    if Truthy(o) then o.value else fallback
  }

  function Min(a: int, b: int): int {
    if a <= b then a else b
  }

  function Max(a: int, b: int): int {
    if a <= b then b else a
  }

  /** Resolves a `slice` argument: negative positions count from the end, all are clamped to `[0, n]`. */
  function SliceIndex(x: int, n: nat): (k: nat)
    ensures k <= n
    ensures 0 <= x <= n ==> k == x
    ensures x > n ==> k == n
    ensures x < 0 && n + x >= 0 ==> k == n + x
    ensures n + x < 0 ==> k == 0
  {
    if x < 0 then Max(n + x, 0) else Min(x, n)
  }

  /** `s.slice(start, end)`; an empty result when the resolved start is not before the resolved end. */
  function Slice<T>(s: seq<T>, start: int, end: int): (r: seq<T>)
    ensures var from, to := SliceIndex(start, |s|), SliceIndex(end, |s|);
      && |r| == Max(to - from, 0)
      && forall i :: 0 <= i < |r| ==> r[i] == s[from + i]
  {
    var from, to := SliceIndex(start, |s|), SliceIndex(end, |s|);
    if from < to then s[from..to] else []
  }
}
