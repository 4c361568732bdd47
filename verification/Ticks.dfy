/** The observation series every research module walks. */
module Ticks {

  /** One observation: an instant in microseconds and a price. */
  datatype Tick = Tick(t: int, p: real)

  type Series = seq<Tick>

  datatype Option<+T> = None | Some(value: T)

  /** Microseconds in a second. */
  const MICROS: int := 1_000_000

  /** Microseconds in a day. */
  const DAY: int := 86_400 * MICROS

  /** Time never runs backwards; several ticks may share an instant. */
  ghost predicate Sorted(s: Series) {
    forall i, j :: 0 <= i <= j < |s| ==> s[i].t <= s[j].t
  }

  function Abs(x: real): real {
    if x < 0.0 then -x else x
  }

  function Max(x: real, y: real): real {
    if x < y then y else x
  }

  function Min(x: real, y: real): real {
    if y < x then y else x
  }
}
