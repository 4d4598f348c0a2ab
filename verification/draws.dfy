/** Draws of `Math.random()`, passed to the game logic as explicit arguments. */
module Draws {

  /** One value returned by `Math.random()`: a real in [0, 1). */
  type Draw = r: real | 0.0 <= r < 1.0

  /** `Math.floor(Math.random() * n)`: an index into a collection of `n` values. */
  function Scaled(u: Draw, n: nat): (k: int)
    ensures n > 0 ==> 0 <= k < n
    ensures n == 0 ==> k == 0
  {
    assert u * n as real < 1.0 * n as real || n == 0;
    (u * n as real).Floor
  }

  /** `Math.random() * 100`: the percentage roll of the gacha and of the random events. */
  function Percent(u: Draw): (r: real)
    ensures 0.0 <= r < 100.0
  {
    u * 100.0
  }
}
