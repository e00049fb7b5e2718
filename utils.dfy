/** `utils.clamp` of script.js, on integers. */
module Utils {

  /**
   * `Math.min(Math.max(value, min), max)`: within [min, max] when that range
   * is not empty, `value` itself when it already lies there, and `max` when
   * the bounds are the wrong way round.
   */
  function Clamp(value: int, min: int, max: int): (r: int)
    ensures min <= max ==> min <= r <= max
    ensures min <= value <= max ==> r == value
    ensures min <= max && value < min ==> r == min
    ensures value > max ==> r == max
    ensures min > max ==> r == max
  {
    var low := if value >= min then value else min;
    if low <= max then low else max
  }
}
