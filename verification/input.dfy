/** The two-button input sampler. */
module Input {
  /** The latest sampled intent: `Neither` stands for the program's `None`. */
  datatype Direction = Neither | Left | Right

  /** Turns the two pin levels into a direction. The buttons are active-low:
      a button is pressed when its pin reads low (`false`). When both are
      pressed neither wins. */
  function DirectionOf(leftHigh: bool, rightHigh: bool): (d: Direction)
    ensures d == Left <==> !leftHigh && rightHigh
    ensures d == Right <==> !rightHigh && leftHigh
    ensures d == Neither <==> leftHigh == rightHigh
  {
    var left := !leftHigh;
    var right := !rightHigh;
    if left && !right then Left
    else if right && !left then Right
    else Neither
  }
}
