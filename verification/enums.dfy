/** The enumerations of src/Mario-7/src/enums.js as datatypes, with the
    numeric codes the source gives them. */
module Enums {

  datatype TileType = Ground | Empty {
    function Code(): int {
      match this
      case Ground => 2
      case Empty => 4
    }
  }

  datatype Direction =
    | Up | Down | Left | Right
    | TopLeft | TopRight | RightTop | RightBottom
    | BottomRight | BottomLeft | LeftBottom | LeftTop
  {
    function Code(): int {
      match this
      case Up => 0
      case Down => 1
      case Left => 2
      case Right => 3
      case TopLeft => 4
      case TopRight => 5
      case RightTop => 6
      case RightBottom => 7
      case BottomRight => 8
      case BottomLeft => 9
      case LeftBottom => 10
      case LeftTop => 11
    }
  }

  /** The four registered player states (`PlayerStateName`). */
  datatype PlayerState = Idle | Walking | Jumping | Falling
}
