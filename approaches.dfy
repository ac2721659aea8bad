/** Stop lines ("approaches") as the signal controller and the bus see them:
    each one has a key, the colour last painted on it and a position. */
module Approaches {

  type Key = string

  datatype Option<T> = None | Some(value: T)

  /** The three colours a stop line is painted with. */
  datatype Colour = Green | Yellow | Red

  datatype Point = Point(x: real, y: real)

  /** One stop-line turtle: its fill colour and where it stands. */
  datatype StopLine = StopLine(colour: Colour, at: Point)

  /** The stop-line registry the map creates. The controller repaints its
      entries in place and the bus reads their positions, so it is shared. */
  class Registry {
    var lines: map<Key, StopLine>

    constructor (lines: map<Key, StopLine>)
      ensures this.lines == lines
    {
      this.lines := lines;
    }
  }
}
