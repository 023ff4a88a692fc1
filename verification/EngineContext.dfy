/** The unit of work of engines/base.py that flows through the frame pipeline. */
module EngineContexts {
  import opened Prelude

  datatype Direction = Up | Down

  class EngineContext {
    const direction: Direction
    var frames: seq<bytes>

    constructor (direction: Direction, frames: seq<bytes>)
      ensures this.direction == direction && this.frames == frames
    {
      this.direction := direction;
      this.frames := frames;
    }
  }
}
