/**
  The receiver of decoded data. The reader hands what it decodes to a buffer
  through `set_version`, `set_palette`, `set_num_models`, `set_model_size` and
  `set_voxel`; the buffer's own implementations belong to the data module,
  which is not part of this model, so the buffer here records the calls it
  receives, in order.
*/
module Sink {
  import opened Types

  /** One call the reader makes on its buffer. */
  datatype Event =
    | SetVersion(version: Version)
    | SetPalette(palette: Palette)
    | SetNumModels(numModels: nat)
    | SetModelSize(size: Vector)
    | SetVoxel(voxel: Voxel)

  /** A buffer that keeps the calls made on it, oldest first. */
  class EventLog {
    var events: seq<Event>

    constructor()
      ensures events == []
    {
      events := [];
    }

    method SetVersion(version: Version)
      modifies this
      ensures events == old(events) + [Event.SetVersion(version)]
    {
      events := events + [Event.SetVersion(version)];
    }

    method SetPalette(palette: Palette)
      modifies this
      ensures events == old(events) + [Event.SetPalette(palette)]
    {
      events := events + [Event.SetPalette(palette)];
    }

    method SetNumModels(numModels: nat)
      modifies this
      ensures events == old(events) + [Event.SetNumModels(numModels)]
    {
      events := events + [Event.SetNumModels(numModels)];
    }

    method SetModelSize(size: Vector)
      modifies this
      ensures events == old(events) + [Event.SetModelSize(size)]
    {
      events := events + [Event.SetModelSize(size)];
    }

    method SetVoxel(voxel: Voxel)
      modifies this
      ensures events == old(events) + [Event.SetVoxel(voxel)]
    {
      events := events + [Event.SetVoxel(voxel)];
    }
  }
}
