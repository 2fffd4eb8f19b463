/** The live segment that the playlist window and the archive accumulator share. */
module Segments {
  import opened Wrappers
  import opened Bytes

  /** Only the duration changes after construction, when a playlist names the segment. */
  class LiveSegment {
    const sequence: nat
    const name: string
    const data: Bytes
    const createdAt: int
    const streamId: Option<string>
    const discontinuity: nat
    var duration: real

    constructor (sequence: nat, name: string, data: Bytes, createdAt: int, duration: real,
                 streamId: Option<string>, discontinuity: nat)
      ensures this.sequence == sequence && this.name == name && this.data == data && this.createdAt == createdAt
      ensures this.duration == duration && this.streamId == streamId && this.discontinuity == discontinuity
    {
      this.sequence, this.name, this.data, this.createdAt := sequence, name, data, createdAt;
      this.duration, this.streamId, this.discontinuity := duration, streamId, discontinuity;
    }
  }

  /** The payload bytes of some segments; no change of a duration affects them. */
  function DataSize(segments: seq<LiveSegment>): (r: nat)
    ensures segments == [] ==> r == 0
  {
    if segments == [] then 0 else DataSize(segments[..|segments| - 1]) + |segments[|segments| - 1].data|
  }

  lemma {:induction false} DataSizeOne(segments: seq<LiveSegment>, segment: LiveSegment)
    ensures DataSize(segments + [segment]) == DataSize(segments) + |segment.data|
  {
    assert (segments + [segment])[..|segments|] == segments;
  }

  lemma {:induction false} DataSizeFirst(segments: seq<LiveSegment>)
    requires segments != []
    ensures DataSize(segments) == |segments[0].data| + DataSize(segments[1..])
    decreases |segments|
  {
    if |segments| == 1 {
      assert segments[..0] == [];
    } else {
      var init := segments[..|segments| - 1];
      DataSizeFirst(init);
      assert init[1..] == segments[1..][..|segments| - 2];
    }
  }
}
