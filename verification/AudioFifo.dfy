/// The planar sample buffer between the browser's audio thread and the frame
/// clock (src/core/audio_fifo.cpp): a ring that, when it overflows, keeps the
/// newest samples.
module AudioFifo {
  import opened Basics

  /// The last `capacity` elements, or all of them.
  function Newest<S>(s: seq<S>, capacity: nat): (r: seq<S>)
    ensures |r| == Min(|s|, capacity)
  {
    if |s| <= capacity then s else s[|s| - capacity..]
  }

  /// A reader asking for `frames`: what there is, then silence.
  function Heard<S>(contents: seq<S>, frames: nat, silence: S): (r: seq<S>)
    ensures |r| == frames
  {
    if |contents| >= frames then contents[..frames] else contents + seq(frames - |contents|, i => silence)
  }

  /// Where sample `c` of frame `f` sits in an interleaved buffer.
  function At(f: nat, c: nat, channels: nat): nat { Times(f, channels) + c }

  lemma AtIs(f: nat, c: nat, channels: nat)
    ensures At(f, c, channels) == f * channels + c
  {
    TimesIs(f, channels);
  }

  lemma AtOrder(g: nat, d: nat, f: nat, c: nat, channels: nat)
    requires d < channels && c < channels && (g < f || (g == f && d < c))
    ensures At(g, d, channels) < At(f, c, channels)
  {
    if g < f { TimesGrows(g, f, channels); }
  }

  datatype Stats = Stats(framesWritten: int, framesRead: int, underruns: int, overruns: int)

  /// A plane holds positions `from` up to `to` of its channel's stream.
  ghost predicate Holds<S>(plane: array<S>, stream: seq<S>, from: nat, to: nat)
    requires 0 < plane.Length && to <= |stream|
    reads plane
  {
    forall p {:trigger Cell(p, plane.Length)} :: from <= p < to ==> plane[Cell(p, plane.Length)] == stream[p]
  }

  /// One memcpy into a plane, of the positions from `from` onwards.
  method CopyRun<S>(plane: array<S>, pos: nat, part: seq<S>, ghost from: nat)
    requires 0 < plane.Length && pos + |part| <= plane.Length && pos == Cell(from, plane.Length)
    modifies plane
    ensures forall p {:trigger Cell(p, plane.Length)} :: from <= p < from + |part| ==> plane[Cell(p, plane.Length)] == part[p - from]
    ensures forall p {:trigger Cell(p, plane.Length)} :: 0 <= p < from && from + |part| <= p + plane.Length ==>
        plane[Cell(p, plane.Length)] == old(plane[Cell(p, plane.Length)])
  {
    for i := 0 to |part|
      invariant forall q :: pos <= q < pos + i ==> plane[q] == part[q - pos]
      invariant forall q :: 0 <= q < plane.Length && !(pos <= q < pos + i) ==> plane[q] == old(plane[q])
    {
      plane[pos + i] := part[i];
    }
    forall p | 0 <= p < from && from + |part| <= p + plane.Length
      ensures plane[Cell(p, plane.Length)] == old(plane[Cell(p, plane.Length)])
    {
      OutsideRun(p, from, |part|, plane.Length);
    }
    forall p | from <= p < from + |part| ensures plane[Cell(p, plane.Length)] == part[p - from] {
      CellAdvances(from, p - from, plane.Length);
    }
  }

  /// One channel's copy in, in chunks that stop at the end of the plane.
  method CopyIn<S>(plane: array<S>, start: nat, part: seq<S>, ghost position: nat)
    requires 0 < plane.Length && |part| <= plane.Length && start == Cell(position, plane.Length)
    modifies plane
    ensures forall p {:trigger Cell(p, plane.Length)} :: position <= p < position + |part| ==>
        plane[Cell(p, plane.Length)] == part[p - position]
    ensures forall p {:trigger Cell(p, plane.Length)} :: 0 <= p < position && position + |part| <= p + plane.Length ==>
        plane[Cell(p, plane.Length)] == old(plane[Cell(p, plane.Length)])
  {
    var pos, done := start, 0;
    while done < |part|
      invariant done <= |part| && pos == Cell(position + done, plane.Length)
      invariant forall p {:trigger Cell(p, plane.Length)} :: position <= p < position + done ==>
          plane[Cell(p, plane.Length)] == part[p - position]
      invariant forall p {:trigger Cell(p, plane.Length)} :: 0 <= p < position && position + |part| <= p + plane.Length ==>
          plane[Cell(p, plane.Length)] == old(plane[Cell(p, plane.Length)])
    {
      var chunk := Min(|part| - done, plane.Length - pos);
      CopyRun(plane, pos, part[done..done + chunk], position + done);
      CellWraps(position + done, chunk, plane.Length);
      pos := (pos + chunk) % plane.Length;
      done := done + chunk;
    }
  }

  /// One channel's copy out, likewise.
  method CopyOut<S>(plane: array<S>, start: nat, dst: array<S>, count: nat, ghost position: nat)
    requires 0 < plane.Length && count <= plane.Length && start == Cell(position, plane.Length)
    requires plane != dst && count <= dst.Length
    modifies dst
    ensures forall i :: 0 <= i < count ==> dst[i] == plane[Cell(position + i, plane.Length)]
    ensures forall i :: count <= i < dst.Length ==> dst[i] == old(dst[i])
  {
    var pos, done := start, 0;
    while done < count
      invariant done <= count && pos == Cell(position + done, plane.Length)
      invariant forall i :: 0 <= i < done ==> dst[i] == plane[Cell(position + i, plane.Length)]
      invariant forall i :: done <= i < dst.Length ==> dst[i] == old(dst[i])
    {
      var chunk := Min(count - done, plane.Length - pos);
      for k := 0 to chunk
        invariant forall i :: 0 <= i < done + k ==> dst[i] == plane[Cell(position + i, plane.Length)]
        invariant forall i :: done + k <= i < dst.Length ==> dst[i] == old(dst[i])
      {
        CellAdvances(position + done, k, plane.Length);
        dst[done + k] := plane[pos + k];
      }
      CellWraps(position + done, chunk, plane.Length);
      pos := (pos + chunk) % plane.Length;
      done := done + chunk;
    }
  }

  class Fifo<S(0)> {
    const silence: S
    var sampleRate: int
    var capacity: nat
    var writePos: nat
    var readPos: nat
    var filled: nat
    /// One array a channel.
    var planes: seq<array<S>>
    var stats: Stats
    /// Per channel, everything that has been in the buffer: positions `base`
    /// to `end` of it are there now, `discarded` of the rest never were read.
    ghost var streams: seq<seq<S>>
    ghost var base: nat
    ghost var end: nat
    ghost var discarded: nat

    ghost predicate Cursors()
      reads this`capacity, this`writePos, this`readPos, this`filled, this`base, this`end
    {
      0 < capacity && filled <= capacity && end == base + filled
      && readPos == Cell(base, capacity) && writePos == Cell(end, capacity)
    }

    ghost predicate Shape()
      reads this`capacity, this`planes, this`streams, this`end
    {
      && |streams| == |planes|
      && (forall c :: 0 <= c < |planes| ==> planes[c].Length == capacity && |streams[c]| == end)
      && (forall c, d :: 0 <= c < d < |planes| ==> planes[c] != planes[d])
    }

    /// An unconfigured buffer has no channels.
    ghost predicate Valid()
      reads this`capacity, this`writePos, this`readPos, this`filled, this`planes, this`streams, this`base, this`end, planes
    {
      && Shape() && (planes != [] ==> Cursors())
      && (forall c :: 0 <= c < |planes| ==> Holds(planes[c], streams[c], base, end))
    }

    /// Frames are neither lost nor made up.
    ghost predicate Conserved()
      reads this`stats, this`discarded, this`filled
    {
      stats.framesWritten == stats.framesRead + discarded + filled
    }

    /// What channel `c` holds.
    ghost function Contents(c: nat): seq<S>
      requires c < |streams| && base <= |streams[c]|
      reads this`streams, this`base
    {
      streams[c][base..]
    }

    constructor (silence: S)
      ensures Valid() && Conserved() && planes == [] && this.silence == silence && filled == 0
    {
      this.silence := silence;
      sampleRate, capacity, writePos, readPos, filled := 0, 0, 0, 0, 0;
      planes, stats := [], Stats(0, 0, 0, 0);
      streams, base, end, discarded := [], 0, 0, 0;
    }

    method Configure(channels: int, wantedRate: int, capacityFrames: int)
      modifies this
      ensures Valid() && Conserved() && fresh(planes)
      ensures |planes| == Max(0, channels) && sampleRate == Max(0, wantedRate) && capacity == Max(1, capacityFrames)
      ensures filled == 0 && stats == Stats(0, 0, 0, 0)
      ensures forall c :: 0 <= c < |planes| ==> Silent(planes[c])
    {
      sampleRate, capacity := Max(0, wantedRate), Max(1, capacityFrames);
      Allocate(Max(0, channels));
      writePos, readPos, filled := 0, 0, 0;
      stats := Stats(0, 0, 0, 0);
      streams, base, end, discarded := seq(|planes|, c => []), 0, 0, 0;
    }

    ghost predicate Silent(plane: array<S>)
      reads plane
    {
      forall i :: 0 <= i < plane.Length ==> plane[i] == silence
    }

    /// A silent plane for each channel.
    method Allocate(channels: nat)
      modifies this`planes
      ensures |planes| == channels && fresh(planes)
      ensures forall c :: 0 <= c < channels ==> planes[c].Length == capacity && Silent(planes[c])
      ensures forall c, d :: 0 <= c < d < channels ==> planes[c] != planes[d]
    {
      planes := [];
      for c := 0 to channels
        invariant |planes| == c && fresh(planes)
        invariant forall d :: 0 <= d < c ==> planes[d].Length == capacity && Silent(planes[d])
        invariant forall d, e :: 0 <= d < e < c ==> planes[d] != planes[e]
      {
        var plane := new S[capacity](i => silence);
        planes := planes + [plane];
      }
    }

    /// Appends a packet; on overflow the oldest frames go.
    method Write(packet: seq<seq<S>>, frames: int)
      requires Valid() && Conserved() && |packet| >= |planes|
      requires forall c :: 0 <= c < |planes| ==> |packet[c]| >= frames
      modifies this, planes
      ensures Valid() && Conserved() && planes == old(planes) && capacity == old(capacity)
      ensures frames <= 0 || planes == [] ==>
          filled == old(filled) && stats == old(stats) && streams == old(streams) && base == old(base)
      ensures frames > 0 && planes != [] ==>
          && (forall c :: 0 <= c < |planes| ==> Contents(c) == Newest(old(Contents(c)) + packet[c][..frames], capacity))
          && filled == Min(old(filled) + frames, capacity)
          && stats == old(stats).(framesWritten := old(stats).framesWritten + Min(frames, capacity),
                                  overruns := old(stats).overruns + if old(filled) + frames > capacity then 1 else 0)
    {
      if frames <= 0 || planes == [] {
        return;
      }
      // A packet larger than the whole buffer can only contribute its tail.
      var offset, count, overran := 0, frames, false;
      if count > capacity {
        offset, count, overran := count - capacity, capacity, true;
      }
      if count > capacity - filled {
        overran := true;
      }
      Store(packet, offset, count);
      if overran {
        stats := stats.(overruns := stats.overruns + 1);
      }
      forall c | 0 <= c < |planes|
        ensures Contents(c) == Newest(old(Contents(c)) + packet[c][..frames], capacity)
      {
        assert packet[c][..frames] == packet[c][..offset] + packet[c][offset..offset + count];
        NewestOfTail(old(Contents(c)), packet[c][..offset], packet[c][offset..offset + count], capacity);
      }
    }

    /// Copies `count` frames of the packet in and moves the cursors on.
    method Store(packet: seq<seq<S>>, offset: nat, count: nat)
      requires Valid() && Conserved() && |packet| >= |planes| && planes != [] && 0 < count <= capacity
      requires forall c :: 0 <= c < |planes| ==> offset + count <= |packet[c]|
      modifies this`writePos, this`readPos, this`filled, this`stats, this`streams, this`base, this`end, this`discarded, planes
      ensures Valid() && Conserved()
      ensures filled == Min(old(filled) + count, capacity)
      ensures stats == old(stats).(framesWritten := old(stats).framesWritten + count)
      ensures forall c :: 0 <= c < |planes| ==>
          Contents(c) == Newest(old(Contents(c)) + packet[c][offset..offset + count], capacity)
    {
      ghost var grown := Grown(packet, offset, count);
      CopyPlanes(packet, offset, count);
      streams := grown;
      MoveCursors(count);
      forall c | 0 <= c < |planes|
        ensures Contents(c) == Newest(old(Contents(c)) + packet[c][offset..offset + count], capacity)
      {
        NewestSlice(old(streams[c]), packet[c][offset..offset + count], old(base), base, capacity);
      }
    }

    /// Every channel's copy: afterwards the planes hold the newest frames of
    /// the longer streams.
    method CopyPlanes(packet: seq<seq<S>>, offset: nat, count: nat)
      requires Valid() && |packet| >= |planes| && planes != [] && 0 < count <= capacity
      requires forall c :: 0 <= c < |planes| ==> offset + count <= |packet[c]|
      modifies planes
      ensures var grown, keep, after := Grown(packet, offset, count), Max(base, end + count - capacity), end + count;
              forall c :: 0 <= c < |planes| ==> Holds(planes[c], grown[c], keep, after)
    {
      ghost var after, keep, grown := end + count, Max(base, end + count - capacity), Grown(packet, offset, count);
      for c := 0 to |planes|
        modifies planes
        invariant forall d :: 0 <= d < c ==> Holds(planes[d], grown[d], keep, after)
        invariant forall d :: c <= d < |planes| ==> Holds(planes[d], streams[d], base, end)
      {
        CopyPlane(planes[c], streams[c], packet[c][offset..offset + count]);
      }
    }

    method CopyPlane(plane: array<S>, ghost stream: seq<S>, part: seq<S>)
      requires Cursors() && plane.Length == capacity && |part| <= capacity && |stream| == end && Holds(plane, stream, base, end)
      modifies plane
      ensures Holds(plane, stream + part, Max(base, end + |part| - capacity), end + |part|)
    {
      CopyIn(plane, writePos, part, end);
    }

    /// The streams with `count` frames of the packet after them.
    ghost function Grown(packet: seq<seq<S>>, offset: nat, count: nat): (r: seq<seq<S>>)
      requires |packet| >= |streams| && forall c :: 0 <= c < |streams| ==> offset + count <= |packet[c]|
      reads this`streams
      ensures |r| == |streams|
      ensures forall c :: 0 <= c < |r| ==> r[c] == streams[c] + packet[c][offset..offset + count]
    {
      var before := streams;
      seq(|before|, c requires 0 <= c < |before| && c < |packet| && offset + count <= |packet[c]| =>
                      before[c] + packet[c][offset..offset + count])
    }

    /// The write cursor moves on, and on overflow the read cursor moves to the
    /// oldest frame that survives.
    method MoveCursors(count: nat)
      requires Cursors() && Conserved() && 0 < count <= capacity
      modifies this`writePos, this`readPos, this`filled, this`stats, this`base, this`end, this`discarded
      ensures Cursors() && Conserved()
      ensures end == old(end) + count && base == Max(old(base), end - capacity)
      ensures stats == old(stats).(framesWritten := old(stats).framesWritten + count)
    {
      var room := capacity - filled;
      CellWraps(end, count, capacity);
      writePos := (writePos + count) % capacity;
      stats := stats.(framesWritten := stats.framesWritten + count);
      end := end + count;
      if count > room {
        var lost := count - room;
        CellWraps(base, lost, capacity);
        readPos := (readPos + lost) % capacity;
        filled := capacity;
        base, discarded := base + lost, discarded + lost;
      } else {
        filled := filled + count;
      }
    }

    /// `have` frames have been copied out: they leave the buffer.
    method Consume(have: nat, frames: nat)
      requires Cursors() && Conserved() && have == Min(frames, filled)
      modifies this`readPos, this`filled, this`stats, this`base
      ensures Cursors() && Conserved() && filled == old(filled) - have && base == old(base) + have
      ensures stats == old(stats).(framesRead := old(stats).framesRead + have,
                                   underruns := old(stats).underruns + if have < frames then 1 else 0)
    {
      CellWraps(base, have, capacity);
      readPos := (readPos + have) % capacity;
      filled := filled - have;
      base := base + have;
      stats := stats.(framesRead := stats.framesRead + have);
      if have < frames {
        stats := stats.(underruns := stats.underruns + 1);
      }
    }

    /// What both reads leave behind.
    twostate predicate Took(have: int, frames: nat)
      reads this
    {
      && have == Min(frames, old(filled)) && filled == old(filled) - have && base == old(base) + have
      && stats == old(stats).(framesRead := old(stats).framesRead + have,
                              underruns := old(stats).underruns + if have < frames then 1 else 0)
    }

    /// Reads `frames` frames, interleaved.
    method ReadInterleaved(dst: array<S>, frames: int) returns (have: int)
      requires Valid() && Conserved() && dst !in planes
      requires frames > 0 ==> Times(frames, |planes|) <= dst.Length
      modifies this`readPos, this`filled, this`stats, this`base, dst
      ensures Valid() && Conserved()
      ensures frames <= 0 || planes == [] ==> have == 0 && filled == old(filled) && stats == old(stats) && base == old(base)
      ensures frames > 0 && planes != [] ==>
          Took(have, frames)
          && forall f, c :: 0 <= f < frames && 0 <= c < |planes| ==>
               At(f, c, |planes|) < dst.Length && dst[At(f, c, |planes|)] == Heard(old(Contents(c)), frames, silence)[f]
    {
      if frames <= 0 || planes == [] {
        return 0;
      }
      have := Min(frames, filled);
      for f := 0 to frames
        modifies dst
        invariant forall g, d :: 0 <= g < f && 0 <= d < |planes| ==>
            At(g, d, |planes|) < dst.Length && dst[At(g, d, |planes|)] == Heard(Contents(d), frames, silence)[g]
      {
        label reading:
        ReadFrame(dst, f, have, frames);
        forall g, d | 0 <= g < f && 0 <= d < |planes|
          ensures At(g, d, |planes|) < dst.Length
                  && dst[At(g, d, |planes|)] == old@reading(dst[At(g, d, |planes|)])
        {
          AtOrder(g, d, f, 0, |planes|);
        }
      }
      Consume(have, frames);
    }

    /// One frame of an interleaved read.
    method ReadFrame(dst: array<S>, f: nat, have: nat, frames: nat)
      requires Valid() && planes != [] && dst !in planes && f < frames && have == Min(frames, filled)
      requires Times(frames, |planes|) <= dst.Length
      modifies dst
      ensures forall d :: 0 <= d < |planes| ==>
          At(f, d, |planes|) < dst.Length && dst[At(f, d, |planes|)] == Heard(Contents(d), frames, silence)[f]
      ensures forall i :: 0 <= i < dst.Length && i < Times(f, |planes|) ==> dst[i] == old(dst[i])
    {
      TimesGrows(f, frames, |planes|);
      for c := 0 to |planes|
        invariant forall d :: 0 <= d < c ==>
            At(f, d, |planes|) < dst.Length && dst[At(f, d, |planes|)] == Heard(Contents(d), frames, silence)[f]
        invariant forall i :: 0 <= i < dst.Length && i < Times(f, |planes|) ==> dst[i] == old(dst[i])
      {
        var sample := Sample(c, f, have);
        AtIs(f, c, |planes|);
        dst[f * |planes| + c] := sample;
      }
    }

    method Sample(c: nat, f: nat, have: nat) returns (sample: S)
      requires Valid() && c < |planes| && have <= filled
      ensures sample == if f < have then Contents(c)[f] else silence
    {
      sample := silence;
      if f < have {
        CellWraps(base, f, capacity);
        var pos := (readPos + f) % capacity;
        assert Holds(planes[c], streams[c], base, end);
        sample := planes[c][pos];
      }
    }

    /// Reads `frames` frames, one array a channel.
    method ReadPlanar(dst: seq<array<S>>, frames: int) returns (have: int)
      requires Valid() && Conserved()
      requires frames > 0 ==> |dst| == |planes| && (forall c :: 0 <= c < |dst| ==> frames <= dst[c].Length && dst[c] !in planes)
      requires forall c, d :: 0 <= c < d < |dst| ==> dst[c] != dst[d]
      modifies this`readPos, this`filled, this`stats, this`base, dst
      ensures Valid() && Conserved()
      ensures frames <= 0 || planes == [] ==> have == 0 && filled == old(filled) && stats == old(stats) && base == old(base)
      ensures frames > 0 && planes != [] ==>
          Took(have, frames)
          && forall c :: 0 <= c < |planes| ==> dst[c][..frames] == Heard(old(Contents(c)), frames, silence)
    {
      if frames <= 0 || planes == [] {
        return 0;
      }
      have := Min(frames, filled);
      for c := 0 to |planes|
        modifies dst
        invariant forall d :: 0 <= d < c ==> dst[d][..frames] == Heard(Contents(d), frames, silence)
      {
        ReadPlane(dst[c], c, have, frames);
      }
      Consume(have, frames);
    }

    /// One channel of a planar read, in chunks, then silence.
    method ReadPlane(dst: array<S>, c: nat, have: nat, frames: nat)
      requires Valid() && c < |planes| && dst !in planes && frames <= dst.Length && have == Min(frames, filled)
      modifies dst
      ensures dst[..frames] == Heard(Contents(c), frames, silence)
    {
      CopyOut(planes[c], readPos, dst, have, base);
      assert Holds(planes[c], streams[c], base, end);
      for f := have to frames
        invariant forall g :: 0 <= g < have ==> dst[g] == streams[c][base + g]
        invariant forall g :: have <= g < f ==> dst[g] == silence
      {
        dst[f] := silence;
      }
    }

    /// Everything buffered is discarded; the counters stay.
    method Reset()
      requires Valid() && Conserved()
      modifies this`writePos, this`readPos, this`filled, this`streams, this`base, this`end, this`discarded, planes
      ensures Valid() && Conserved() && filled == 0 && discarded == old(discarded + filled)
      ensures forall c :: 0 <= c < |planes| ==> forall i :: 0 <= i < planes[c].Length ==> planes[c][i] == silence
    {
      discarded := discarded + filled;
      writePos, readPos, filled := 0, 0, 0;
      streams, base, end := seq(|planes|, c => []), 0, 0;
      for c := 0 to |planes|
        modifies planes
        invariant forall d :: 0 <= d < c ==> forall i :: 0 <= i < planes[d].Length ==> planes[d][i] == silence
      {
        Clear(planes[c]);
      }
    }

    method Clear(plane: array<S>)
      modifies plane
      ensures forall i :: 0 <= i < plane.Length ==> plane[i] == silence
    {
      for i := 0 to plane.Length
        invariant forall j :: 0 <= j < i ==> plane[j] == silence
      {
        plane[i] := silence;
      }
    }
  }

  /// Moving the start of a window on is keeping the newest of it.
  lemma NewestSlice<S>(stream: seq<S>, part: seq<S>, base: nat, from: nat, capacity: nat)
    requires base <= |stream| && from == Max(base, |stream| + |part| - capacity)
    ensures from <= |stream + part| && (stream + part)[from..] == Newest(stream[base..] + part, capacity)
  {
    assert (stream + part)[base..] == stream[base..] + part;
  }

  /// Only the newest of a long packet can survive.
  lemma NewestOfTail<S>(before: seq<S>, head: seq<S>, part: seq<S>, capacity: nat)
    requires |part| <= capacity && (head == [] || |part| == capacity)
    ensures Newest(before + part, capacity) == Newest(before + (head + part), capacity)
  {
    if head == [] {
      assert head + part == part;
    } else {
      assert Newest(before + part, capacity) == part;
      assert Newest(before + (head + part), capacity) == part;
    }
  }

  /// Over any run of writes the buffer is the newest `capacity` frames of all
  /// of them: truncating at each step loses nothing that would have stayed.
  lemma NewestOfNewest<S>(a: seq<S>, b: seq<S>, capacity: nat)
    ensures Newest(Newest(a, capacity) + b, capacity) == Newest(a + b, capacity)
  {
    if |a| > capacity {
      var gone := |a| - capacity;
      assert Newest(a, capacity) + b == (a + b)[gone..];
    }
  }

  /// Silence follows the real frames and never comes between them.
  lemma HeardSplit<S>(contents: seq<S>, frames: nat, more: nat, silence: S)
    requires frames <= |contents|
    ensures Heard(contents, frames, silence) + Heard(contents[frames..], more, silence) == Heard(contents, frames + more, silence)
  {
  }
}
