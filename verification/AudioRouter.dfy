/// What happens to a source's audio on its way to one output
/// (src/core/audio_route.cpp:141-275). Samples and gain are reals.
module AudioRouter {
  import opened Basics

  const SILENT := -1

  datatype Route = Route(mute: bool, gain: real, delayMs: nat, channels: nat, map_: seq<int>)

  /// What the parser lets through of a channel map.
  predicate RouteOk(route: Route) { forall i :: 0 <= i < |route.map_| ==> route.map_[i] >= SILENT }

  datatype Block = Block(planes: seq<seq<real>>, interleaved: seq<real>, frames: int, channels: int, sampleRate: int)

  predicate ValidBlock(b: Block) { b.frames > 0 && b.channels > 0 && b.sampleRate > 0 }

  /// A block that says it is valid has a full plane for every channel.
  predicate BlockOk(b: Block) {
    ValidBlock(b) ==> |b.planes| == b.channels && forall c :: 0 <= c < |b.planes| ==> |b.planes[c]| == b.frames
  }

  function DestinationChannels(route: Route, sourceChannels: int): int {
    if route.channels > 0 then route.channels else if route.map_ != [] then |route.map_| else sourceChannels
  }

  predicate IsIdentity(route: Route, sourceChannels: int) {
    && !route.mute && route.gain == 1.0 && route.delayMs == 0
    && DestinationChannels(route, sourceChannels) == sourceChannels
    && forall i :: 0 <= i < |route.map_| ==> route.map_[i] == i
  }

  /// Which source channel feeds destination `c`.
  function Feeds(route: Route, c: nat): int {
    if route.map_ == [] then c else if c < |route.map_| then route.map_[c] else SILENT
  }

  /// The source channel destination `c` really takes, if any.
  function Taken(route: Route, channels: int, c: nat): Option<nat>
    requires RouteOk(route)
  {
    var source := Feeds(route, c);
    if route.mute || source == SILENT || source >= channels then None else Some(source)
  }

  function Zeros(n: nat): (r: seq<real>)
    ensures |r| == n && forall i :: 0 <= i < n ==> r[i] == 0.0
  {
    seq(n, i => 0.0)
  }

  function Scale(x: real, gain: real): real { x * gain }

  function Gained(x: seq<real>, gain: real): (r: seq<real>)
    ensures |r| == |x| && forall i :: 0 <= i < |r| ==> r[i] == Scale(x[i], gain)
  {
    seq(|x|, i requires 0 <= i < |x| => Scale(x[i], gain))
  }

  lemma GainedOfSum(x: seq<real>, y: seq<real>, gain: real)
    ensures Gained(x + y, gain) == Gained(x, gain) + Gained(y, gain)
  {
  }

  /// Destination plane `c` before any delay.
  function Routed(route: Route, b: Block, c: nat): (r: seq<real>)
    requires RouteOk(route) && BlockOk(b) && ValidBlock(b)
    ensures |r| == b.frames
  {
    match Taken(route, b.channels, c)
    case None => Zeros(b.frames)
    case Some(source) => Gained(b.planes[source], route.gain)
  }

  // ------------------------------------------------------------ delay lines

  function DelayFrames(route: Route, sampleRate: nat): nat { route.delayMs * sampleRate / 1000 }

  /// What a delay line holds, oldest first.
  function Line(line: seq<real>, pos: nat): seq<real>
    requires pos <= |line|
  {
    line[pos..] + line[..pos]
  }

  /// What comes out of a line holding `held` when `x` goes in, and what it
  /// holds then.
  function Out(held: seq<real>, x: seq<real>): seq<real> { (held + x)[..|x|] }

  function Left(held: seq<real>, x: seq<real>): seq<real> { (held + x)[|x|..] }

  /// One sample through a line: the slot it is read from is the slot the
  /// incoming one goes to.
  lemma OneThrough(line: seq<real>, pos: nat, x: real)
    requires pos < |line|
    ensures Line(line, pos)[0] == line[pos]
    ensures Line(line[pos := x], if pos + 1 == |line| then 0 else pos + 1) == Line(line, pos)[1..] + [x]
  {
    var next := if pos + 1 == |line| then 0 else pos + 1;
    assert Line(line, pos)[1..] == line[pos + 1..] + line[..pos];
    assert line[pos := x][..pos + 1] == line[..pos] + [x];
    if next == 0 { assert Line(line[pos := x], 0) == line[pos := x]; }
  }

  /// Frame `f` of a block through one channel's line.
  lemma FrameThrough(held: seq<real>, x: seq<real>, f: nat, plane: seq<real>, line: seq<real>, pos: nat)
    requires f < |x| && pos < |line| && |held| == |line|
    requires plane == (held + x)[..f] + x[f..] && Line(line, pos) == (held + x[..f])[f..]
    ensures plane[f := line[pos]] == (held + x)[..f + 1] + x[f + 1..] && plane[f] == x[f]
    ensures Line(line[pos := x[f]], if pos + 1 == |line| then 0 else pos + 1) == (held + x[..f + 1])[f + 1..]
  {
    OneThrough(line, pos, x[f]);
    assert (held + x[..f])[f..][0] == (held + x[..f])[f] == (held + x)[f];
    assert held + x[..f + 1] == (held + x[..f]) + [x[f]];
  }

  class Router {
    var route: Route
    var preparedChannels: int
    var preparedRate: int
    var delayFrames: nat
    var delayLines: seq<seq<real>>
    var delayPos: nat

    ghost predicate Valid()
      reads this
    {
      && RouteOk(route)
      && (forall c :: 0 <= c < |delayLines| ==> |delayLines[c]| == delayFrames)
      && (if delayFrames == 0 then delayPos == 0 else delayPos < delayFrames)
      && (preparedChannels > 0 && preparedRate > 0 ==>
            |delayLines| == preparedChannels && delayFrames == DelayFrames(route, preparedRate))
    }

    /// What channel `c` will put out before anything new, for blocks of this
    /// shape: silence if the lines have to be built.
    ghost function Held(destChannels: nat, sampleRate: nat, c: nat): (r: seq<real>)
      requires Valid() && 0 < destChannels && 0 < sampleRate && c < destChannels
      reads this
      ensures |r| == DelayFrames(route, sampleRate)
    {
      if destChannels == preparedChannels && sampleRate == preparedRate then Line(delayLines[c], delayPos)
      else Zeros(DelayFrames(route, sampleRate))
    }

    constructor (route: Route)
      requires RouteOk(route)
      ensures Valid() && this.route == route && preparedChannels == 0
    {
      this.route, preparedChannels, preparedRate, delayFrames := route, 0, 0, 0;
      delayLines, delayPos := [], 0;
    }

    method Configure(newRoute: Route)
      requires Valid() && RouteOk(newRoute)
      modifies this
      ensures Valid() && route == newRoute && preparedChannels == 0 && preparedRate == 0
    {
      Reset();
      route := newRoute;
      preparedChannels, preparedRate := 0, 0;
    }

    /// Every line falls silent, at its length.
    method Reset()
      requires Valid()
      modifies this`delayLines, this`delayPos
      ensures Valid() && delayPos == 0 && |delayLines| == |old(delayLines)|
      ensures forall c :: 0 <= c < |delayLines| ==> delayLines[c] == Zeros(delayFrames)
    {
      for c := 0 to |delayLines|
        invariant |delayLines| == |old(delayLines)|
        invariant forall d :: 0 <= d < |delayLines| ==> delayLines[d] == if d < c then Zeros(delayFrames) else old(delayLines)[d]
      {
        delayLines := delayLines[c := Zeros(|delayLines[c]|)];
      }
      delayPos := 0;
    }

    method Prepare(destChannels: nat, sampleRate: nat)
      requires Valid() && 0 < destChannels && 0 < sampleRate
      modifies this
      ensures Valid() && route == old(route) && preparedChannels == destChannels && preparedRate == sampleRate
      ensures forall c :: 0 <= c < destChannels ==> Line(delayLines[c], delayPos) == old(Held(destChannels, sampleRate, c))
    {
      if destChannels == preparedChannels && sampleRate == preparedRate {
        return;
      }
      preparedChannels, preparedRate := destChannels, sampleRate;
      var length := route.delayMs * sampleRate / 1000;
      delayFrames, delayPos := length, 0;
      delayLines := seq(destChannels, i => Zeros(length));
      forall c | 0 <= c < destChannels ensures Line(delayLines[c], 0) == Zeros(length) {
        assert Line(Zeros(length), 0) == Zeros(length);
      }
    }

    /// The lines and planes half way through a block: `f` frames have gone
    /// through every channel's line.
    ghost predicate Through(held: seq<seq<real>>, xs: seq<seq<real>>, planes: seq<seq<real>>, f: nat)
      reads this`delayLines, this`delayPos
    {
      && |held| == |xs| == |planes| == |delayLines|
      && forall c :: 0 <= c < |planes| ==> ChannelThrough(held[c], xs[c], planes[c], delayLines[c], delayPos, f)
    }

    method DelayFrame(planes: seq<seq<real>>, f: nat) returns (r: seq<seq<real>>)
      requires |planes| == |delayLines|
      requires forall c :: 0 <= c < |planes| ==> f < |planes[c]| && delayPos < |delayLines[c]|
      modifies this`delayLines
      ensures |r| == |planes| && |delayLines| == |planes|
      ensures forall c :: 0 <= c < |planes| ==>
                r[c] == planes[c][f := old(delayLines)[c][delayPos]] && delayLines[c] == old(delayLines)[c][delayPos := planes[c][f]]
    {
      r := planes;
      for c := 0 to |planes|
        invariant |r| == |planes| && |delayLines| == |planes|
        invariant forall d :: 0 <= d < c ==>
                    r[d] == planes[d][f := old(delayLines)[d][delayPos]] && delayLines[d] == old(delayLines)[d][delayPos := planes[d][f]]
        invariant forall d :: c <= d < |planes| ==> r[d] == planes[d] && delayLines[d] == old(delayLines)[d]
      {
        var incoming := r[c][f];
        r := r[c := r[c][f := delayLines[c][delayPos]]];
        delayLines := delayLines[c := delayLines[c][delayPos := incoming]];
      }
    }

    /// Every channel by the same amount: one position, moved once a frame.
    method DelayBlock(xs: seq<seq<real>>, frames: nat) returns (planes: seq<seq<real>>)
      requires Valid() && 0 < delayFrames && |xs| == |delayLines|
      requires forall c :: 0 <= c < |xs| ==> |xs[c]| == frames
      modifies this`delayLines, this`delayPos
      ensures Valid() && |delayLines| == |xs| == |planes|
      ensures forall c :: 0 <= c < |xs| ==>
                && planes[c] == Out(old(Line(delayLines[c], delayPos)), xs[c])
                && Line(delayLines[c], delayPos) == Left(old(Line(delayLines[c], delayPos)), xs[c])
    {
      ghost var held := Lines();
      planes := xs;
      assert Through(held, xs, planes, 0);
      for f := 0 to frames
        invariant Valid() && 0 < delayFrames == old(delayFrames) && Through(held, xs, planes, f)
      {
        ghost var before, lines, at := planes, delayLines, delayPos;
        planes := DelayFrame(planes, f);
        delayPos := if delayPos + 1 == delayFrames then 0 else delayPos + 1;
        forall c | 0 <= c < |planes| ensures ChannelThrough(held[c], xs[c], planes[c], delayLines[c], delayPos, f + 1) {
          assert ChannelThrough(held[c], xs[c], before[c], lines[c], at, f);
          FrameThrough(held[c], xs[c], f, before[c], lines[c], at);
        }
      }
      forall c | 0 <= c < |xs|
        ensures planes[c] == Out(held[c], xs[c]) && Line(delayLines[c], delayPos) == Left(held[c], xs[c])
      {
        assert ChannelThrough(held[c], xs[c], planes[c], delayLines[c], delayPos, frames);
        assert xs[c][..frames] == xs[c];
      }
    }

    ghost function Lines(): (r: seq<seq<real>>)
      requires Valid()
      reads this
      ensures |r| == |delayLines| && forall c :: 0 <= c < |r| ==> r[c] == Line(delayLines[c], delayPos)
    {
      var lines, pos := delayLines, delayPos;
      seq(|lines|, c requires 0 <= c < |lines| && pos <= |lines[c]| => Line(lines[c], pos))
    }

    /// The routed, delayed block; the block itself when there is nothing to do.
    method Apply(b: Block) returns (out: Block)
      requires Valid() && BlockOk(b)
      modifies this
      ensures Valid() && route == old(route)
      ensures !ValidBlock(b) || IsIdentity(route, b.channels) ==> out == b && unchanged(this)
      ensures ValidBlock(b) && !IsIdentity(route, b.channels) ==>
                var dest := DestinationChannels(route, b.channels);
                && out.channels == dest && out.frames == b.frames && out.sampleRate == b.sampleRate
                && |out.planes| == dest && preparedChannels == dest && preparedRate == b.sampleRate
                && IsInterleaved(out.interleaved, out.planes, b.frames)
                && forall c :: 0 <= c < dest ==>
                     && out.planes[c] == Out(old(Held(dest, b.sampleRate, c)), Routed(route, b, c))
                     && Held(dest, b.sampleRate, c) == Left(old(Held(dest, b.sampleRate, c)), Routed(route, b, c))
    {
      if !ValidBlock(b) || IsIdentity(route, b.channels) {
        return b;
      }
      var dest := DestinationChannels(route, b.channels);
      Prepare(dest, b.sampleRate);
      var xs := RoutePlanes(route, b, dest);
      var planes := xs;
      if delayFrames > 0 {
        planes := DelayBlock(xs, b.frames);
      } else {
        NoDelay(xs);
      }
      var interleaved := Interleave(planes, b.frames);
      out := Block(planes, interleaved, b.frames, dest, b.sampleRate);
    }

    lemma NoDelay(xs: seq<seq<real>>)
      requires Valid() && delayFrames == 0
      ensures forall c :: 0 <= c < |xs| && c < |delayLines| ==>
                Out(Line(delayLines[c], delayPos), xs[c]) == xs[c] && Left(Line(delayLines[c], delayPos), xs[c]) == Line(delayLines[c], delayPos)
    {
      forall c | 0 <= c < |xs| && c < |delayLines|
        ensures Out(Line(delayLines[c], delayPos), xs[c]) == xs[c] && Left(Line(delayLines[c], delayPos), xs[c]) == Line(delayLines[c], delayPos)
      {
        assert Line(delayLines[c], delayPos) == [] && [] + xs[c] == xs[c];
      }
    }
  }

  /// After `f` frames: that much of the plane is what was held and then what
  /// came in, and the line holds the rest of it.
  ghost predicate ChannelThrough(held: seq<real>, x: seq<real>, plane: seq<real>, line: seq<real>, pos: nat, f: nat) {
    && pos < |line| == |held| && f <= |x|
    && plane == (held + x)[..f] + x[f..] && Line(line, pos) == (held + x[..f])[f..]
  }

  method RoutePlanes(route: Route, b: Block, dest: nat) returns (xs: seq<seq<real>>)
    requires RouteOk(route) && BlockOk(b) && ValidBlock(b)
    ensures |xs| == dest && forall c :: 0 <= c < dest ==> xs[c] == Routed(route, b, c)
  {
    xs := [];
    for c := 0 to dest
      invariant |xs| == c && forall d :: 0 <= d < c ==> xs[d] == Routed(route, b, d)
    {
      var source: int := c;
      if route.map_ != [] {
        source := if c < |route.map_| then route.map_[c] else SILENT;
      }
      var silent := route.mute || source == SILENT || source >= b.channels;
      var plane := Zeros(b.frames);
      if !silent {
        for f := 0 to b.frames
          invariant |plane| == b.frames && forall k :: 0 <= k < f ==> plane[k] == Scale(b.planes[source][k], route.gain)
        {
          plane := plane[f := Scale(b.planes[source][f], route.gain)];
        }
        assert |b.planes[source]| == b.frames;
        assert plane == Gained(b.planes[source], route.gain);
      }
      assert Taken(route, b.channels, c) == if silent then None else Some(source);
      xs := xs + [plane];
    }
  }

  /// Frame-major, channel by channel.
  ghost predicate IsInterleaved(r: seq<real>, planes: seq<seq<real>>, frames: nat) {
    && (forall c :: 0 <= c < |planes| ==> frames <= |planes[c]|)
    && |r| == Times(frames, |planes|)
    && forall f: nat, c: nat :: f < frames && c < |planes| ==> InPlace(r, planes, f, c)
  }

  predicate InPlace(r: seq<real>, planes: seq<seq<real>>, f: nat, c: nat)
    requires c < |planes| && f < |planes[c]|
  {
    Times(f, |planes|) + c < |r| && r[Times(f, |planes|) + c] == planes[c][f]
  }

  lemma RowAdded(before: seq<real>, row: seq<real>, planes: seq<seq<real>>, f: nat)
    requires IsInterleaved(before, planes, f) && |row| == |planes|
    requires forall c :: 0 <= c < |planes| ==> f < |planes[c]| && row[c] == planes[c][f]
    ensures IsInterleaved(before + row, planes, f + 1)
  {
    var n, r := |planes|, before + row;
    assert Times(f + 1, n) == Times(f, n) + n;
    forall g: nat, c: nat | g < f + 1 && c < n ensures InPlace(r, planes, g, c) {
      RowElement(before, row, planes, f, g, c);
    }
  }

  lemma RowElement(before: seq<real>, row: seq<real>, planes: seq<seq<real>>, f: nat, g: nat, c: nat)
    requires IsInterleaved(before, planes, f) && |row| == |planes| && c < |planes| && g <= f < |planes[c]|
    requires row[c] == planes[c][f]
    ensures InPlace(before + row, planes, g, c)
  {
    assert g < f ==> InPlace(before, planes, g, c);
    if g < f { TimesGrows(g, f, |planes|); }
  }

  method Interleave(planes: seq<seq<real>>, frames: nat) returns (r: seq<real>)
    requires forall c :: 0 <= c < |planes| ==> |planes[c]| == frames
    ensures IsInterleaved(r, planes, frames)
  {
    r := [];
    for f := 0 to frames
      invariant IsInterleaved(r, planes, f)
    {
      var row := [];
      for c := 0 to |planes|
        invariant |row| == c && forall d :: 0 <= d < c ==> row[d] == planes[d][f]
      {
        row := row + [planes[c][f]];
      }
      RowAdded(r, row, planes, f);
      r := r + row;
    }
  }

  // ------------------------------------------------ any split into blocks

  /// Blocks of one stream, all the same shape.
  predicate SameShape(blocks: seq<Block>, channels: int, sampleRate: int) {
    forall i :: 0 <= i < |blocks| ==>
      ValidBlock(blocks[i]) && BlockOk(blocks[i]) && blocks[i].channels == channels && blocks[i].sampleRate == sampleRate
  }

  /// Channel `c` of everything the router puts out for the blocks, starting
  /// with `held` in its line.
  function Heard(route: Route, held: seq<real>, blocks: seq<Block>, channels: int, sampleRate: int, c: nat): seq<real>
    requires RouteOk(route) && SameShape(blocks, channels, sampleRate)
    decreases |blocks|
  {
    if blocks == [] then []
    else
      var x := Routed(route, blocks[0], c);
      Out(held, x) + Heard(route, Left(held, x), blocks[1..], channels, sampleRate, c)
  }

  /// Source channel `s` of the whole stream.
  function Stream(blocks: seq<Block>, channels: int, sampleRate: int, s: nat): (r: seq<real>)
    requires SameShape(blocks, channels, sampleRate) && s < channels
    ensures |r| == TotalFrames(blocks)
    decreases |blocks|
  {
    if blocks == [] then [] else blocks[0].planes[s] + Stream(blocks[1..], channels, sampleRate, s)
  }

  function TotalFrames(blocks: seq<Block>): (n: int)
    ensures (forall i :: 0 <= i < |blocks| ==> ValidBlock(blocks[i])) ==> n >= |blocks|
  {
    if blocks == [] then 0 else blocks[0].frames + TotalFrames(blocks[1..])
  }

  /// The whole stream as one block.
  function WholeStream(blocks: seq<Block>, channels: int, sampleRate: int): (w: Block)
    requires SameShape(blocks, channels, sampleRate) && blocks != []
    ensures ValidBlock(w) && BlockOk(w) && w.channels == channels && w.frames == TotalFrames(blocks)
  {
    assert ValidBlock(blocks[0]) && blocks[0].channels == channels;
    Block(seq(channels, s requires 0 <= s < channels => Stream(blocks, channels, sampleRate, s)), [], TotalFrames(blocks), channels, sampleRate)
  }

  lemma OutThenOut(held: seq<real>, x: seq<real>, y: seq<real>)
    ensures Out(held, x) + Out(Left(held, x), y) == Out(held, x + y)
  {
    assert held + (x + y) == (held + x) + y;
    assert (held + x) + y == Out(held, x) + (Left(held, x) + y);
  }

  /// However a stream is cut into blocks, each channel comes out as the whole
  /// stream routed at once, after exactly what its line held.
  lemma {:induction false} SplitIsWhole(route: Route, held: seq<real>, blocks: seq<Block>, channels: int, sampleRate: int, c: nat)
    requires RouteOk(route) && SameShape(blocks, channels, sampleRate) && blocks != []
    ensures Heard(route, held, blocks, channels, sampleRate, c) == Out(held, Routed(route, WholeStream(blocks, channels, sampleRate), c))
    decreases |blocks|
  {
    var x := Routed(route, blocks[0], c);
    if |blocks| == 1 {
      assert blocks[1..] == [];
      RoutedWhole(route, blocks, channels, sampleRate, c);
      assert x + [] == x;
    } else {
      var rest := blocks[1..];
      SplitIsWhole(route, Left(held, x), rest, channels, sampleRate, c);
      RoutedWhole(route, blocks, channels, sampleRate, c);
      OutThenOut(held, x, Routed(route, WholeStream(rest, channels, sampleRate), c));
    }
  }

  lemma RoutedWhole(route: Route, blocks: seq<Block>, channels: int, sampleRate: int, c: nat)
    requires RouteOk(route) && SameShape(blocks, channels, sampleRate) && blocks != []
    ensures var first := Routed(route, blocks[0], c);
            Routed(route, WholeStream(blocks, channels, sampleRate), c)
            == if |blocks| == 1 then first else first + Routed(route, WholeStream(blocks[1..], channels, sampleRate), c)
  {
    var whole, rest := WholeStream(blocks, channels, sampleRate), blocks[1..];
    match Taken(route, channels, c)
    case None =>
      assert rest != [] ==> Zeros(whole.frames) == Zeros(blocks[0].frames) + Zeros(TotalFrames(rest));
    case Some(s) =>
      assert whole.planes[s] == blocks[0].planes[s] + Stream(rest, channels, sampleRate, s);
      GainedOfSum(blocks[0].planes[s], Stream(rest, channels, sampleRate, s), route.gain);
      if rest == [] {
        assert whole.planes[s] == blocks[0].planes[s];
      }
  }

  /// From silence, every channel is the routed stream behind exactly the delay
  /// of silence.
  lemma ShiftedByTheDelay(route: Route, blocks: seq<Block>, channels: int, sampleRate: nat, c: nat)
    requires RouteOk(route) && SameShape(blocks, channels, sampleRate) && blocks != []
    ensures var delay := DelayFrames(route, sampleRate);
            var heard := Heard(route, Zeros(delay), blocks, channels, sampleRate, c);
            var whole := Routed(route, WholeStream(blocks, channels, sampleRate), c);
            && |heard| == |whole|
            && forall f :: 0 <= f < |heard| ==> heard[f] == if f < delay then 0.0 else whole[f - delay]
  {
    SplitIsWhole(route, Zeros(DelayFrames(route, sampleRate)), blocks, channels, sampleRate, c);
  }

  // ---------------------------------------------------------------- identity

  /// Routing the block changes nothing.
  ghost predicate Copies(route: Route, b: Block)
    requires RouteOk(route) && BlockOk(b) && ValidBlock(b)
  {
    DestinationChannels(route, b.channels) == b.channels && route.delayMs == 0
    && forall c :: 0 <= c < b.channels ==> Routed(route, b, c) == b.planes[c]
  }

  /// One frame at full scale on every channel.
  function Loud(channels: nat): Block { Block(seq(channels, i => [1.0]), [], 1, channels, 48000) }

  /// The shortcut is right for every block exactly when the map is empty or
  /// names every channel: a shorter one is taken for the identity too, but
  /// routing would silence the channels past its end.
  lemma IdentityIff(route: Route, channels: nat)
    requires RouteOk(route) && channels > 0 && IsIdentity(route, channels)
    ensures (forall b :: ValidBlock(b) && BlockOk(b) && b.channels == channels ==> Copies(route, b))
            <==> route.map_ == [] || |route.map_| >= channels
  {
    if route.map_ == [] || |route.map_| >= channels {
      forall b | ValidBlock(b) && BlockOk(b) && b.channels == channels ensures Copies(route, b) {
        forall c | 0 <= c < channels ensures Routed(route, b, c) == b.planes[c] {
          assert Feeds(route, c) == c;
        }
      }
    } else {
      var b := Loud(channels);
      assert Routed(route, b, |route.map_|)[0] == 0.0 && b.planes[|route.map_|][0] == 1.0;
      assert !Copies(route, b);
    }
  }

  /// The case the shortcut gets wrong: two channels asked for, one mapped.
  lemma ShortMapIsTakenForIdentity()
    ensures var route := Route(false, 1.0, 0, 2, [0]);
            IsIdentity(route, 2) && Routed(route, Loud(2), 1) == [0.0] && Loud(2).planes[1] == [1.0]
  {
    var route := Route(false, 1.0, 0, 2, [0]);
    assert Taken(route, 2, 1) == None;
  }
}
