/// The OSC 1.0 decoder (src/control/osc_server.cpp:38-189).
///
/// A packet is a sequence of bytes. The specification reads from the bytes that
/// are left; the methods move an offset through the packet, as the source does,
/// and are proved equal to it. Floats are their 32 bits.
module Osc {
  import opened Basics

  const SLASH: Byte := 47
  const COMMA: Byte := 44
  /// "#bundle"
  const BUNDLE: seq<Byte> := [35, 98, 117, 110, 100, 108, 101]

  /// The arguments of a message, grouped by type.
  datatype Args = Args(ints: seq<int>, floats: seq<int>, strings: seq<seq<Byte>>)

  datatype Message = Message(address: seq<Byte>, args: Args)

  const NOTHING := Args([], [], [])

  function Plus(a: Args, b: Args): Args { Args(a.ints + b.ints, a.floats + b.floats, a.strings + b.strings) }

  lemma PlusIsMonoid(a: Args, b: Args, c: Args)
    ensures Plus(NOTHING, a) == a == Plus(a, NOTHING)
    ensures Plus(Plus(a, b), c) == Plus(a, Plus(b, c))
  {
    assert NOTHING.ints + a.ints == a.ints && NOTHING.floats + a.floats == a.floats && NOTHING.strings + a.strings == a.strings;
  }

  /// The size of a string on the wire: at least one NUL, rounded up to four.
  function Padded(length: nat): nat { (length + 4) / 4 * 4 }

  /// Up to the first NUL, or everything there is.
  function TextLength(rest: seq<Byte>): (n: nat)
    ensures n <= |rest|
    ensures forall i :: 0 <= i < n ==> rest[i] != 0
    ensures n < |rest| ==> rest[n] == 0
  {
    if rest == [] || rest[0] == 0 then 0 else TextLength(rest[1..]) + 1
  }

  function ReadString(rest: seq<Byte>): (r: Option<(seq<Byte>, seq<Byte>)>)
    ensures r.Some? ==> |r.value.1| + 4 <= |rest| && |rest| == Padded(|r.value.0|) + |r.value.1|
  {
    var n := TextLength(rest);
    if n == |rest| || Padded(n) > |rest| then None else Some((rest[..n], rest[Padded(n)..]))
  }

  /// Four bytes, most significant first, as a signed 32-bit integer.
  function Int32(b: seq<Byte>): (v: int)
    requires |b| == 4
    ensures -0x8000_0000 <= v < 0x8000_0000
  {
    var high: int, low: int := b[0] as int * 256 + b[1] as int, b[2] as int * 256 + b[3] as int;
    var u := high * 65536 + low;
    if u < 0x8000_0000 then u else u - 0x1_0000_0000
  }

  function ReadInt32(rest: seq<Byte>): Option<(int, seq<Byte>)> {
    if |rest| < 4 then None else Some((Int32(rest[..4]), rest[4..]))
  }

  function Skip(rest: seq<Byte>, count: nat): Option<seq<Byte>> {
    if count > |rest| then None else Some(rest[count..])
  }

  /// One argument by its type tag.
  function ReadArg(rest: seq<Byte>, tag: Byte): (r: Option<(Args, seq<Byte>)>)
    ensures r.Some? ==> |r.value.1| <= |rest|
  {
    match tag as int
    case 105 /* i */ =>
      (match ReadInt32(rest) case None => None case Some(v) => Some((Args([v.0], [], []), v.1)))
    case 102 /* f */ =>
      (match ReadInt32(rest) case None => None case Some(v) => Some((Args([], [v.0], []), v.1)))
    case 115 /* s */ =>
      (match ReadString(rest) case None => None case Some(v) => Some((Args([], [], [v.0]), v.1)))
    case 83 /* S */ =>
      (match ReadString(rest) case None => None case Some(v) => Some((Args([], [], [v.0]), v.1)))
    case 84 /* T */ => Some((Args([1], [], []), rest))
    case 70 /* F */ => Some((Args([0], [], []), rest))
    case 78 /* N */ => Some((NOTHING, rest))
    case 73 /* I */ => Some((NOTHING, rest))
    case 98 /* b */ =>
      (match ReadInt32(rest)
       case None => None
       case Some(v) =>
         if v.0 < 0 then None
         else match Skip(v.1, Padded(v.0)) case None => None case Some(after) => Some((NOTHING, after)))
    case 100 /* d */ => (match Skip(rest, 8) case None => None case Some(after) => Some((NOTHING, after)))
    case 104 /* h */ => (match Skip(rest, 8) case None => None case Some(after) => Some((NOTHING, after)))
    case 116 /* t */ => (match Skip(rest, 8) case None => None case Some(after) => Some((NOTHING, after)))
    case _ => None
  }

  function ReadArgs(rest: seq<Byte>, tags: seq<Byte>): (r: Option<(Args, seq<Byte>)>)
    ensures r.Some? ==> |r.value.1| <= |rest|
    decreases |tags|
  {
    if tags == [] then Some((NOTHING, rest))
    else match ReadArg(rest, tags[0])
      case None => None
      case Some(first) =>
        match ReadArgs(first.1, tags[1..])
        case None => None
        case Some(more) => Some((Plus(first.0, more.0), more.1))
  }

  /// The type tags after the comma, and what is left; none at all is a message
  /// without arguments.
  function ReadTags(rest: seq<Byte>): Option<(seq<Byte>, seq<Byte>)> {
    if rest == [] || rest[0] != COMMA then Some(([], rest))
    else match ReadString(rest)
      case None => None
      case Some(tags) => Some((if tags.0 == [] then [] else tags.0[1..], tags.1))
  }

  function DecodeMessage(data: seq<Byte>): Option<Message> {
    match ReadString(data)
    case None => None
    case Some(address) =>
      if address.0 == [] || address.0[0] != SLASH then None
      else match ReadTags(address.1)
        case None => None
        case Some(tags) =>
          match ReadArgs(tags.1, tags.0)
          case None => None
          case Some(args) => Some(Message(address.0, args.0))
  }

  predicate IsBundle(data: seq<Byte>) { |data| >= 8 && data[..7] == BUNDLE }

  /// What a packet makes the handler be called with, in order.
  function Decode(data: seq<Byte>): seq<Message>
    decreases |data|, 1
  {
    if |data| < 4 then []
    else if IsBundle(data) then (if |data| < 16 then [] else Elements(data[16..]))
    else match DecodeMessage(data) case None => [] case Some(m) => [m]
  }

  /// The elements of a bundle, until one has a size that cannot be right.
  function Elements(rest: seq<Byte>): seq<Message>
    decreases |rest|, 0
  {
    if |rest| < 4 then []
    else
      var size := Int32(rest[..4]);
      if size <= 0 || size > |rest| - 4 then []
      else Decode(rest[4..4 + size]) + Elements(rest[4 + size..])
  }

  // ---------------------------------------------------------- the decoder

  method ReadStringAt(data: seq<Byte>, offset: nat) returns (ok: bool, out: seq<Byte>, after: nat)
    requires offset <= |data|
    ensures ok <==> ReadString(data[offset..]).Some?
    ensures ok ==> offset < after <= |data| && ReadString(data[offset..]) == Some((out, data[after..]))
  {
    ok, out, after := false, [], offset;
    if offset >= |data| {
      return;
    }
    var length := offset;
    while length < |data| && data[length] != 0
      invariant offset <= length <= |data|
      invariant TextLength(data[offset..]) == length - offset + TextLength(data[length..])
    {
      length := length + 1;
    }
    if length == |data| {
      return;
    }
    out := data[offset..length];
    after := offset + Padded(length - offset);
    ok := after <= |data|;
    assert data[offset..][..length - offset] == out;
    assert ok ==> data[offset..][Padded(length - offset)..] == data[after..];
  }

  method ReadInt32At(data: seq<Byte>, offset: nat) returns (ok: bool, out: int, after: nat)
    requires offset <= |data|
    ensures ok <==> ReadInt32(data[offset..]).Some?
    ensures ok ==> after == offset + 4 <= |data| && ReadInt32(data[offset..]) == Some((out, data[after..]))
  {
    ok, out, after := false, 0, offset;
    if offset + 4 > |data| {
      return;
    }
    ok, out, after := true, Int32(data[offset..offset + 4]), offset + 4;
    assert data[offset..][..4] == data[offset..offset + 4];
  }

  /// One argument: what it adds to the message, and where the next one starts.
  method ReadArgAt(data: seq<Byte>, offset: nat, tag: Byte) returns (ok: bool, args: Args, after: nat)
    requires offset <= |data|
    ensures ok <==> ReadArg(data[offset..], tag).Some?
    ensures ok ==> offset <= after <= |data| && ReadArg(data[offset..], tag) == Some((args, data[after..]))
  {
    ok, args, after := true, NOTHING, offset;
    if tag == 105 || tag == 102 {
      var value;
      ok, value, after := ReadInt32At(data, offset);
      args := if tag == 105 then Args([value], [], []) else Args([], [value], []);
    } else if tag == 115 || tag == 83 {
      var value;
      ok, value, after := ReadStringAt(data, offset);
      args := Args([], [], [value]);
    } else if tag == 84 {
      args := Args([1], [], []);
    } else if tag == 70 {
      args := Args([0], [], []);
    } else if tag == 98 {
      var size;
      ok, size, after := ReadInt32At(data, offset);
      if !ok || size < 0 {
        return false, NOTHING, offset;
      }
      after := after + Padded(size);
      ok := after <= |data|;
    } else if tag == 100 || tag == 104 || tag == 116 {
      after := offset + 8;
      ok := after <= |data|;
    } else if tag != 78 && tag != 73 {
      ok := false;
    }
  }

  method DecodePacket(data: seq<Byte>) returns (handled: seq<Message>)
    ensures handled == Decode(data)
    decreases |data|, 2
  {
    handled := [];
    if |data| < 4 {
      return;
    }
    if |data| >= 8 && data[..7] == BUNDLE {
      handled := DecodeBundle(data);
      return;
    }
    var message := DecodeOne(data);
    if message.Some? {
      handled := [message.value];
    }
  }

  /// A bundle's elements, after its name and its time tag, which is ignored.
  method DecodeBundle(data: seq<Byte>) returns (handled: seq<Message>)
    ensures handled == if |data| < 16 then [] else Elements(data[16..])
    decreases |data|, 1
  {
    handled := [];
    var offset := 16;
    while offset + 4 <= |data|
      invariant 16 <= offset
      invariant |data| >= 16 ==> offset <= |data| && Elements(data[16..]) == handled + Elements(data[offset..])
      invariant |data| < 16 ==> handled == []
      decreases |data| - offset
    {
      var more, nested, after := NextElement(data, offset);
      if !more {
        return;
      }
      handled := handled + nested;
      offset := after;
    }
  }

  /// One element of a bundle, unless its size cannot be right.
  method NextElement(data: seq<Byte>, offset: nat) returns (more: bool, nested: seq<Message>, after: nat)
    requires 16 <= offset && offset + 4 <= |data|
    ensures !more ==> Elements(data[offset..]) == []
    ensures more ==> offset < after <= |data| && Elements(data[offset..]) == nested + Elements(data[after..])
    decreases |data|, 0
  {
    var size := NextSize(data, offset);
    if size <= 0 {
      return false, [], offset;
    }
    ElementsStep(data, offset, size);
    nested := DecodePacket(data[offset + 4..offset + 4 + size]);
    more, after := true, offset + 4 + size;
  }

  /// The size of the element at `offset`, 0 if it cannot be right.
  method NextSize(data: seq<Byte>, offset: nat) returns (size: nat)
    requires offset + 4 <= |data|
    ensures size == 0 ==> Elements(data[offset..]) == []
    ensures size > 0 ==> offset + 4 + size <= |data| && Int32(data[offset..][..4]) == size
  {
    var ok, read, start := ReadInt32At(data, offset);
    if !ok || read <= 0 || start + read > |data| {
      return 0;
    }
    return read;
  }

  lemma ElementsStep(data: seq<Byte>, offset: nat, size: nat)
    requires offset + 4 + size <= |data| && 0 < size && Int32(data[offset..][..4]) == size
    ensures Elements(data[offset..]) == Decode(data[offset + 4..offset + 4 + size]) + Elements(data[offset + 4 + size..])
  {
    assert data[offset..][4..4 + size] == data[offset + 4..offset + 4 + size];
    assert data[offset..][4 + size..] == data[offset + 4 + size..];
  }

  method DecodeOne(data: seq<Byte>) returns (message: Option<Message>)
    ensures message == DecodeMessage(data)
  {
    assert data[0..] == data;
    var ok, address, offset := ReadStringAt(data, 0);
    if !ok || address == [] || address[0] != SLASH {
      return None;
    }
    var tags := [];
    if offset < |data| && data[offset] == COMMA {
      ok, tags, offset := ReadStringAt(data, offset);
      if !ok {
        return None;
      }
      tags := if tags == [] then [] else tags[1..];
    }
    message := DecodeArgs(data, offset, tags, address);
  }

  method DecodeArgs(data: seq<Byte>, start: nat, tags: seq<Byte>, address: seq<Byte>) returns (message: Option<Message>)
    requires start <= |data|
    ensures var r := ReadArgs(data[start..], tags);
            message == if r.None? then None else Some(Message(address, r.value.0))
  {
    var args, offset := NOTHING, start;
    ghost var whole := ReadArgs(data[start..], tags);
    if whole.Some? { PlusIsMonoid(whole.value.0, NOTHING, NOTHING); }
    assert tags[0..] == tags;
    for i := 0 to |tags|
      invariant start <= offset <= |data|
      invariant var more := ReadArgs(data[offset..], tags[i..]);
                (more.None? <==> whole.None?)
                && (more.Some? ==> whole == Some((Plus(args, more.value.0), more.value.1)))
    {
      ghost var before := args;
      var ok, one, after := ReadArgAt(data, offset, tags[i]);
      if !ok {
        return None;
      }
      assert tags[i..][1..] == tags[i + 1..];
      args, offset := Plus(args, one), after;
      ghost var more := ReadArgs(data[offset..], tags[i + 1..]);
      if more.Some? { PlusIsMonoid(before, one, more.value.0); }
    }
    assert tags[|tags|..] == [];
    PlusIsMonoid(args, NOTHING, NOTHING);
    return Some(Message(address, args));
  }
}
