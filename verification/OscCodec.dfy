/// What the OSC decoder makes of packets encoded as OSC 1.0 says
/// ("Atomic Data Types" and "OSC Bundles" of the OSC 1.0 specification).
module OscCodec {
  import opened Basics
  import opened Osc

  /// An argument; `Wide` is any of the 64-bit types d, h and t.
  datatype Arg = IntArg(v: int) | FloatArg(bits: int) | StringArg(s: seq<Byte>) | SymbolArg(s: seq<Byte>)
    | True | False | Nil | Impulse | Wide(tag: Byte, payload: seq<Byte>) | Blob(bytes: seq<Byte>)

  datatype Packet = One(address: seq<Byte>, args: seq<Arg>) | Bundle(timetag: seq<Byte>, elements: seq<Packet>)

  predicate IsText(s: seq<Byte>) { forall i :: 0 <= i < |s| ==> s[i] != 0 }

  predicate IsInt32(v: int) { -0x8000_0000 <= v < 0x8000_0000 }

  predicate ArgOk(a: Arg) {
    match a
    case IntArg(v) => IsInt32(v)
    case FloatArg(bits) => IsInt32(bits)
    case StringArg(s) => IsText(s)
    case SymbolArg(s) => IsText(s)
    case Wide(tag, payload) => (tag == 100 || tag == 104 || tag == 116) && |payload| == 8
    case Blob(bytes) => IsInt32(|bytes|)
    case _ => true
  }

  predicate ArgsOk(args: seq<Arg>) { forall i :: 0 <= i < |args| ==> ArgOk(args[i]) }

  predicate AddressOk(address: seq<Byte>) { address != [] && address[0] == SLASH && IsText(address) }

  /// A blob the decoder skips too far past: its size needs no padding.
  predicate Overshoots(a: Arg) { a.Blob? && |a.bytes| % 4 == 0 }

  predicate NoneOvershoot(args: seq<Arg>) { forall i :: 0 <= i < |args| ==> !Overshoots(args[i]) }

  predicate NoBlobs(args: seq<Arg>) { forall i :: 0 <= i < |args| ==> !args[i].Blob? }

  function Zeros(n: nat): (r: seq<Byte>)
    ensures |r| == n && forall i :: 0 <= i < n ==> r[i] == 0
  {
    if n == 0 then [] else [0] + Zeros(n - 1)
  }

  function EncodeString(s: seq<Byte>): seq<Byte> { s + Zeros(Padded(|s|) - |s|) }

  /// Two's complement, most significant byte first.
  function EncodeInt32(v: int): (r: seq<Byte>)
    ensures |r| == 4
  {
    var u := v % 0x1_0000_0000;
    var high, low := u / 0x1_0000, u % 0x1_0000;
    [high / 256, high % 256, low / 256, low % 256]
  }

  lemma Int32Back(v: int)
    requires IsInt32(v)
    ensures Int32(EncodeInt32(v)) == v
  {
    var u := v % 0x1_0000_0000;
    assert u == if v < 0 then v + 0x1_0000_0000 else v;
  }

  function Tag(a: Arg): Byte {
    match a
    case IntArg(_) => 105
    case FloatArg(_) => 102
    case StringArg(_) => 115
    case SymbolArg(_) => 83
    case True => 84
    case False => 70
    case Nil => 78
    case Impulse => 73
    case Wide(tag, _) => tag
    case Blob(_) => 98
  }

  function Tags(args: seq<Arg>): (r: seq<Byte>)
    ensures |r| == |args|
  {
    if args == [] then [] else [Tag(args[0])] + Tags(args[1..])
  }

  /// A blob is its size and its bytes, padded with 0 to 3 NULs.
  function EncodeArg(a: Arg): seq<Byte> {
    match a
    case IntArg(v) => EncodeInt32(v)
    case FloatArg(bits) => EncodeInt32(bits)
    case StringArg(s) => EncodeString(s)
    case SymbolArg(s) => EncodeString(s)
    case Wide(_, payload) => payload
    case Blob(bytes) => EncodeInt32(|bytes|) + bytes + Zeros((4 - |bytes| % 4) % 4)
    case _ => []
  }

  function EncodeArgs(args: seq<Arg>): seq<Byte> {
    if args == [] then [] else EncodeArg(args[0]) + EncodeArgs(args[1..])
  }

  function EncodeMessage(address: seq<Byte>, args: seq<Arg>): (r: seq<Byte>)
    ensures |r| >= 8
  {
    EncodeString(address) + (EncodeString([COMMA] + Tags(args)) + EncodeArgs(args))
  }

  /// What a message says once its arguments are grouped by type.
  function ValueOf(a: Arg): Args {
    match a
    case IntArg(v) => Args([v], [], [])
    case FloatArg(bits) => Args([], [bits], [])
    case StringArg(s) => Args([], [], [s])
    case SymbolArg(s) => Args([], [], [s])
    case True => Args([1], [], [])
    case False => Args([0], [], [])
    case _ => NOTHING
  }

  function ValuesOf(args: seq<Arg>): Args {
    if args == [] then NOTHING else Plus(ValueOf(args[0]), ValuesOf(args[1..]))
  }

  // --------------------------------------------------------- reading it back

  lemma {:induction false} TextEnds(s: seq<Byte>, rest: seq<Byte>)
    requires IsText(s) && rest != [] && rest[0] == 0
    ensures TextLength(s + rest) == |s|
  {
    if s == [] {
      assert s + rest == rest;
    } else {
      assert (s + rest)[1..] == s[1..] + rest;
      TextEnds(s[1..], rest);
    }
  }

  lemma ReadStringBack(s: seq<Byte>, rest: seq<Byte>)
    requires IsText(s)
    ensures ReadString(EncodeString(s) + rest) == Some((s, rest))
  {
    var all := EncodeString(s) + rest;
    var zeros := Zeros(Padded(|s|) - |s|);
    assert all == s + (zeros + rest);
    TextEnds(s, zeros + rest);
    assert all[..|s|] == s && all[Padded(|s|)..] == rest;
  }

  lemma ReadInt32Back(v: int, rest: seq<Byte>)
    requires IsInt32(v)
    ensures ReadInt32(EncodeInt32(v) + rest) == Some((v, rest))
  {
    var all := EncodeInt32(v) + rest;
    Int32Back(v);
    assert all[..4] == EncodeInt32(v) && all[4..] == rest;
  }

  lemma SkipBack(head: seq<Byte>, rest: seq<Byte>)
    ensures Skip(head + rest, |head|) == Some(rest)
  {
    assert (head + rest)[|head|..] == rest;
  }

  lemma ReadBlobBack(bytes: seq<Byte>, rest: seq<Byte>)
    requires IsInt32(|bytes|)
    ensures ReadArg(EncodeArg(Blob(bytes)) + rest, 98)
         == if Overshoots(Blob(bytes)) then (if |rest| < 4 then None else Some((NOTHING, rest[4..]))) else Some((NOTHING, rest))
  {
    var size, body := EncodeInt32(|bytes|), bytes + Zeros((4 - |bytes| % 4) % 4);
    assert EncodeArg(Blob(bytes)) + rest == size + (body + rest);
    ReadInt32Back(|bytes|, body + rest);
    SkipBlob(bytes, rest);
  }

  lemma SkipBlob(bytes: seq<Byte>, rest: seq<Byte>)
    ensures Skip(bytes + Zeros((4 - |bytes| % 4) % 4) + rest, Padded(|bytes|))
         == if Overshoots(Blob(bytes)) then (if |rest| < 4 then None else Some(rest[4..])) else Some(rest)
  {
    var body := bytes + Zeros((4 - |bytes| % 4) % 4);
    BlobBody(bytes);
    if Overshoots(Blob(bytes)) { SkipFurther(body, rest); } else { SkipBack(body, rest); }
  }

  lemma BlobBody(bytes: seq<Byte>)
    ensures |bytes + Zeros((4 - |bytes| % 4) % 4)| + (if Overshoots(Blob(bytes)) then 4 else 0) == Padded(|bytes|)
  {
    Rounding(|bytes|);
  }

  lemma SkipFurther(body: seq<Byte>, rest: seq<Byte>)
    ensures Skip(body + rest, |body| + 4) == if |rest| < 4 then None else Some(rest[4..])
  {
    assert |rest| >= 4 ==> (body + rest)[|body| + 4..] == rest[4..];
  }

  lemma Rounding(n: nat)
    ensures Padded(n) == n + if n % 4 == 0 then 4 else (4 - n % 4) % 4
    ensures n % 4 == 0 ==> (4 - n % 4) % 4 == 0
  {
  }

  lemma ReadArgBack(a: Arg, rest: seq<Byte>)
    requires ArgOk(a) && !Overshoots(a)
    ensures ReadArg(EncodeArg(a) + rest, Tag(a)) == Some((ValueOf(a), rest))
  {
    match a
    case IntArg(v) => ReadInt32Back(v, rest);
    case FloatArg(bits) => ReadInt32Back(bits, rest);
    case StringArg(s) => ReadStringBack(s, rest);
    case SymbolArg(s) => ReadStringBack(s, rest);
    case Wide(_, payload) => SkipBack(payload, rest);
    case Blob(bytes) => ReadBlobBack(bytes, rest);
    case _ => assert EncodeArg(a) + rest == rest;
  }

  /// Arguments that are read back exactly leave the rest of the message to be
  /// read as it would be on its own.
  lemma {:induction false} ReadArgsBack(args: seq<Arg>, rest: seq<Byte>, tags: seq<Byte>)
    requires ArgsOk(args) && NoneOvershoot(args)
    ensures var more := ReadArgs(rest, tags);
            ReadArgs(EncodeArgs(args) + rest, Tags(args) + tags)
            == if more.None? then None else Some((Plus(ValuesOf(args), more.value.0), more.value.1))
    decreases |args|
  {
    var more := ReadArgs(rest, tags);
    if args == [] {
      assert [] + rest == rest && [] + tags == tags;
      if more.Some? { PlusIsMonoid(more.value.0, NOTHING, NOTHING); }
    } else {
      var after := EncodeArgs(args[1..]) + rest;
      assert EncodeArgs(args) + rest == EncodeArg(args[0]) + after;
      assert Tags(args) + tags == [Tag(args[0])] + (Tags(args[1..]) + tags);
      ReadArgBack(args[0], after);
      ReadArgsBack(args[1..], rest, tags);
      FirstArg(EncodeArg(args[0]) + after, Tag(args[0]), Tags(args[1..]) + tags, ValueOf(args[0]), after);
      if more.Some? { PlusIsMonoid(ValueOf(args[0]), ValuesOf(args[1..]), more.value.0); }
    }
  }

  lemma FirstArg(rest: seq<Byte>, tag: Byte, tags: seq<Byte>, value: Args, after: seq<Byte>)
    requires ReadArg(rest, tag) == Some((value, after))
    ensures var more := ReadArgs(after, tags);
            ReadArgs(rest, [tag] + tags) == if more.None? then None else Some((Plus(value, more.value.0), more.value.1))
  {
    assert ([tag] + tags)[1..] == tags;
  }

  lemma {:induction false} TagsAreText(args: seq<Arg>)
    requires ArgsOk(args)
    ensures IsText(Tags(args))
  {
    if args != [] { TagsAreText(args[1..]); }
  }

  /// The arguments are all there is to decoding a well-formed message.
  lemma MessageIsItsArgs(address: seq<Byte>, args: seq<Arg>)
    requires AddressOk(address) && ArgsOk(args)
    ensures var read := ReadArgs(EncodeArgs(args), Tags(args));
            DecodeMessage(EncodeMessage(address, args)) == if read.None? then None else Some(Message(address, read.value.0))
  {
    var tags := [COMMA] + Tags(args);
    TagsAreText(args);
    ReadStringBack(address, EncodeString(tags) + EncodeArgs(args));
    ReadStringBack(tags, EncodeArgs(args));
    assert (EncodeString(tags) + EncodeArgs(args))[0] == COMMA;
    assert tags[1..] == Tags(args);
  }

  lemma MessageRoundTrip(address: seq<Byte>, args: seq<Arg>)
    requires AddressOk(address) && ArgsOk(args) && NoneOvershoot(args)
    ensures DecodeMessage(EncodeMessage(address, args)) == Some(Message(address, ValuesOf(args)))
  {
    MessageIsItsArgs(address, args);
    ReadArgsBack(args, [], []);
    assert EncodeArgs(args) + [] == EncodeArgs(args) && Tags(args) + [] == Tags(args);
    PlusIsMonoid(ValuesOf(args), NOTHING, NOTHING);
  }

  // ------------------------------------------------------------- bad blobs

  lemma ShapeOf(a: Arg, rest: seq<Byte>)
    requires ArgOk(a) && ReadArg(rest, Tag(a)).Some?
    ensures var read := ReadArg(rest, Tag(a)).value.0;
            |read.ints| == |ValueOf(a).ints| && |read.floats| == |ValueOf(a).floats| && |read.strings| == |ValueOf(a).strings|
  {
  }

  lemma PlusSplits(a: Args, b: Args, c: Args, d: Args)
    requires |a.ints| == |c.ints| && |a.floats| == |c.floats| && |a.strings| == |c.strings|
    requires Plus(a, b) == Plus(c, d)
    ensures a == c && b == d
  {
    var x, y := Plus(a, b), Plus(c, d);
    assert a.ints == x.ints[..|a.ints|] && c.ints == y.ints[..|a.ints|]
        && b.ints == x.ints[|a.ints|..] && d.ints == y.ints[|a.ints|..];
    assert a.floats == x.floats[..|a.floats|] && c.floats == y.floats[..|a.floats|]
        && b.floats == x.floats[|a.floats|..] && d.floats == y.floats[|a.floats|..];
    assert a.strings == x.strings[..|a.strings|] && c.strings == y.strings[..|a.strings|]
        && b.strings == x.strings[|a.strings|..] && d.strings == y.strings[|a.strings|..];
  }

  /// Reading the right value takes the right number of bytes, wherever it is
  /// read, unless it is a blob's.
  lemma {:induction false} RightValuesRightLength(args: seq<Arg>, rest: seq<Byte>)
    requires ArgsOk(args) && NoBlobs(args)
    requires var read := ReadArgs(rest, Tags(args)); read.Some? && read.value.0 == ValuesOf(args)
    ensures |EncodeArgs(args)| <= |rest|
    decreases |args|
  {
    if args != [] {
      assert Tags(args)[1..] == Tags(args[1..]);
      var first := ReadArg(rest, Tag(args[0])).value;
      var more := ReadArgs(first.1, Tags(args[1..])).value;
      ShapeOf(args[0], rest);
      PlusSplits(first.0, more.0, ValueOf(args[0]), ValuesOf(args[1..]));
      RightValuesRightLength(args[1..], first.1);
      OneRightLength(args[0], rest);
    }
  }

  lemma OneRightLength(a: Arg, rest: seq<Byte>)
    requires ArgOk(a) && !a.Blob? && ReadArg(rest, Tag(a)).Some? && ReadArg(rest, Tag(a)).value.0 == ValueOf(a)
    ensures |rest| == |EncodeArg(a)| + |ReadArg(rest, Tag(a)).value.1|
  {
    match a
    case StringArg(s) => assert ValueOf(a).strings[0] == s;
    case SymbolArg(s) => assert ValueOf(a).strings[0] == s;
    case _ =>
  }

  lemma {:induction false} ValuesOfSum(a: seq<Arg>, b: seq<Arg>)
    ensures ValuesOf(a + b) == Plus(ValuesOf(a), ValuesOf(b))
    decreases |a|
  {
    if a == [] {
      assert a + b == b;
      PlusIsMonoid(ValuesOf(b), NOTHING, NOTHING);
    } else {
      assert (a + b)[1..] == a[1..] + b;
      ValuesOfSum(a[1..], b);
      PlusIsMonoid(ValueOf(a[0]), ValuesOf(a[1..]), ValuesOf(b));
    }
  }

  lemma {:induction false} TagsOfSum(a: seq<Arg>, b: seq<Arg>)
    ensures Tags(a + b) == Tags(a) + Tags(b)
    decreases |a|
  {
    if a == [] {
      assert a + b == b;
    } else {
      assert (a + b)[1..] == a[1..] + b;
      TagsOfSum(a[1..], b);
    }
  }

  lemma {:induction false} EncodeArgsOfSum(a: seq<Arg>, b: seq<Arg>)
    ensures EncodeArgs(a + b) == EncodeArgs(a) + EncodeArgs(b)
    decreases |a|
  {
    if a == [] {
      assert a + b == b;
    } else {
      assert (a + b)[1..] == a[1..] + b;
      EncodeArgsOfSum(a[1..], b);
    }
  }

  /// The arguments after a blob that overshoots, read from four bytes too far
  /// on, come out as they were meant all the same.
  predicate ReadsShifted(after: seq<Arg>) {
    |EncodeArgs(after)| >= 4
    && var read := ReadArgs(EncodeArgs(after)[4..], Tags(after));
       read.Some? && read.value.0 == ValuesOf(after)
  }

  /// They never do with no other blob among them: four bytes are missing at the
  /// end.
  lemma OvershootLosesMessage(after: seq<Arg>)
    requires ArgsOk(after) && NoBlobs(after)
    ensures !ReadsShifted(after)
  {
    if ReadsShifted(after) { RightValuesRightLength(after, EncodeArgs(after)[4..]); }
  }

  lemma BadBlobShifts(before: seq<Arg>, bad: Arg, after: seq<Arg>)
    requires ArgsOk(before) && ArgOk(bad) && ArgsOk(after) && Overshoots(bad) && NoneOvershoot(before)
    ensures var read := ReadArgs(EncodeArgs(before) + (EncodeArg(bad) + EncodeArgs(after)), Tags(before) + ([98] + Tags(after)));
            read.Some? && read.value.0 == Plus(ValuesOf(before), ValuesOf(after)) <==> ReadsShifted(after)
  {
    var rest, tags := EncodeArg(bad) + EncodeArgs(after), [98] + Tags(after);
    ReadArgsBack(before, rest, tags);
    ReadBlobBack(bad.bytes, EncodeArgs(after));
    assert tags[1..] == Tags(after);
    if |EncodeArgs(after)| >= 4 {
      var read := ReadArgs(EncodeArgs(after)[4..], Tags(after));
      if read.Some? {
        PlusIsMonoid(read.value.0, NOTHING, NOTHING);
        if Plus(ValuesOf(before), read.value.0) == Plus(ValuesOf(before), ValuesOf(after)) {
          PlusSplits(ValuesOf(before), read.value.0, ValuesOf(before), ValuesOf(after));
        }
      }
    }
  }

  predicate ArgsSurvive(args: seq<Arg>) {
    var read := ReadArgs(EncodeArgs(args), Tags(args));
    read.Some? && read.value.0 == ValuesOf(args)
  }

  lemma BadBlobInMessage(before: seq<Arg>, bad: Arg, after: seq<Arg>)
    requires ArgsOk(before) && ArgOk(bad) && ArgsOk(after) && Overshoots(bad) && NoneOvershoot(before)
    ensures ArgsSurvive(before + ([bad] + after)) <==> ReadsShifted(after)
  {
    assert [bad][1..] == [];
    EncodeArgsOfSum([bad], after);
    EncodeArgsOfSum(before, [bad] + after);
    TagsOfSum([bad], after);
    TagsOfSum(before, [bad] + after);
    ValuesOfSum([bad], after);
    ValuesOfSum(before, [bad] + after);
    PlusIsMonoid(ValuesOf(after), NOTHING, NOTHING);
    BadBlobShifts(before, bad, after);
  }

  /// The first argument that overshoots, or how many there are.
  function FirstBad(args: seq<Arg>): (i: nat)
    ensures i <= |args| && (i < |args| ==> Overshoots(args[i]))
    ensures forall j :: 0 <= j < i ==> !Overshoots(args[j])
  {
    if args == [] || Overshoots(args[0]) then 0 else FirstBad(args[1..]) + 1
  }

  /// Exactly when a message survives, whatever its blobs: when none overshoots,
  /// or what follows the first that does reads the same four bytes further on.
  lemma MessageRoundTripsIff(address: seq<Byte>, args: seq<Arg>)
    requires AddressOk(address) && ArgsOk(args)
    ensures DecodeMessage(EncodeMessage(address, args)) == Some(Message(address, ValuesOf(args)))
            <==> FirstBad(args) == |args| || ReadsShifted(args[FirstBad(args) + 1..])
  {
    if FirstBad(args) == |args| {
      MessageRoundTrip(address, args);
    } else {
      MessageIsItsArgs(address, args);
      ArgsSurviveIff(args);
    }
  }

  lemma ArgsSurviveIff(args: seq<Arg>)
    requires ArgsOk(args) && FirstBad(args) < |args|
    ensures ArgsSurvive(args) <==> ReadsShifted(args[FirstBad(args) + 1..])
  {
    var i := FirstBad(args);
    SplitAtBad(args, i);
    BadBlobInMessage(args[..i], args[i], args[i + 1..]);
  }

  lemma SplitAtBad(args: seq<Arg>, i: nat)
    requires ArgsOk(args) && i < |args| && forall j :: 0 <= j < i ==> !Overshoots(args[j])
    ensures args == args[..i] + ([args[i]] + args[i + 1..])
    ensures ArgsOk(args[..i]) && ArgOk(args[i]) && ArgsOk(args[i + 1..]) && NoneOvershoot(args[..i])
  {
  }

  ghost predicate BlobsEndAtBad(args: seq<Arg>) {
    forall i, j :: 0 <= i < j < |args| && Overshoots(args[i]) ==> !args[j].Blob?
  }

  /// With no blob after one that overshoots: exactly when none does.
  lemma BadBlobLosesMessage(address: seq<Byte>, args: seq<Arg>)
    requires AddressOk(address) && ArgsOk(args) && BlobsEndAtBad(args)
    ensures DecodeMessage(EncodeMessage(address, args)) == Some(Message(address, ValuesOf(args)))
            <==> NoneOvershoot(args)
  {
    MessageRoundTripsIff(address, args);
    if FirstBad(args) < |args| { NoBlobsAfter(args); }
  }

  lemma NoBlobsAfter(args: seq<Arg>)
    requires ArgsOk(args) && BlobsEndAtBad(args) && FirstBad(args) < |args|
    ensures !ReadsShifted(args[FirstBad(args) + 1..])
  {
    var i := FirstBad(args);
    var after := args[i + 1..];
    assert forall j :: 0 <= j < |after| ==> after[j] == args[i + 1 + j];
    OvershootLosesMessage(after);
  }

  lemma ShiftedBlob(left: seq<Byte>)
    requires |left| == 8 && left[..4] == [0, 0, 0, 0]
    ensures ReadArgs(left, [98]) == Some((NOTHING, left[8..]))
  {
    assert Int32(left[..4]) == 0;
    assert left[4..][4..] == left[8..];
    assert ReadArg(left, 98) == Some((NOTHING, left[8..]));
    assert [98][1..] == [];
    PlusIsMonoid(NOTHING, NOTHING, NOTHING);
  }

  lemma HiddenArgs(bytes: seq<Byte>, later: seq<Byte>)
    requires |bytes| == 4 && |later| == 5 && later[..4] == [0, 0, 0, 0]
    ensures ReadArgs(EncodeArg(Blob(bytes)) + EncodeArg(Blob(later)), [98, 98]).Some?
    ensures ReadArgs(EncodeArg(Blob(bytes)) + EncodeArg(Blob(later)), [98, 98]).value.0 == NOTHING
  {
    var rest := EncodeArg(Blob(later));
    ReadBlobBack(bytes, rest);
    var left := rest[4..];
    assert left == later + Zeros(3);
    assert left[..4] == later[..4];
    ShiftedBlob(left);
    assert [98, 98][1..] == [98];
    PlusIsMonoid(NOTHING, NOTHING, NOTHING);
  }

  /// With another blob after it a message can be read as it was meant all the
  /// same: the missing four bytes are taken from that blob, when its first
  /// four are zero and it has one to three more.
  lemma LaterBlobCanHideIt(address: seq<Byte>)
    requires AddressOk(address)
    ensures var args := [Blob([1, 2, 3, 4]), Blob([0, 0, 0, 0, 9])];
            Overshoots(args[0])
            && DecodeMessage(EncodeMessage(address, args)) == Some(Message(address, ValuesOf(args)))
  {
    var first, second := Blob([1, 2, 3, 4]), Blob([0, 0, 0, 0, 9]);
    var args := [first, second];
    TwoArgs(first, second);
    assert [0, 0, 0, 0, 9][..4] == [0, 0, 0, 0];
    HiddenArgs(first.bytes, second.bytes);
    PlusIsMonoid(NOTHING, NOTHING, NOTHING);
    MessageIsItsArgs(address, args);
  }

  lemma TwoArgs(a: Arg, b: Arg)
    ensures EncodeArgs([a, b]) == EncodeArg(a) + EncodeArg(b) && Tags([a, b]) == [Tag(a), Tag(b)]
    ensures ValuesOf([a, b]) == Plus(ValueOf(a), ValueOf(b))
  {
    assert [a, b][1..] == [b] && [b][1..] == [];
    assert EncodeArgs([b]) == EncodeArg(b) + [];
    assert Tags([b])[0] == Tag(b);
    PlusIsMonoid(ValueOf(b), NOTHING, NOTHING);
    assert ValuesOf([b]) == ValueOf(b);
  }

  // ----------------------------------------------------------------- bundles

  predicate PacketOk(p: Packet)
    decreases p
  {
    match p
    case One(address, args) => AddressOk(address) && ArgsOk(args)
    case Bundle(timetag, elements) =>
      && |timetag| == 8
      && forall i :: 0 <= i < |elements| ==> PacketOk(elements[i]) && IsInt32(|Encode(elements[i])|)
  }

  function Encode(p: Packet): (r: seq<Byte>)
    ensures |r| >= 8
    decreases p
  {
    match p
    case One(address, args) => EncodeMessage(address, args)
    case Bundle(timetag, elements) => BUNDLE + [0] + timetag + EncodeElements(elements)
  }

  function EncodeElements(elements: seq<Packet>): seq<Byte>
    decreases elements
  {
    if elements == [] then []
    else EncodeInt32(|Encode(elements[0])|) + (Encode(elements[0]) + EncodeElements(elements[1..]))
  }

  /// What the decoder should make of a packet: what it makes of each message
  /// on its own, in order.
  function Heard(p: Packet): seq<Message>
    decreases p
  {
    match p
    case One(address, args) =>
      (match DecodeMessage(EncodeMessage(address, args)) case None => [] case Some(m) => [m])
    case Bundle(_, elements) => HeardAll(elements)
  }

  function HeardAll(elements: seq<Packet>): seq<Message>
    decreases elements
  {
    if elements == [] then [] else Heard(elements[0]) + HeardAll(elements[1..])
  }

  /// Every message of a tree of bundles is decoded as if it were alone, in
  /// order, whatever becomes of the ones before it.
  lemma {:induction false} BundlesFlatten(p: Packet)
    requires PacketOk(p)
    ensures Decode(Encode(p)) == Heard(p)
    decreases p
  {
    var data := Encode(p);
    match p
    case One(address, args) =>
      assert data[0] == SLASH;
      assert !IsBundle(data) by { assert data[..7][0] == SLASH; }
    case Bundle(timetag, elements) =>
      assert data == BUNDLE + ([0] + timetag + EncodeElements(elements));
      assert data[..7] == BUNDLE;
      assert data[16..] == EncodeElements(elements);
      ElementsFlatten(elements);
  }

  lemma {:induction false} ElementsFlatten(elements: seq<Packet>)
    requires forall i :: 0 <= i < |elements| ==> PacketOk(elements[i]) && IsInt32(|Encode(elements[i])|)
    ensures Elements(EncodeElements(elements)) == HeardAll(elements)
    decreases elements
  {
    if elements != [] {
      FirstElement(Encode(elements[0]), EncodeElements(elements[1..]));
      BundlesFlatten(elements[0]);
      ElementsFlatten(elements[1..]);
    }
  }

  lemma FirstElement(first: seq<Byte>, more: seq<Byte>)
    requires first != [] && IsInt32(|first|)
    ensures Elements(EncodeInt32(|first|) + (first + more)) == Decode(first) + Elements(more)
  {
    var size := EncodeInt32(|first|);
    var rest := size + (first + more);
    Int32Back(|first|);
    assert rest[..4] == size && rest[4..4 + |first|] == first && rest[4 + |first|..] == more;
  }

  predicate NoOvershoot(p: Packet)
    decreases p
  {
    match p
    case One(_, args) => NoneOvershoot(args)
    case Bundle(_, elements) => forall i :: 0 <= i < |elements| ==> NoOvershoot(elements[i])
  }

  /// The messages of a packet, in order, arguments grouped by type.
  function Flatten(p: Packet): seq<Message>
    decreases p
  {
    match p
    case One(address, args) => [Message(address, ValuesOf(args))]
    case Bundle(_, elements) => FlattenAll(elements)
  }

  function FlattenAll(elements: seq<Packet>): seq<Message>
    decreases elements
  {
    if elements == [] then [] else Flatten(elements[0]) + FlattenAll(elements[1..])
  }

  /// Any tree of messages and nested bundles comes out as exactly its messages
  /// when no blob's size is a multiple of four.
  lemma PacketRoundTrip(p: Packet)
    requires PacketOk(p) && NoOvershoot(p)
    ensures Decode(Encode(p)) == Flatten(p)
  {
    BundlesFlatten(p);
    HeardIsFlat(p);
  }

  lemma {:induction false} HeardIsFlat(p: Packet)
    requires PacketOk(p) && NoOvershoot(p)
    ensures Heard(p) == Flatten(p)
    decreases p
  {
    match p
    case One(address, args) => MessageRoundTrip(address, args);
    case Bundle(_, elements) => HeardAllIsFlat(elements);
  }

  lemma {:induction false} HeardAllIsFlat(elements: seq<Packet>)
    requires forall i :: 0 <= i < |elements| ==> PacketOk(elements[i]) && NoOvershoot(elements[i])
    ensures HeardAll(elements) == FlattenAll(elements)
    decreases elements
  {
    if elements != [] {
      HeardIsFlat(elements[0]);
      HeardAllIsFlat(elements[1..]);
    }
  }
}
