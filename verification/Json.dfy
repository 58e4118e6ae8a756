/// JSON values, what the parser accepts and what the printer writes
/// (src/core/json.cpp). Text and strings are bytes; numbers are reals.
module Json {
  import opened Basics

  type Text = seq<Byte>

  datatype Value = Null | Bool(b: bool) | Number(n: real) | Str(s: Text) | Array(elements: seq<Value>)
    | Object(members: seq<Member>)

  datatype Member = Member(key: Text, value: Value)

  const QUOTE: Byte := 34
  const COMMA: Byte := 44
  const COLON: Byte := 58
  const BACKSLASH: Byte := 92
  const OPEN_ARRAY: Byte := 91
  const CLOSE_ARRAY: Byte := 93
  const OPEN_OBJECT: Byte := 123
  const CLOSE_OBJECT: Byte := 125
  const NEWLINE: Byte := 10
  const MAX_DEPTH: nat := 64

  /// "null", "true", "false"
  const NULL_TEXT: Text := [110, 117, 108, 108]
  const TRUE_TEXT: Text := [116, 114, 117, 101]
  const FALSE_TEXT: Text := [102, 97, 108, 115, 101]

  // ---------------------------------------------------------------- members

  /// The first member named `key`, or how many there are.
  function IndexOf(members: seq<Member>, key: Text): (i: nat)
    ensures i <= |members|
    ensures i < |members| ==> members[i].key == key
    ensures forall j :: 0 <= j < i ==> members[j].key != key
  {
    if members == [] || members[0].key == key then 0 else IndexOf(members[1..], key) + 1
  }

  /// Replaces in place, or adds at the end.
  function Set(members: seq<Member>, key: Text, value: Value): seq<Member> {
    var i := IndexOf(members, key);
    if i < |members| then members[i := Member(key, value)] else members + [Member(key, value)]
  }

  function Get(members: seq<Member>, key: Text): Value {
    var i := IndexOf(members, key);
    if i < |members| then members[i].value else Null
  }

  ghost predicate UniqueKeys(members: seq<Member>) {
    forall i, j :: 0 <= i < j < |members| ==> members[i].key != members[j].key
  }

  /// What setting a member does to every key, and that no key is ever there
  /// twice or moves.
  lemma SetThenGet(members: seq<Member>, key: Text, value: Value, other: Text)
    ensures Get(Set(members, key, value), other) == if other == key then value else Get(members, other)
    ensures UniqueKeys(members) ==> UniqueKeys(Set(members, key, value))
    ensures |members| <= |Set(members, key, value)|
    ensures forall i :: 0 <= i < |members| ==> Set(members, key, value)[i].key == members[i].key
  {
    var i, after := IndexOf(members, key), Set(members, key, value);
    var j, k := IndexOf(members, other), IndexOf(after, other);
    assert forall x :: 0 <= x < |members| ==> after[x].key == members[x].key;
    assert j < |members| ==> after[j].key == other;
    assert k < |members| ==> members[k].key == other;
    assert i == |members| ==> after[i] == Member(key, value);
    if other == key {
      assert after[i].key == key;
      assert k == i;
    }
  }

  // ------------------------------------------------------------ white space

  predicate IsSpace(c: Byte) { c == 32 || c == 9 || c == 10 || c == 13 }

  function SkipSpace(rest: Text): (r: Text)
    ensures |r| <= |rest|
    ensures r != [] ==> !IsSpace(r[0])
  {
    if rest != [] && IsSpace(rest[0]) then SkipSpace(rest[1..]) else rest
  }

  function Literal(rest: Text, word: Text): Option<Text> {
    if |rest| >= |word| && rest[..|word|] == word then Some(rest[|word|..]) else None
  }

  // ---------------------------------------------------------------- strings

  function HexDigit(c: Byte): Option<nat> {
    if 48 <= c <= 57 then Some(c - 48)
    else if 97 <= c <= 102 then Some(c - 87)
    else if 65 <= c <= 70 then Some(c - 55)
    else None
  }

  /// Four hex digits as a number.
  function Hex4(rest: Text): (r: Option<nat>)
    ensures r.Some? ==> |rest| >= 4 && r.value < 0x10000
  {
    if |rest| < 4 then None
    else
      match (HexDigit(rest[0]), HexDigit(rest[1]), HexDigit(rest[2]), HexDigit(rest[3]))
      case (Some(a), Some(b), Some(c), Some(d)) => Some(((a * 16 + b) * 16 + c) * 16 + d)
      case _ => None
  }

  /// UTF-8, for any 21-bit number.
  function Utf8(code: nat): Text
    requires code < 0x200000
  {
    if code < 0x80 then [code]
    else if code < 0x800 then [0xC0 + code / 64, 0x80 + code % 64]
    else if code < 0x10000 then [0xE0 + code / 4096, 0x80 + code / 64 % 64, 0x80 + code % 64]
    else [0xF0 + code / 262144, 0x80 + code / 4096 % 64, 0x80 + code / 64 % 64, 0x80 + code % 64]
  }

  predicate IsHigh(code: nat) { 0xD800 <= code <= 0xDBFF }

  predicate IsLow(code: nat) { 0xDC00 <= code <= 0xDFFF }

  /// The escape after a \u has been read: one code unit, or the pair it starts.
  /// The number of bytes it took, and the code point.
  function UnicodeEscape(rest: Text): (r: Option<(nat, nat)>)
    ensures r.Some? ==> 4 <= r.value.0 <= |rest| && r.value.1 < 0x200000
  {
    match Hex4(rest)
    case None => None
    case Some(code) =>
      if IsHigh(code) && |rest| >= 6 && rest[4] == BACKSLASH && rest[5] == 117
         && Hex4(rest[6..]).Some? && IsLow(Hex4(rest[6..]).value)
      then Some((10, 0x10000 + (code - 0xD800) * 1024 + (Hex4(rest[6..]).value - 0xDC00)))
      else Some((4, code))
  }

  /// What a single-letter escape stands for.
  function SimpleEscape(c: Byte): Option<Byte> {
    match c as int
    case 34 => Some(34)
    case 92 => Some(92)
    case 47 => Some(47)
    case 98 => Some(8)
    case 102 => Some(12)
    case 110 => Some(10)
    case 114 => Some(13)
    case 116 => Some(9)
    case _ => None
  }

  /// An escape after its backslash: what it stands for, and how long it is.
  function Escape(rest: Text): (r: Option<(Text, nat)>)
    ensures r.Some? ==> 1 <= r.value.1 <= |rest|
  {
    if rest == [] then None
    else if rest[0] == 117 then
      match UnicodeEscape(rest[1..])
      case None => None
      case Some(u) => Some((Utf8(u.1), 1 + u.0))
    else
      match SimpleEscape(rest[0])
      case None => None
      case Some(c) => Some(([c], 1))
  }

  function Prefixed(head: Text, r: Option<(Text, Text)>): Option<(Text, Text)> {
    match r case None => None case Some(x) => Some((head + x.0, x.1))
  }

  /// The rest of a string up to its closing quote.
  function Chars(rest: Text): (r: Option<(Text, Text)>)
    ensures r.Some? ==> |r.value.1| < |rest|
    decreases |rest|
  {
    if rest == [] then None
    else if rest[0] == QUOTE then Some(([], rest[1..]))
    else if rest[0] != BACKSLASH then Prefixed([rest[0]], Chars(rest[1..]))
    else
      match Escape(rest[1..])
      case None => None
      case Some(e) => Prefixed(e.0, Chars(rest[1 + e.1..]))
  }

  function ParseString(rest: Text): (r: Option<(Text, Text)>)
    ensures r.Some? ==> |r.value.1| + 2 <= |rest|
  {
    if rest == [] || rest[0] != QUOTE then None else Chars(rest[1..])
  }

  // ---------------------------------------------------------------- numbers

  predicate IsDigit(c: Byte) { 48 <= c <= 57 }

  predicate AllDigits(s: Text) { forall i :: 0 <= i < |s| ==> IsDigit(s[i]) }

  /// How many digits `rest` starts with.
  function DigitRun(rest: Text): (n: nat)
    ensures n <= |rest|
    ensures forall i :: 0 <= i < n ==> IsDigit(rest[i])
    ensures n < |rest| ==> !IsDigit(rest[n])
  {
    if rest == [] || !IsDigit(rest[0]) then 0 else DigitRun(rest[1..]) + 1
  }

  function DigitValue(c: Byte): nat
    requires IsDigit(c)
  {
    var d: int := c;
    d - 48
  }

  function DigitsValue(digits: Text): nat
    requires AllDigits(digits)
  {
    if digits == [] then 0 else DigitsValue(digits[..|digits| - 1]) * 10 + DigitValue(digits[|digits| - 1])
  }

  function Power10(n: nat): nat { if n == 0 then 1 else Power10(n - 1) * 10 }

  function SignLength(rest: Text): (n: nat)
    ensures n <= |rest| && n <= 1
  {
    if rest != [] && (rest[0] == 45 || rest[0] == 43) then 1 else 0
  }

  /// An optional fraction: its digits, and how long it is with its point.
  function Fraction(rest: Text): (r: (Text, nat))
    ensures r.1 <= |rest| && |r.0| <= r.1 && AllDigits(r.0)
  {
    if rest == [] || rest[0] != 46 then ([], 0)
    else
      var n := DigitRun(rest[1..]);
      (rest[1..][..n], 1 + n)
  }

  /// An optional exponent: its sign, its digits, and how long it is.
  function Exponent(rest: Text): (r: (bool, Text, nat))
    ensures r.2 <= |rest| && AllDigits(r.1)
  {
    if rest == [] || (rest[0] != 101 && rest[0] != 69) then (false, [], 0)
    else
      var sign := SignLength(rest[1..]);
      var n := DigitRun(rest[1 + sign..]);
      (sign == 1 && rest[1] == 45, rest[1 + sign..][..n], 1 + sign + n)
  }

  /// Sign and digits; fraction and exponent; the whole of a number's text.
  function HeadLength(rest: Text): (n: nat)
    ensures SignLength(rest) <= n <= |rest|
  {
    SignLength(rest) + DigitRun(rest[SignLength(rest)..])
  }

  function TailLength(rest: Text): (n: nat)
    ensures n <= |rest|
  {
    Fraction(rest).1 + Exponent(rest[Fraction(rest).1..]).2
  }

  function NumberLength(rest: Text): (n: nat)
    ensures n <= |rest|
  {
    HeadLength(rest) + TailLength(rest[HeadLength(rest)..])
  }

  /// There is a digit before any exponent.
  predicate NumberDigits(rest: Text) {
    HeadLength(rest) > SignLength(rest) || Fraction(rest[HeadLength(rest)..]).0 != []
  }

  /// The parts of a number.
  datatype Scanned = Scanned(negative: bool, whole: Text, fraction: Text, exponentNegative: bool, exponent: Text)

  function Scan(rest: Text): (r: Scanned)
    ensures AllDigits(r.whole) && AllDigits(r.fraction) && AllDigits(r.exponent)
  {
    var sign, head := SignLength(rest), HeadLength(rest);
    WithTail(sign == 1 && rest[0] == 45, rest[sign..][..head - sign], rest[head..])
  }

  function WithTail(negative: bool, whole: Text, rest: Text): (r: Scanned)
    requires AllDigits(whole)
    ensures AllDigits(r.whole) && AllDigits(r.fraction) && AllDigits(r.exponent)
  {
    var fraction := Fraction(rest);
    var exponent := Exponent(rest[fraction.1..]);
    Scanned(negative, whole, fraction.0, exponent.0, exponent.1)
  }

  /// The exact value of a scanned number.
  function ScannedValue(r: Scanned): real
    requires AllDigits(r.whole) && AllDigits(r.fraction) && AllDigits(r.exponent)
  {
    var mantissa := DigitsValue(r.whole) as real + Ratio(DigitsValue(r.fraction) as real, Power10(|r.fraction|));
    var power := Power10(DigitsValue(r.exponent));
    var scaled := if r.exponentNegative then Ratio(mantissa, power) else mantissa * power as real;
    if r.negative then -scaled else scaled
  }

  function Ratio(a: real, b: nat): real { if b == 0 then 0.0 else a / b as real }

  /// The number `rest` starts with, exactly.
  function NumberAt(rest: Text): Value { Number(ScannedValue(Scan(rest))) }

  function ParseNumber(rest: Text): (r: Option<(Value, Text)>)
    ensures r.Some? ==> |r.value.1| < |rest|
  {
    if NumberDigits(rest) then Some((NumberAt(rest), rest[NumberLength(rest)..])) else None
  }

  // ----------------------------------------------------------------- values

  function WithLiteral(rest: Text, word: Text, value: Value): (r: Option<(Value, Text)>)
    ensures r.Some? && word != [] ==> |r.value.1| < |rest|
  {
    match Literal(rest, word) case None => None case Some(after) => Some((value, after))
  }

  /// A value with `depth` values open around it, and what is left.
  function ParseValue(rest: Text, depth: nat): (r: Option<(Value, Text)>)
    ensures r.Some? ==> |r.value.1| < |rest|
    decreases |rest|, 3
  {
    if depth + 1 > MAX_DEPTH then None else ParseInner(SkipSpace(rest), depth + 1)
  }

  function ParseInner(rest: Text, depth: nat): (r: Option<(Value, Text)>)
    ensures r.Some? ==> |r.value.1| < |rest|
    decreases |rest|, 2
  {
    if rest == [] then None
    else match rest[0] as int
      case 123 => ParseObject(rest, depth)
      case 91 => ParseArray(rest, depth)
      case 34 => (match ParseString(rest) case None => None case Some(s) => Some((Str(s.0), s.1)))
      case 116 => WithLiteral(rest, TRUE_TEXT, Bool(true))
      case 102 => WithLiteral(rest, FALSE_TEXT, Bool(false))
      case 110 => WithLiteral(rest, NULL_TEXT, Null)
      case _ => ParseNumber(rest)
  }

  function ParseObject(rest: Text, depth: nat): (r: Option<(Value, Text)>)
    requires rest != []
    ensures r.Some? ==> |r.value.1| < |rest|
    decreases |rest|, 1
  {
    var after := SkipSpace(rest[1..]);
    if after != [] && after[0] == CLOSE_OBJECT then Some((Object([]), after[1..]))
    else ParseMembers(after, [], depth)
  }

  function ParseMembers(rest: Text, members: seq<Member>, depth: nat): (r: Option<(Value, Text)>)
    ensures r.Some? ==> |r.value.1| < |rest|
    decreases |rest|, 4
  {
    match ParseString(SkipSpace(rest))
    case None => None
    case Some(key) =>
      var colon := SkipSpace(key.1);
      if colon == [] || colon[0] != COLON then None
      else match ParseValue(colon[1..], depth)
        case None => None
        case Some(value) =>
          var more, after := Set(members, key.0, value.0), SkipSpace(value.1);
          if after == [] then None
          else if after[0] == COMMA then ParseMembers(after[1..], more, depth)
          else if after[0] == CLOSE_OBJECT then Some((Object(more), after[1..]))
          else None
  }

  function ParseArray(rest: Text, depth: nat): (r: Option<(Value, Text)>)
    requires rest != []
    ensures r.Some? ==> |r.value.1| < |rest|
    decreases |rest|, 1
  {
    var after := SkipSpace(rest[1..]);
    if after != [] && after[0] == CLOSE_ARRAY then Some((Array([]), after[1..]))
    else ParseElements(after, [], depth)
  }

  function ParseElements(rest: Text, elements: seq<Value>, depth: nat): (r: Option<(Value, Text)>)
    ensures r.Some? ==> |r.value.1| < |rest|
    decreases |rest|, 4
  {
    match ParseValue(rest, depth)
    case None => None
    case Some(value) =>
      var more, after := elements + [value.0], SkipSpace(value.1);
      if after == [] then None
      else if after[0] == COMMA then ParseElements(after[1..], more, depth)
      else if after[0] == CLOSE_ARRAY then Some((Array(more), after[1..]))
      else None
  }

  /// The whole text is one value, with only white space around it.
  function Parse(text: Text): Option<Value> {
    match ParseValue(SkipSpace(text), 0)
    case None => None
    case Some(r) => if SkipSpace(r.1) == [] then Some(r.0) else None
  }

  // ---------------------------------------------------------------- printing

  function LowerHex(n: nat): Byte
    requires n < 16
  {
    if n < 10 then 48 + n else 87 + n
  }

  function EscapedByte(c: Byte): Text {
    match c as int
    case 34 => [BACKSLASH, 34]
    case 92 => [BACKSLASH, 92]
    case 10 => [BACKSLASH, 110]
    case 13 => [BACKSLASH, 114]
    case 9 => [BACKSLASH, 116]
    case 8 => [BACKSLASH, 98]
    case 12 => [BACKSLASH, 102]
    case _ => if c < 0x20 then [BACKSLASH, 117, 48, 48, LowerHex(c / 16), LowerHex(c % 16)] else [c]
  }

  function EscapedBytes(s: Text): Text {
    if s == [] then [] else EscapedByte(s[0]) + EscapedBytes(s[1..])
  }

  function Escaped(s: Text): Text { [QUOTE] + EscapedBytes(s) + [QUOTE] }

  function DigitsOf(n: nat): (r: Text)
    ensures |r| > 0 && AllDigits(r)
  {
    if n < 10 then [48 + n] else DigitsOf(n / 10) + [48 + n % 10]
  }

  function IntegerText(n: int): Text { if n < 0 then [45] + DigitsOf(-n) else DigitsOf(n) }

  const LIMIT: real := 1000000000000000.0

  predicate IsInteger(n: real) { n == n.Floor as real && -LIMIT < n < LIMIT }

  /// Whole numbers as integers, anything else as `fractional` prints it.
  function NumberText(n: real, fractional: real -> Text): Text {
    if IsInteger(n) then IntegerText(n.Floor) else fractional(n)
  }

  function Spaces(n: nat): (r: Text)
    ensures |r| == n && forall i :: 0 <= i < n ==> r[i] == 32
  {
    if n == 0 then [] else [32] + Spaces(n - 1)
  }

  /// What comes before a value on its own line, or nothing.
  function Lead(pretty: bool, depth: nat): Text { if pretty then [NEWLINE] + Spaces(depth * 2) else [] }

  function AfterKey(pretty: bool): Text { if pretty then [COLON, 32] else [COLON] }

  function Printed(v: Value, pretty: bool, depth: nat, fractional: real -> Text): Text
    decreases v
  {
    match v
    case Null => NULL_TEXT
    case Bool(b) => if b then TRUE_TEXT else FALSE_TEXT
    case Number(n) => NumberText(n, fractional)
    case Str(s) => Escaped(s)
    case Array(elements) =>
      if elements == [] then [OPEN_ARRAY, CLOSE_ARRAY]
      else [OPEN_ARRAY] + PrintedElements(elements, pretty, depth, fractional) + (Lead(pretty, depth) + [CLOSE_ARRAY])
    case Object(members) =>
      if members == [] then [OPEN_OBJECT, CLOSE_OBJECT]
      else [OPEN_OBJECT] + PrintedMembers(members, pretty, depth, fractional) + (Lead(pretty, depth) + [CLOSE_OBJECT])
  }

  function PrintedElements(elements: seq<Value>, pretty: bool, depth: nat, fractional: real -> Text): Text
    decreases elements
  {
    if elements == [] then []
    else Lead(pretty, depth + 1) + (Printed(elements[0], pretty, depth + 1, fractional)
         + ((if |elements| == 1 then [] else [COMMA]) + PrintedElements(elements[1..], pretty, depth, fractional)))
  }

  function PrintedMembers(members: seq<Member>, pretty: bool, depth: nat, fractional: real -> Text): Text
    decreases members
  {
    if members == [] then []
    else Lead(pretty, depth + 1) + (Escaped(members[0].key) + (AfterKey(pretty) + (Printed(members[0].value, pretty, depth + 1, fractional)
         + ((if |members| == 1 then [] else [COMMA]) + PrintedMembers(members[1..], pretty, depth, fractional)))))
  }

  /// How deeply values nest, counting the value itself.
  function Height(v: Value): (h: nat)
    ensures h >= 1
    decreases v
  {
    match v
    case Array(elements) => 1 + ElementsHeight(elements)
    case Object(members) => 1 + MembersHeight(members)
    case _ => 1
  }

  function ElementsHeight(elements: seq<Value>): nat
    decreases elements
  {
    if elements == [] then 0 else Max(Height(elements[0]), ElementsHeight(elements[1..]))
  }

  function MembersHeight(members: seq<Member>): nat
    decreases members
  {
    if members == [] then 0 else Max(Height(members[0].value), MembersHeight(members[1..]))
  }

  /// Every object's keys are unique and every number is a whole one below
  /// 10^15 in magnitude.
  ghost predicate Plain(v: Value)
    decreases v
  {
    match v
    case Number(n) => IsInteger(n)
    case Array(elements) => forall i :: 0 <= i < |elements| ==> Plain(elements[i])
    case Object(members) => UniqueKeys(members) && forall i :: 0 <= i < |members| ==> Plain(members[i].value)
    case _ => true
  }
}
