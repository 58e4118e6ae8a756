/// Printing and parsing back, in both layouts; and the escapes of section 7 of
/// RFC 8259.
module JsonRoundTrip {
  import opened Basics
  import opened Json

  /// What may follow a value: nothing that a number could run into.
  predicate Stops(tail: Text) {
    tail == [] || tail[0] == COMMA || tail[0] == CLOSE_ARRAY || tail[0] == CLOSE_OBJECT || tail[0] == NEWLINE
  }

  // ------------------------------------------------------------ white space

  lemma {:induction false} SkipSpaces(n: nat, rest: Text)
    ensures SkipSpace(Spaces(n) + rest) == SkipSpace(rest)
  {
    if n == 0 {
      assert Spaces(0) + rest == rest;
    } else {
      assert (Spaces(n) + rest)[1..] == Spaces(n - 1) + rest;
      SkipSpaces(n - 1, rest);
    }
  }

  lemma SkipLead(pretty: bool, depth: nat, rest: Text)
    requires rest != [] && !IsSpace(rest[0])
    ensures SkipSpace(Lead(pretty, depth) + rest) == rest == SkipSpace(rest)
  {
    if pretty {
      SkipSpaces(depth * 2, rest);
      assert (Lead(pretty, depth) + rest)[1..] == Spaces(depth * 2) + rest;
    } else {
      assert Lead(pretty, depth) + rest == rest;
    }
  }

  // ---------------------------------------------------------------- strings

  lemma ControlBack(c: Byte, rest: Text)
    requires c < 0x20
    ensures UnicodeEscape([48, 48, LowerHex(c / 16), LowerHex(c % 16)] + rest) == Some((4, c as nat))
  {
    var all := [48, 48, LowerHex(c / 16), LowerHex(c % 16)] + rest;
    assert HexDigit(all[2]) == Some(c / 16) && HexDigit(all[3]) == Some(c % 16);
    assert Hex4(all) == Some(c as nat);
  }

  lemma ByteBack(c: Byte, rest: Text)
    ensures Chars(EscapedByte(c) + rest) == Prefixed([c], Chars(rest))
  {
    if |EscapedByte(c)| == 6 {
      ControlChars(c, rest);
    } else if |EscapedByte(c)| == 2 {
      LetterBack(EscapedByte(c)[1], c, rest);
      assert EscapedByte(c) == [BACKSLASH, EscapedByte(c)[1]];
    } else {
      assert (EscapedByte(c) + rest)[1..] == rest;
    }
  }

  /// An escape and what follows it.
  lemma EscapeBack(escape: Text, bytes: Text, rest: Text)
    requires Escape(escape + rest) == Some((bytes, |escape|))
    ensures Chars([BACKSLASH] + escape + rest) == Prefixed(bytes, Chars(rest))
  {
    var all := [BACKSLASH] + escape + rest;
    assert all[1..] == escape + rest && all[1 + |escape|..] == rest;
  }

  lemma LetterBack(letter: Byte, c: Byte, rest: Text)
    requires SimpleEscape(letter) == Some(c)
    ensures Chars([BACKSLASH, letter] + rest) == Prefixed([c], Chars(rest))
  {
    EscapeBack([letter], [c], rest);
    assert [BACKSLASH] + [letter] == [BACKSLASH, letter];
  }

  lemma ControlChars(c: Byte, rest: Text)
    requires c < 0x20
    ensures Chars([BACKSLASH, 117, 48, 48, LowerHex(c / 16), LowerHex(c % 16)] + rest) == Prefixed([c], Chars(rest))
  {
    var hex := [48, 48, LowerHex(c / 16), LowerHex(c % 16)];
    ControlBack(c, rest);
    assert ([117] + hex + rest)[1..] == hex + rest;
    EscapeBack([117] + hex, [c], rest);
    assert [BACKSLASH] + ([117] + hex) == [BACKSLASH, 117, 48, 48, LowerHex(c / 16), LowerHex(c % 16)];
  }

  lemma {:induction false} BytesBack(s: Text, tail: Text)
    ensures Chars(EscapedBytes(s) + ([QUOTE] + tail)) == Some((s, tail))
  {
    var rest := [QUOTE] + tail;
    if s == [] {
      assert EscapedBytes(s) + rest == rest && rest[1..] == tail;
    } else {
      assert EscapedBytes(s) + rest == EscapedByte(s[0]) + (EscapedBytes(s[1..]) + rest);
      ByteBack(s[0], EscapedBytes(s[1..]) + rest);
      BytesBack(s[1..], tail);
      assert [s[0]] + s[1..] == s;
    }
  }

  /// Any bytes at all survive a string.
  lemma StringBack(s: Text, tail: Text)
    ensures ParseString(Escaped(s) + tail) == Some((s, tail))
  {
    assert (Escaped(s) + tail)[1..] == EscapedBytes(s) + ([QUOTE] + tail);
    BytesBack(s, tail);
  }

  // ---------------------------------------------------------------- numbers

  lemma {:induction false} RunOfDigits(digits: Text, tail: Text)
    requires AllDigits(digits) && (tail == [] || !IsDigit(tail[0]))
    ensures DigitRun(digits + tail) == |digits|
  {
    if digits == [] {
      assert digits + tail == tail;
    } else {
      assert (digits + tail)[1..] == digits[1..] + tail;
      RunOfDigits(digits[1..], tail);
    }
  }

  lemma {:induction false} DigitsBack(n: nat)
    ensures DigitsValue(DigitsOf(n)) == n
  {
    var d := DigitsOf(n);
    if n < 10 {
      assert d[..0] == [];
    } else {
      DigitsBack(n / 10);
      assert d[..|d| - 1] == DigitsOf(n / 10);
    }
  }

  lemma NoTail(negative: bool, digits: Text, tail: Text)
    requires Stops(tail) && AllDigits(digits)
    ensures WithTail(negative, digits, tail) == Scanned(negative, digits, [], false, []) && TailLength(tail) == 0
  {
    assert tail[0..] == tail;
  }

  lemma SignOf(n: int, tail: Text)
    ensures var all := IntegerText(n) + tail;
            SignLength(all) == (if n < 0 then 1 else 0) && (n < 0 ==> all[0] == 45)
            && all[if n < 0 then 1 else 0..] == DigitsOf(if n < 0 then -n else n) + tail
  {
    var digits := DigitsOf(if n < 0 then -n else n);
    assert IsDigit(digits[0]);
    assert n >= 0 ==> (digits + tail)[0..] == digits + tail;
    assert n < 0 ==> ([45] + digits + tail)[1..] == digits + tail;
  }

  lemma ScanInteger(n: int, tail: Text)
    requires Stops(tail)
    ensures var all := IntegerText(n) + tail;
            && Scan(all) == Scanned(n < 0, DigitsOf(if n < 0 then -n else n), [], false, [])
            && NumberDigits(all) && NumberLength(all) == |IntegerText(n)|
  {
    var digits := DigitsOf(if n < 0 then -n else n);
    var all, sign := IntegerText(n) + tail, if n < 0 then 1 else 0;
    SignOf(n, tail);
    RunOfDigits(digits, tail);
    Cut(all, sign, digits, tail);
    assert HeadLength(all) == sign + |digits|;
    NoTail(n < 0, digits, tail);
  }

  lemma Cut(all: Text, sign: nat, digits: Text, tail: Text)
    requires sign <= |all| && all[sign..] == digits + tail
    ensures |all| == sign + |digits| + |tail| && all[sign..sign + |digits|] == digits && all[sign + |digits|..] == tail
  {
    assert all[sign..sign + |digits|] == all[sign..][..|digits|];
    assert all[sign + |digits|..] == all[sign..][|digits|..];
  }

  lemma WholeValue(negative: bool, digits: Text)
    requires AllDigits(digits)
    ensures ScannedValue(Scanned(negative, digits, [], false, []))
         == if negative then -(DigitsValue(digits) as real) else DigitsValue(digits) as real
  {
    assert Power10(0) == 1 && DigitsValue([]) == 0;
  }

  lemma NumberBack(n: int, tail: Text)
    requires Stops(tail)
    ensures ParseNumber(IntegerText(n) + tail) == Some((Number(n as real), tail))
  {
    var m := if n < 0 then -n else n;
    ScanInteger(n, tail);
    WholeValue(n < 0, DigitsOf(m));
    DigitsBack(m);
    assert (IntegerText(n) + tail)[|IntegerText(n)|..] == tail;
  }

  // ----------------------------------------------------------------- values

  /// A value starts with something that is neither white space nor a closing
  /// bracket.
  lemma Starts(v: Value, pretty: bool, depth: nat, fractional: real -> Text)
    requires Plain(v)
    ensures var p := Printed(v, pretty, depth, fractional); p != [] && !IsSpace(p[0]) && p[0] != CLOSE_ARRAY
  {
    if v.Number? { IntegerStarts(v.n.Floor); }
  }

  lemma WordBack(word: Text, value: Value, tail: Text)
    ensures WithLiteral(word + tail, word, value) == Some((value, tail))
  {
    assert (word + tail)[..|word|] == word && (word + tail)[|word|..] == tail;
  }

  lemma NumberInner(n: real, depth: nat, tail: Text)
    requires IsInteger(n) && Stops(tail)
    ensures ParseInner(IntegerText(n.Floor) + tail, depth) == Some((Number(n), tail))
  {
    NumberBack(n.Floor, tail);
    IntegerStarts(n.Floor);
    InnerNumber(IntegerText(n.Floor) + tail, depth);
  }

  lemma IntegerStarts(n: int)
    ensures var t := IntegerText(n); t != [] && (t[0] == 45 || IsDigit(t[0]))
  {
    assert IsDigit(DigitsOf(if n < 0 then -n else n)[0]);
  }

  lemma InnerNumber(text: Text, depth: nat)
    requires text != [] && (text[0] == 45 || IsDigit(text[0]))
    ensures ParseInner(text, depth) == ParseNumber(text)
  {
    OtherInner(text, depth, text[0]);
  }

  lemma OtherInner(text: Text, depth: nat, c: Byte)
    requires text != [] && text[0] == c
    requires c != QUOTE && c != OPEN_ARRAY && c != OPEN_OBJECT && c != 116 && c != 102 && c != 110
    ensures ParseInner(text, depth) == ParseNumber(text)
  {
  }

  lemma ScalarBack(v: Value, pretty: bool, d: nat, fractional: real -> Text, depth: nat, tail: Text)
    requires Plain(v) && !v.Array? && !v.Object? && Stops(tail)
    ensures ParseInner(Printed(v, pretty, d, fractional) + tail, depth) == Some((v, tail))
  {
    match v
    case Null => WordBack(NULL_TEXT, v, tail);
    case Bool(b) => WordBack(if b then TRUE_TEXT else FALSE_TEXT, v, tail);
    case Number(n) => NumberInner(n, depth, tail);
    case Str(s) => StringBack(s, tail);
  }

  /// After the first element's own line: the element, and then a comma and the
  /// others or nothing.
  function FirstElement(elements: seq<Value>, pretty: bool, d: nat, fractional: real -> Text): Text
    requires elements != []
  {
    Printed(elements[0], pretty, d + 1, fractional) + MoreElements(elements, pretty, d, fractional)
  }

  function MoreElements(elements: seq<Value>, pretty: bool, d: nat, fractional: real -> Text): Text
    requires elements != []
  {
    (if |elements| == 1 then [] else [COMMA]) + PrintedElements(elements[1..], pretty, d, fractional)
  }

  function FirstMember(members: seq<Member>, pretty: bool, d: nat, fractional: real -> Text): Text
    requires members != []
  {
    Escaped(members[0].key) + (AfterKey(pretty) + (Printed(members[0].value, pretty, d + 1, fractional)
      + MoreMembers(members, pretty, d, fractional)))
  }

  function MoreMembers(members: seq<Member>, pretty: bool, d: nat, fractional: real -> Text): Text
    requires members != []
  {
    (if |members| == 1 then [] else [COMMA]) + PrintedMembers(members[1..], pretty, d, fractional)
  }

  /// The line the closing bracket is on.
  function Close(pretty: bool, d: nat, bracket: Byte, tail: Text): Text { Lead(pretty, d) + ([bracket] + tail) }

  lemma CloseBack(pretty: bool, d: nat, bracket: Byte, tail: Text)
    requires bracket == CLOSE_ARRAY || bracket == CLOSE_OBJECT
    ensures SkipSpace(Close(pretty, d, bracket, tail)) == [bracket] + tail && Stops(Close(pretty, d, bracket, tail))
  {
    SkipLead(pretty, d, [bracket] + tail);
  }

  /// What follows an element: it stops a number, and the parser finds either
  /// the comma and then the next element, or the closing bracket.
  lemma MoreElementsBack(elements: seq<Value>, pretty: bool, d: nat, fractional: real -> Text, tail: Text)
    requires elements != [] && forall i :: 0 <= i < |elements| ==> Plain(elements[i])
    ensures var rest := MoreElements(elements, pretty, d, fractional) + Close(pretty, d, CLOSE_ARRAY, tail);
            Stops(rest)
            && (if |elements| == 1 then SkipSpace(rest) == [CLOSE_ARRAY] + tail
                else SkipSpace(rest) == rest && rest[0] == COMMA
                     && SkipSpace(rest[1..]) == FirstElement(elements[1..], pretty, d, fractional) + Close(pretty, d, CLOSE_ARRAY, tail))
  {
    var close, more := Close(pretty, d, CLOSE_ARRAY, tail), elements[1..];
    var rest := MoreElements(elements, pretty, d, fractional) + close;
    CloseBack(pretty, d, CLOSE_ARRAY, tail);
    if |elements| == 1 {
      assert rest == close;
    } else {
      var first := FirstElement(more, pretty, d, fractional);
      AfterComma(Lead(pretty, d + 1), first, close);
      assert rest == ([COMMA] + (Lead(pretty, d + 1) + first)) + close;
      FirstElementStarts(more, pretty, d, fractional, close);
      SkipLead(pretty, d + 1, first + close);
    }
  }

  lemma AfterComma(lead: Text, first: Text, close: Text)
    ensures (([COMMA] + (lead + first)) + close)[1..] == lead + (first + close)
  {
  }

  lemma Unwrap(open: Byte, inside: Text, lead: Text, bracket: Byte, tail: Text)
    ensures (([open] + inside + (lead + [bracket])) + tail)[1..] == inside + (lead + ([bracket] + tail))
  {
  }

  lemma Reassociate(a: Text, b: Text, c: Text)
    ensures (a + b) + c == a + (b + c)
  {
  }

  lemma FirstElementStarts(elements: seq<Value>, pretty: bool, d: nat, fractional: real -> Text, close: Text)
    requires elements != [] && Plain(elements[0])
    ensures var first := FirstElement(elements, pretty, d, fractional) + close;
            first != [] && !IsSpace(first[0]) && first[0] != CLOSE_ARRAY
  {
    Starts(elements[0], pretty, d + 1, fractional);
  }

  lemma FirstMemberStarts(members: seq<Member>, pretty: bool, d: nat, fractional: real -> Text, close: Text)
    requires members != []
    ensures var first := FirstMember(members, pretty, d, fractional) + close; first != [] && first[0] == QUOTE
  {
  }

  lemma MoreMembersBack(members: seq<Member>, pretty: bool, d: nat, fractional: real -> Text, tail: Text)
    requires members != []
    ensures var rest := MoreMembers(members, pretty, d, fractional) + Close(pretty, d, CLOSE_OBJECT, tail);
            Stops(rest)
            && (if |members| == 1 then SkipSpace(rest) == [CLOSE_OBJECT] + tail
                else SkipSpace(rest) == rest && rest[0] == COMMA
                     && SkipSpace(rest[1..]) == FirstMember(members[1..], pretty, d, fractional) + Close(pretty, d, CLOSE_OBJECT, tail))
  {
    var close, more := Close(pretty, d, CLOSE_OBJECT, tail), members[1..];
    var rest := MoreMembers(members, pretty, d, fractional) + close;
    CloseBack(pretty, d, CLOSE_OBJECT, tail);
    if |members| == 1 {
      assert rest == close;
    } else {
      var first := FirstMember(more, pretty, d, fractional);
      AfterComma(Lead(pretty, d + 1), first, close);
      assert rest == ([COMMA] + (Lead(pretty, d + 1) + first)) + close;
      FirstMemberStarts(more, pretty, d, fractional, close);
      SkipLead(pretty, d + 1, first + close);
    }
  }

  /// One value, wherever it is: parsed back exactly if there is room for its
  /// height, refused if there is not.
  lemma {:induction false} ValueBack(v: Value, pretty: bool, d: nat, fractional: real -> Text, text: Text, depth: nat, tail: Text)
    requires Plain(v) && Stops(tail) && SkipSpace(text) == Printed(v, pretty, d, fractional) + tail
    ensures ParseValue(text, depth) == if depth + Height(v) <= MAX_DEPTH then Some((v, tail)) else None
    decreases v, 1
  {
    if depth + 1 <= MAX_DEPTH {
      match v
      case Array(elements) => ArrayBack(v, pretty, d, fractional, depth + 1, tail);
      case Object(members) => ObjectBack(v, pretty, d, fractional, depth + 1, tail);
      case _ => ScalarBack(v, pretty, d, fractional, depth + 1, tail);
    }
  }

  lemma {:induction false} ArrayBack(v: Value, pretty: bool, d: nat, fractional: real -> Text, depth: nat, tail: Text)
    requires v.Array? && Plain(v)
    ensures ParseInner(Printed(v, pretty, d, fractional) + tail, depth)
         == if depth + ElementsHeight(v.elements) <= MAX_DEPTH || v.elements == [] then Some((v, tail)) else None
    decreases v, 0
  {
    var text := Printed(v, pretty, d, fractional) + tail;
    if v.elements == [] {
      assert text[1..] == [CLOSE_ARRAY] + tail;
    } else {
      var inside, close := FirstElement(v.elements, pretty, d, fractional), Close(pretty, d, CLOSE_ARRAY, tail);
      var first := inside + close;
      Unwrap(OPEN_ARRAY, PrintedElements(v.elements, pretty, d, fractional), Lead(pretty, d), CLOSE_ARRAY, tail);
      Reassociate(Lead(pretty, d + 1), inside, close);
      assert text[1..] == Lead(pretty, d + 1) + first;
      FirstElementStarts(v.elements, pretty, d, fractional, close);
      SkipLead(pretty, d + 1, first);
      ElementsBack(v.elements, [], pretty, d, fractional, first, depth, tail);
      assert [] + v.elements == v.elements;
    }
  }

  lemma {:induction false} ElementsBack(elements: seq<Value>, before: seq<Value>, pretty: bool, d: nat, fractional: real -> Text,
                                        text: Text, depth: nat, tail: Text)
    requires elements != [] && forall i :: 0 <= i < |elements| ==> Plain(elements[i])
    requires SkipSpace(text) == FirstElement(elements, pretty, d, fractional) + Close(pretty, d, CLOSE_ARRAY, tail)
    ensures ParseElements(text, before, depth)
         == if depth + ElementsHeight(elements) <= MAX_DEPTH then Some((Array(before + elements), tail)) else None
    decreases elements
  {
    var close := Close(pretty, d, CLOSE_ARRAY, tail);
    var rest := MoreElements(elements, pretty, d, fractional) + close;
    Reassociate(Printed(elements[0], pretty, d + 1, fractional), MoreElements(elements, pretty, d, fractional), close);
    MoreElementsBack(elements, pretty, d, fractional, tail);
    ValueBack(elements[0], pretty, d + 1, fractional, text, depth, rest);
    var more := before + [elements[0]];
    assert more + elements[1..] == before + elements;
    if depth + Height(elements[0]) > MAX_DEPTH {
      ElementFails(text, before, depth);
    } else if |elements| == 1 {
      assert elements == [elements[0]] && elements[1..] == [];
      ElementsEnd(text, before, depth, elements[0], rest, tail);
    } else {
      ElementsGoOn(text, before, depth, elements[0], rest);
      ElementsBack(elements[1..], more, pretty, d, fractional, rest[1..], depth, tail);
    }
  }

  lemma ElementFails(text: Text, before: seq<Value>, depth: nat)
    requires ParseValue(text, depth) == None
    ensures ParseElements(text, before, depth) == None
  {
  }

  lemma ElementsEnd(text: Text, before: seq<Value>, depth: nat, v: Value, rest: Text, tail: Text)
    requires ParseValue(text, depth) == Some((v, rest)) && SkipSpace(rest) == [CLOSE_ARRAY] + tail
    ensures ParseElements(text, before, depth) == Some((Array(before + [v]), tail))
  {
    assert SkipSpace(rest)[1..] == tail;
  }

  lemma ElementsGoOn(text: Text, before: seq<Value>, depth: nat, v: Value, rest: Text)
    requires ParseValue(text, depth) == Some((v, rest)) && rest != [] && SkipSpace(rest) == rest && rest[0] == COMMA
    ensures ParseElements(text, before, depth) == ParseElements(rest[1..], before + [v], depth)
  {
  }

  lemma {:induction false} ObjectBack(v: Value, pretty: bool, d: nat, fractional: real -> Text, depth: nat, tail: Text)
    requires v.Object? && Plain(v)
    ensures ParseInner(Printed(v, pretty, d, fractional) + tail, depth)
         == if depth + MembersHeight(v.members) <= MAX_DEPTH || v.members == [] then Some((v, tail)) else None
    decreases v, 0
  {
    var text := Printed(v, pretty, d, fractional) + tail;
    if v.members == [] {
      assert text[1..] == [CLOSE_OBJECT] + tail;
    } else {
      var inside, close := FirstMember(v.members, pretty, d, fractional), Close(pretty, d, CLOSE_OBJECT, tail);
      var first := inside + close;
      Unwrap(OPEN_OBJECT, PrintedMembers(v.members, pretty, d, fractional), Lead(pretty, d), CLOSE_OBJECT, tail);
      Reassociate(Lead(pretty, d + 1), inside, close);
      assert text[1..] == Lead(pretty, d + 1) + first;
      FirstMemberStarts(v.members, pretty, d, fractional, close);
      SkipLead(pretty, d + 1, first);
      MembersBack(v.members, [], pretty, d, fractional, first, depth, tail);
      assert [] + v.members == v.members;
    }
  }

  lemma {:induction false} MembersBack(members: seq<Member>, before: seq<Member>, pretty: bool, d: nat, fractional: real -> Text,
                                       text: Text, depth: nat, tail: Text)
    requires members != [] && UniqueKeys(before + members) && forall i :: 0 <= i < |members| ==> Plain(members[i].value)
    requires SkipSpace(text) == FirstMember(members, pretty, d, fractional) + Close(pretty, d, CLOSE_OBJECT, tail)
    ensures ParseMembers(text, before, depth)
         == if depth + MembersHeight(members) <= MAX_DEPTH then Some((Object(before + members), tail)) else None
    decreases members
  {
    var rest := MoreMembers(members, pretty, d, fractional) + Close(pretty, d, CLOSE_OBJECT, tail);
    var after := AfterKey(pretty) + (Printed(members[0].value, pretty, d + 1, fractional) + rest);
    KeyBack(members, pretty, d, fractional, text, tail);
    MoreMembersBack(members, pretty, d, fractional, tail);
    AfterKeyBack(members[0].value, pretty, d + 1, fractional, rest);
    ValueBack(members[0].value, pretty, d + 1, fractional, after[1..], depth, rest);
    var more := before + [members[0]];
    SetIsAppend(before, members);
    if depth + Height(members[0].value) > MAX_DEPTH {
      MemberFails(text, before, depth, members[0].key, after);
    } else if |members| == 1 {
      assert members == [members[0]] && members[1..] == [];
      MembersEnd(text, before, depth, members[0], after, rest, tail);
    } else {
      MembersGoOn(text, before, depth, members[0], after, rest);
      MembersBack(members[1..], more, pretty, d, fractional, rest[1..], depth, tail);
    }
  }

  /// The text is a key, and `after` a colon and a value.
  predicate KeyAnd(text: Text, key: Text, after: Text) {
    ParseString(SkipSpace(text)) == Some((key, after)) && after != [] && SkipSpace(after) == after && after[0] == COLON
  }

  lemma MemberFails(text: Text, before: seq<Member>, depth: nat, key: Text, after: Text)
    requires KeyAnd(text, key, after) && ParseValue(after[1..], depth) == None
    ensures ParseMembers(text, before, depth) == None
  {
  }

  lemma MembersEnd(text: Text, before: seq<Member>, depth: nat, m: Member, after: Text, rest: Text, tail: Text)
    requires KeyAnd(text, m.key, after) && ParseValue(after[1..], depth) == Some((m.value, rest))
    requires SkipSpace(rest) == [CLOSE_OBJECT] + tail
    ensures ParseMembers(text, before, depth) == Some((Object(Set(before, m.key, m.value)), tail))
  {
    assert SkipSpace(rest)[1..] == tail;
  }

  lemma MembersGoOn(text: Text, before: seq<Member>, depth: nat, m: Member, after: Text, rest: Text)
    requires KeyAnd(text, m.key, after) && ParseValue(after[1..], depth) == Some((m.value, rest))
    requires rest != [] && SkipSpace(rest) == rest && rest[0] == COMMA
    ensures ParseMembers(text, before, depth) == ParseMembers(rest[1..], Set(before, m.key, m.value), depth)
  {
  }

  lemma SetIsAppend(before: seq<Member>, members: seq<Member>)
    requires members != [] && UniqueKeys(before + members)
    ensures Set(before, members[0].key, members[0].value) == before + [members[0]]
    ensures (before + [members[0]]) + members[1..] == before + members
  {
    var all := before + members;
    assert all[|before|] == members[0];
    assert forall j :: 0 <= j < |before| ==> all[j] == before[j];
    assert forall j :: 0 <= j < |before| ==> before[j].key != members[0].key;
  }

  lemma KeyBack(members: seq<Member>, pretty: bool, d: nat, fractional: real -> Text, text: Text, tail: Text)
    requires members != []
    requires SkipSpace(text) == FirstMember(members, pretty, d, fractional) + Close(pretty, d, CLOSE_OBJECT, tail)
    ensures var rest := MoreMembers(members, pretty, d, fractional) + Close(pretty, d, CLOSE_OBJECT, tail);
            ParseString(SkipSpace(text))
            == Some((members[0].key, AfterKey(pretty) + (Printed(members[0].value, pretty, d + 1, fractional) + rest)))
  {
    var rest := MoreMembers(members, pretty, d, fractional) + Close(pretty, d, CLOSE_OBJECT, tail);
    var after := AfterKey(pretty) + (Printed(members[0].value, pretty, d + 1, fractional) + rest);
    KeyRegroup(Escaped(members[0].key), AfterKey(pretty), Printed(members[0].value, pretty, d + 1, fractional),
               MoreMembers(members, pretty, d, fractional), Close(pretty, d, CLOSE_OBJECT, tail));
    StringBack(members[0].key, after);
  }

  lemma KeyRegroup(a: Text, b: Text, c: Text, d: Text, e: Text)
    ensures (a + (b + (c + d))) + e == a + (b + (c + (d + e)))
  {
    Reassociate(c, d, e);
    Reassociate(b, c + d, e);
    Reassociate(a, b + (c + d), e);
  }

  lemma AfterKeyBack(v: Value, pretty: bool, d: nat, fractional: real -> Text, rest: Text)
    requires Plain(v)
    ensures var value := Printed(v, pretty, d, fractional) + rest;
            var after := AfterKey(pretty) + value;
            SkipSpace(after) == after && after[0] == COLON && SkipSpace(after[1..]) == value
  {
    var value := Printed(v, pretty, d, fractional) + rest;
    Starts(v, pretty, d, fractional);
    assert SkipSpace(value) == value;
    assert (AfterKey(pretty) + value)[1..] == if pretty then [32] + value else value;
    assert pretty ==> ([32] + value)[1..] == value;
  }

  /// Printing and parsing gives the value back, compact or indented, whatever
  /// bytes its strings hold, up to 64 values deep; deeper is refused.
  lemma RoundTrip(v: Value, pretty: bool, fractional: real -> Text)
    requires Plain(v)
    ensures Parse(Printed(v, pretty, 0, fractional)) == if Height(v) <= MAX_DEPTH then Some(v) else None
  {
    var text := Printed(v, pretty, 0, fractional);
    Starts(v, pretty, 0, fractional);
    assert text + [] == text;
    ValueBack(v, pretty, 0, fractional, text, 0, []);
  }

  // ---------------------------------------------------------------- escapes

  /// A code point above the basic plane, written as a surrogate pair, comes out
  /// as its UTF-8; a lone unit comes out as its own three bytes.
  lemma PairBack(code: nat, rest: Text, high: Text, low: Text)
    requires 0x10000 <= code <= 0x10FFFF && |high| == 4 && |low| == 4
    requires Hex4(high) == Some(0xD800 + (code - 0x10000) / 1024) && Hex4(low) == Some(0xDC00 + (code - 0x10000) % 1024)
    ensures Chars([BACKSLASH, 117] + (high + ([BACKSLASH, 117] + (low + rest)))) == Prefixed(Utf8(code), Chars(rest))
  {
    var units := high + ([BACKSLASH, 117] + low);
    var inner := units + rest;
    assert inner == high + ([BACKSLASH, 117] + (low + rest));
    Hex4Prefix(high, [BACKSLASH, 117] + (low + rest));
    assert inner[4] == BACKSLASH && inner[5] == 117 && inner[6..] == low + rest;
    Hex4Prefix(low, rest);
    assert UnicodeEscape(inner) == Some((10, code));
    assert ([117] + units + rest)[1..] == inner;
    EscapeBack([117] + units, Utf8(code), rest);
    assert [BACKSLASH] + ([117] + units) + rest == [BACKSLASH, 117] + inner;
  }

  lemma Hex4Prefix(hex: Text, rest: Text)
    requires |hex| == 4
    ensures Hex4(hex + rest) == Hex4(hex)
  {
  }

  /// The bits a following byte carries.
  function Low6(c: Byte): int { c as int % 64 }

  /// Reading UTF-8 back.
  function FromUtf8(s: Text): int
    requires s != []
  {
    var first: int := s[0];
    if first < 0x80 then first
    else if first < 0xE0 && |s| == 2 then (first % 32) * 64 + Low6(s[1])
    else if first < 0xF0 && |s| == 3 then (first % 16) * 4096 + Low6(s[1]) * 64 + Low6(s[2])
    else if |s| == 4 then (first % 8) * 262144 + Low6(s[1]) * 4096 + Low6(s[2]) * 64 + Low6(s[3])
    else 0
  }

  lemma Groups(code: nat)
    ensures code == (code / 64) * 64 + code % 64
    ensures code == (code / 4096) * 4096 + (code / 64 % 64) * 64 + code % 64
    ensures code == (code / 262144) * 262144 + (code / 4096 % 64) * 4096 + (code / 64 % 64) * 64 + code % 64
  {
    var a := code / 64;
    var b := a / 64;
    assert code / 4096 == b && code / 262144 == b / 64;
  }

  /// Every code point has its own UTF-8, every following byte marked as one.
  lemma Utf8Back(code: nat)
    requires code < 0x200000
    ensures FromUtf8(Utf8(code)) == code
    ensures forall i :: 1 <= i < |Utf8(code)| ==> 0x80 <= Utf8(code)[i] < 0xC0
  {
    var a, b, c := code % 64, code / 64 % 64, code / 4096 % 64;
    Groups(code);
    if code >= 0x10000 {
      FourBytes(code / 262144, c, b, a);
    } else if code >= 0x800 {
      ThreeBytes(code / 4096, b, a);
    } else if code >= 0x80 {
      TwoBytes(code / 64, a);
    }
  }

  lemma FourBytes(first: nat, c: nat, b: nat, a: nat)
    requires first < 8 && c < 64 && b < 64 && a < 64
    ensures FromUtf8([0xF0 + first, 0x80 + c, 0x80 + b, 0x80 + a]) == first * 262144 + c * 4096 + b * 64 + a
  {
  }

  lemma ThreeBytes(first: nat, b: nat, a: nat)
    requires first < 16 && b < 64 && a < 64
    ensures FromUtf8([0xE0 + first, 0x80 + b, 0x80 + a]) == first * 4096 + b * 64 + a
  {
  }

  lemma TwoBytes(first: nat, a: nat)
    requires first < 32 && a < 64
    ensures FromUtf8([0xC0 + first, 0x80 + a]) == first * 64 + a
  {
  }
}
