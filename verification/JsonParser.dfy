/// The parser as it runs: a cursor and a depth that move through the text
/// (src/core/json.cpp:60-363). Each method is proved equal to its specification
/// in `Json`.
module JsonParser {
  import opened Basics
  import opened Json

  class Parser {
    const text: Text
    var pos: nat
    var depth: nat

    constructor (text: Text)
      ensures this.text == text && pos == 0 && depth == 0
    {
      this.text, pos, depth := text, 0, 0;
    }

    ghost predicate Valid()
      reads this
    {
      pos <= |text|
    }

    /// What is left to read.
    ghost function Rest(): Text
      requires Valid()
      reads this
    {
      text[pos..]
    }

    /// The cursor moved on to exactly what `expected` leaves, or the parse has
    /// failed where it does.
    ghost predicate Follows(expected: Option<(Value, Text)>, value: Option<Value>)
      requires Valid()
      reads this
    {
      match expected
      case None => value == None
      case Some(r) => value == Some(r.0) && Rest() == r.1
    }

    method SkipWhitespace()
      requires Valid()
      modifies this`pos
      ensures Valid() && old(pos) <= pos && Rest() == SkipSpace(old(Rest()))
    {
      while pos < |text| && IsSpace(text[pos])
        invariant old(pos) <= pos <= |text| && SkipSpace(Rest()) == SkipSpace(old(Rest()))
        decreases |text| - pos
      {
        assert Rest()[1..] == text[pos + 1..];
        pos := pos + 1;
      }
    }

    method Consume(expected: Byte) returns (ok: bool)
      requires Valid()
      modifies this`pos
      ensures Valid() && (ok <==> old(Rest()) != [] && old(Rest())[0] == expected)
      ensures pos == old(pos) + (if ok then 1 else 0) && Rest() == if ok then old(Rest())[1..] else old(Rest())
    {
      ok := pos < |text| && text[pos] == expected;
      if ok {
        pos := pos + 1;
      }
    }

    method TakeLiteral(word: Text) returns (ok: bool)
      requires Valid()
      modifies this`pos
      ensures Valid() && old(pos) <= pos && (ok <==> Literal(old(Rest()), word).Some?)
      ensures ok ==> Rest() == Literal(old(Rest()), word).value
    {
      ok := |text| - pos >= |word| && text[pos..pos + |word|] == word;
      assert |text| - pos >= |word| ==> Rest()[..|word|] == text[pos..pos + |word|];
      if ok {
        pos := pos + |word|;
      }
    }

    method TakeHex4() returns (code: Option<nat>)
      requires Valid()
      modifies this`pos
      ensures Valid() && old(pos) <= pos && code == Hex4(old(Rest()))
      ensures code.Some? ==> pos == old(pos) + 4
    {
      if pos + 4 > |text| {
        return None;
      }
      ghost var rest := Rest();
      var out: nat := 0;
      for i := 0 to 4
        invariant pos == old(pos) + i
        invariant forall k :: 0 <= k < i ==> HexDigit(rest[k]).Some?
        invariant out == HexPrefix(rest, i)
      {
        var digit := HexDigit(text[pos]);
        pos := pos + 1;
        if digit.None? {
          return None;
        }
        out := out * 16 + digit.value;
      }
      HexPrefix4(rest);
      return Some(out);
    }

    /// A string after its opening quote has been read.
    method TakeChars() returns (out: Option<Text>)
      requires Valid()
      modifies this`pos
      ensures Valid() && old(pos) <= pos
      ensures match Chars(old(Rest())) case None => out == None case Some(r) => out == Some(r.0) && Rest() == r.1
    {
      var s: Text := [];
      ghost var whole := Chars(Rest());
      PrefixedTwice([], [], whole);
      while pos < |text|
        invariant Valid() && old(pos) <= pos && whole == Prefixed(s, Chars(Rest()))
        decreases |text| - pos
      {
        if text[pos] == QUOTE {
          assert Rest()[1..] == text[pos + 1..] && s + [] == s;
          pos := pos + 1;
          return Some(s);
        }
        var one := TakeChar();
        if one.None? {
          return None;
        }
        PrefixedTwice(s, one.value, Chars(Rest()));
        s := s + one.value;
      }
      return None;
    }

    /// One byte of a string other than its closing quote, or one escape.
    method TakeChar() returns (out: Option<Text>)
      requires Valid() && Rest() != [] && Rest()[0] != QUOTE
      modifies this`pos
      ensures Valid() && old(pos) < pos
      ensures out.None? ==> Chars(old(Rest())) == None
      ensures out.Some? ==> Chars(old(Rest())) == Prefixed(out.value, Chars(Rest()))
    {
      ghost var rest := Rest();
      var c := text[pos];
      pos := pos + 1;
      assert rest[1..] == Rest();
      if c != BACKSLASH {
        return Some([c]);
      }
      out := TakeEscape();
      assert rest[|rest| - |Rest()|..] == Rest();
    }

    /// One escape, after its backslash: the bytes it stands for.
    method TakeEscape() returns (out: Option<Text>)
      requires Valid()
      modifies this`pos
      ensures Valid() && old(pos) <= pos && (out.None? <==> Escape(old(Rest())).None?)
      ensures out.Some? ==> Escape(old(Rest())) == Some((out.value, pos - old(pos)))
    {
      if pos >= |text| {
        return None;
      }
      ghost var rest := Rest();
      var escape := text[pos];
      pos := pos + 1;
      assert Rest() == rest[1..];
      if escape == 117 {
        out := TakeUnicode();
      } else {
        var c := SimpleEscape(escape);
        out := if c.Some? then Some([c.value]) else None;
      }
    }

    method TakeUnicode() returns (out: Option<Text>)
      requires Valid()
      modifies this`pos
      ensures Valid() && old(pos) <= pos
      ensures match UnicodeEscape(old(Rest()))
              case None => out == None
              case Some(u) => out == Some(Utf8(u.1)) && pos == old(pos) + u.0
    {
      ghost var rest := Rest();
      var first := TakeHex4();
      if first.None? {
        return None;
      }
      var code := first.value;
      assert Rest() == rest[4..];
      if IsHigh(code) && pos + 1 < |text| && text[pos] == BACKSLASH && text[pos + 1] == 117 {
        var save := pos;
        pos := pos + 2;
        assert Rest() == rest[6..];
        var low := TakeHex4();
        if low.Some? && IsLow(low.value) {
          code := 0x10000 + (code - 0xD800) * 1024 + (low.value - 0xDC00);
        } else {
          pos := save;
        }
      }
      return Some(Utf8(code));
    }

    method TakeString() returns (out: Option<Text>)
      requires Valid()
      modifies this`pos
      ensures Valid() && old(pos) <= pos
      ensures match ParseString(old(Rest())) case None => out == None case Some(r) => out == Some(r.0) && Rest() == r.1
    {
      var ok := Consume(QUOTE);
      if !ok {
        return None;
      }
      out := TakeChars();
    }

    method TakeSign() returns (negative: bool)
      requires Valid()
      modifies this`pos
      ensures Valid() && pos == old(pos) + SignLength(old(Rest()))
      ensures negative <==> SignLength(old(Rest())) == 1 && old(Rest())[0] == 45
    {
      negative := false;
      if pos < |text| && (text[pos] == 45 || text[pos] == 43) {
        negative := text[pos] == 45;
        pos := pos + 1;
      }
    }

    method TakeDigits() returns (any: bool)
      requires Valid()
      modifies this`pos
      ensures Valid() && pos == old(pos) + DigitRun(old(Rest())) && (any <==> DigitRun(old(Rest())) > 0)
    {
      any := false;
      while pos < |text| && IsDigit(text[pos])
        invariant old(pos) <= pos <= |text|
        invariant DigitRun(old(Rest())) == pos - old(pos) + DigitRun(Rest())
        invariant any <==> pos > old(pos)
        decreases |text| - pos
      {
        assert Rest()[1..] == text[pos + 1..];
        pos := pos + 1;
        any := true;
      }
    }

    method TakeFraction() returns (any: bool)
      requires Valid()
      modifies this`pos
      ensures Valid() && pos == old(pos) + Fraction(old(Rest())).1 && (any <==> Fraction(old(Rest())).0 != [])
    {
      any := false;
      if pos < |text| && text[pos] == 46 {
        assert Rest()[1..] == text[pos + 1..];
        pos := pos + 1;
        any := TakeDigits();
      }
    }

    method TakeExponent()
      requires Valid()
      modifies this`pos
      ensures Valid() && pos == old(pos) + Exponent(old(Rest())).2
    {
      if pos < |text| && (text[pos] == 101 || text[pos] == 69) {
        ghost var rest := Rest();
        pos := pos + 1;
        assert rest[1..] == Rest();
        var negative := TakeSign();
        assert rest[1 + SignLength(rest[1..])..] == Rest();
        var any := TakeDigits();
      }
    }

    method TakeTail() returns (anyDigits: bool)
      requires Valid()
      modifies this`pos
      ensures Valid() && pos == old(pos) + TailLength(old(Rest()))
      ensures anyDigits <==> Fraction(old(Rest())).0 != []
    {
      ghost var start := pos;
      anyDigits := TakeFraction();
      assert text[start..][pos - start..] == Rest();
      TakeExponent();
    }

    method TakeHead() returns (anyDigits: bool)
      requires Valid()
      modifies this`pos
      ensures Valid() && pos == old(pos) + HeadLength(old(Rest()))
      ensures anyDigits <==> HeadLength(old(Rest())) > SignLength(old(Rest()))
    {
      ghost var start := pos;
      var negative := TakeSign();
      assert text[start..][pos - start..] == Rest();
      anyDigits := TakeDigits();
    }

    /// The whole of a number's text; whether it has a digit before any
    /// exponent.
    method TakeScanned() returns (anyDigits: bool)
      requires Valid()
      modifies this`pos
      ensures Valid() && pos == old(pos) + NumberLength(old(Rest())) && (anyDigits <==> NumberDigits(old(Rest())))
    {
      ghost var start := pos;
      var whole := TakeHead();
      assert text[start..][pos - start..] == Rest();
      var fraction := TakeTail();
      anyDigits := whole || fraction;
    }

    method TakeNumber() returns (value: Option<Value>)
      requires Valid()
      modifies this`pos
      ensures Valid() && old(pos) <= pos && Follows(ParseNumber(old(Rest())), value)
    {
      var start := pos;
      var anyDigits := TakeScanned();
      assert text[start..][pos - start..] == Rest();
      if !anyDigits {
        return None;
      }
      return Some(NumberAt(text[start..]));
    }

    method TakeValue() returns (value: Option<Value>)
      requires Valid()
      modifies this
      ensures Valid() && old(pos) <= pos && Follows(ParseValue(old(Rest()), old(depth)), value)
      ensures value.Some? ==> depth == old(depth)
      decreases |text| - pos, 3
    {
      depth := depth + 1;
      if depth > MAX_DEPTH {
        return None;
      }
      value := TakeInner();
      if value.Some? {
        depth := depth - 1;
      }
    }

    method TakeInner() returns (value: Option<Value>)
      requires Valid()
      modifies this
      ensures Valid() && old(pos) <= pos && Follows(ParseInner(SkipSpace(old(Rest())), old(depth)), value)
      ensures value.Some? ==> depth == old(depth)
      decreases |text| - pos, 2
    {
      SkipWhitespace();
      if pos >= |text| {
        return None;
      }
      var c := text[pos];
      assert Rest()[0] == c;
      if c == OPEN_OBJECT {
        value := TakeObject();
      } else if c == OPEN_ARRAY {
        value := TakeArray();
      } else if c == QUOTE {
        var s := TakeString();
        value := if s.Some? then Some(Str(s.value)) else None;
      } else if c == 116 {
        value := TakeWord(TRUE_TEXT, Bool(true));
      } else if c == 102 {
        value := TakeWord(FALSE_TEXT, Bool(false));
      } else if c == 110 {
        value := TakeWord(NULL_TEXT, Null);
      } else {
        value := TakeNumber();
      }
    }

    method TakeWord(word: Text, meaning: Value) returns (value: Option<Value>)
      requires Valid()
      modifies this`pos
      ensures Valid() && old(pos) <= pos && Follows(WithLiteral(old(Rest()), word, meaning), value)
    {
      var ok := TakeLiteral(word);
      value := if ok then Some(meaning) else None;
    }

    method TakeObject() returns (value: Option<Value>)
      requires Valid() && Rest() != [] && Rest()[0] == OPEN_OBJECT
      modifies this
      ensures Valid() && old(pos) <= pos && Follows(ParseObject(old(Rest()), old(depth)), value)
      ensures value.Some? ==> depth == old(depth)
      decreases |text| - pos, 1
    {
      ghost var whole := ParseObject(Rest(), depth);
      var ok := Consume(OPEN_OBJECT);
      SkipWhitespace();
      ok := Consume(CLOSE_OBJECT);
      if ok {
        return Some(Object([]));
      }
      var members: seq<Member> := [];
      while true
        invariant Valid() && old(pos) < pos && depth == old(depth) && whole == ParseMembers(Rest(), members, depth)
        decreases |text| - pos
      {
        SkipWhitespace();
        var key := TakeString();
        if key.None? {
          return None;
        }
        SkipWhitespace();
        ok := Consume(COLON);
        if !ok {
          return None;
        }
        var member := TakeValue();
        if member.None? {
          return None;
        }
        members := SetMember(members, key.value, member.value);
        SkipWhitespace();
        ok := Consume(COMMA);
        if !ok {
          ok := Consume(CLOSE_OBJECT);
          if ok {
            return Some(Object(members));
          }
          return None;
        }
      }
    }

    method TakeArray() returns (value: Option<Value>)
      requires Valid() && Rest() != [] && Rest()[0] == OPEN_ARRAY
      modifies this
      ensures Valid() && old(pos) <= pos && Follows(ParseArray(old(Rest()), old(depth)), value)
      ensures value.Some? ==> depth == old(depth)
      decreases |text| - pos, 1
    {
      ghost var whole := ParseArray(Rest(), depth);
      var ok := Consume(OPEN_ARRAY);
      SkipWhitespace();
      ok := Consume(CLOSE_ARRAY);
      if ok {
        return Some(Array([]));
      }
      var elements: seq<Value> := [];
      while true
        invariant Valid() && old(pos) < pos && depth == old(depth) && whole == ParseElements(Rest(), elements, depth)
        decreases |text| - pos
      {
        var element := TakeValue();
        if element.None? {
          return None;
        }
        elements := elements + [element.value];
        SkipWhitespace();
        ok := Consume(COMMA);
        if !ok {
          ok := Consume(CLOSE_ARRAY);
          if ok {
            return Some(Array(elements));
          }
          return None;
        }
      }
    }

    method ParseAll() returns (value: Option<Value>)
      requires pos == 0 && depth == 0
      modifies this
      ensures value == Parse(text)
    {
      assert Rest() == text;
      SkipWhitespace();
      value := TakeValue();
      if value.None? {
        return;
      }
      SkipWhitespace();
      if pos != |text| {
        return None;
      }
    }
  }

  /// An object's set(): in place if the key is there, else at the end.
  method SetMember(members: seq<Member>, key: Text, value: Value) returns (r: seq<Member>)
    ensures r == Set(members, key, value)
  {
    for i := 0 to |members|
      invariant forall j :: 0 <= j < i ==> members[j].key != key
    {
      if members[i].key == key {
        assert IndexOf(members, key) == i;
        return members[i := Member(key, value)];
      }
    }
    return members + [Member(key, value)];
  }

  lemma HexPrefix4(rest: Text)
    requires |rest| >= 4 && forall k :: 0 <= k < 4 ==> HexDigit(rest[k]).Some?
    ensures Hex4(rest) == Some(HexPrefix(rest, 4))
  {
    assert HexPrefix(rest, 1) == HexDigit(rest[0]).value;
    assert HexPrefix(rest, 2) == HexPrefix(rest, 1) * 16 + HexDigit(rest[1]).value;
    assert HexPrefix(rest, 3) == HexPrefix(rest, 2) * 16 + HexDigit(rest[2]).value;
  }

  lemma PrefixedTwice(a: Text, b: Text, r: Option<(Text, Text)>)
    ensures Prefixed([], r) == r && Prefixed(a, Prefixed(b, r)) == Prefixed(a + b, r)
  {
    if r.Some? {
      assert [] + r.value.0 == r.value.0 && a + (b + r.value.0) == (a + b) + r.value.0;
    }
  }

  function HexPrefix(rest: Text, n: nat): nat
    requires n <= |rest| && forall k :: 0 <= k < n ==> HexDigit(rest[k]).Some?
  {
    if n == 0 then 0 else HexPrefix(rest, n - 1) * 16 + HexDigit(rest[n - 1]).value
  }
}
