/// The printer as it runs, appending to one output
/// (src/core/json.cpp:17-58, 462-525), proved equal to `Json.Printed`.
module JsonPrinter {
  import opened Basics
  import opened Json

  class Printer {
    var out: Text
    const pretty: bool
    const fractional: real -> Text

    constructor (pretty: bool, fractional: real -> Text)
      ensures out == [] && this.pretty == pretty && this.fractional == fractional
    {
      out, this.pretty, this.fractional := [], pretty, fractional;
    }

    method AppendEscaped(s: Text)
      modifies this`out
      ensures out == old(out) + Escaped(s)
    {
      out := out + [QUOTE];
      for i := 0 to |s|
        invariant out + EscapedBytes(s[i..]) == old(out) + [QUOTE] + EscapedBytes(s)
      {
        assert s[i..][1..] == s[i + 1..];
        assert out + EscapedBytes(s[i..]) == (out + EscapedByte(s[i])) + EscapedBytes(s[i + 1..]);
        out := out + EscapedByte(s[i]);
      }
      assert s[|s|..] == [] && out + [] == out;
      out := out + [QUOTE];
    }

    method AppendNumber(n: real)
      modifies this`out
      ensures out == old(out) + NumberText(n, fractional)
    {
      if n == n.Floor as real && -LIMIT < n < LIMIT {
        out := out + IntegerText(n.Floor);
      } else {
        out := out + fractional(n);
      }
    }

    method SerializeInto(v: Value, depth: nat)
      modifies this`out
      ensures out == old(out) + Printed(v, pretty, depth, fractional)
      decreases v, 3
    {
      match v
      case Null => out := out + NULL_TEXT;
      case Bool(b) => out := out + if b then TRUE_TEXT else FALSE_TEXT;
      case Number(n) => AppendNumber(n);
      case Str(s) => AppendEscaped(s);
      case Array(elements) => SerializeArray(v, depth);
      case Object(members) => SerializeObject(v, depth);
    }

    method SerializeArray(v: Value, depth: nat)
      requires v.Array?
      modifies this`out
      ensures out == old(out) + Printed(v, pretty, depth, fractional)
      decreases v, 2
    {
      var n := |v.elements|;
      if n == 0 {
        out := out + [OPEN_ARRAY, CLOSE_ARRAY];
        return;
      }
      ghost var inside := PrintedElements(v.elements, pretty, depth, fractional);
      out := out + [OPEN_ARRAY];
      assert v.elements[0..] == v.elements;
      for i := 0 to n
        invariant out + PrintedElements(v.elements[i..], pretty, depth, fractional) == old(out) + [OPEN_ARRAY] + inside
      {
        AppendElement(v, i, depth);
      }
      assert v.elements[n..] == [] && out + [] == out;
      Enclosed(old(out), OPEN_ARRAY, inside, Lead(pretty, depth) + [CLOSE_ARRAY]);
      out := out + (Lead(pretty, depth) + [CLOSE_ARRAY]);
    }

    /// Element `i` on its own line, with a comma after it if there are more.
    method AppendElement(v: Value, i: nat, depth: nat)
      requires v.Array? && i < |v.elements|
      modifies this`out
      ensures out + PrintedElements(v.elements[i + 1..], pretty, depth, fractional)
           == old(out) + PrintedElements(v.elements[i..], pretty, depth, fractional)
      decreases v, 1
    {
      ghost var more, last := v.elements[i + 1..], i + 1 == |v.elements|;
      assert v.elements[i..][1..] == more && v.elements[i..][0] == v.elements[i];
      Regroup(out, Lead(pretty, depth + 1), Printed(v.elements[i], pretty, depth + 1, fractional),
              if last then [] else [COMMA], PrintedElements(more, pretty, depth, fractional));
      out := out + Lead(pretty, depth + 1);
      SerializeInto(v.elements[i], depth + 1);
      out := out + if i + 1 < |v.elements| then [COMMA] else [];
    }

    method SerializeObject(v: Value, depth: nat)
      requires v.Object?
      modifies this`out
      ensures out == old(out) + Printed(v, pretty, depth, fractional)
      decreases v, 2
    {
      var n := |v.members|;
      if n == 0 {
        out := out + [OPEN_OBJECT, CLOSE_OBJECT];
        return;
      }
      ghost var inside := PrintedMembers(v.members, pretty, depth, fractional);
      out := out + [OPEN_OBJECT];
      assert v.members[0..] == v.members;
      for i := 0 to n
        invariant out + PrintedMembers(v.members[i..], pretty, depth, fractional) == old(out) + [OPEN_OBJECT] + inside
      {
        AppendMember(v, i, depth);
      }
      assert v.members[n..] == [] && out + [] == out;
      Enclosed(old(out), OPEN_OBJECT, inside, Lead(pretty, depth) + [CLOSE_OBJECT]);
      out := out + (Lead(pretty, depth) + [CLOSE_OBJECT]);
    }

    method AppendMember(v: Value, i: nat, depth: nat)
      requires v.Object? && i < |v.members|
      modifies this`out
      ensures out + PrintedMembers(v.members[i + 1..], pretty, depth, fractional)
           == old(out) + PrintedMembers(v.members[i..], pretty, depth, fractional)
      decreases v, 1
    {
      ghost var more, last := v.members[i + 1..], i + 1 == |v.members|;
      ghost var key, value := Escaped(v.members[i].key), Printed(v.members[i].value, pretty, depth + 1, fractional);
      assert v.members[i..][1..] == more && v.members[i..][0] == v.members[i];
      RegroupMember(out, Lead(pretty, depth + 1), key, AfterKey(pretty), value,
                    if last then [] else [COMMA], PrintedMembers(more, pretty, depth, fractional));
      out := out + Lead(pretty, depth + 1);
      AppendEscaped(v.members[i].key);
      out := out + AfterKey(pretty);
      SerializeInto(v.members[i].value, depth + 1);
      out := out + if i + 1 < |v.members| then [COMMA] else [];
    }
  }

  lemma Regroup(a: Text, b: Text, c: Text, d: Text, e: Text)
    ensures a + (b + (c + (d + e))) == (((a + b) + c) + d) + e
  {
    assert a + (b + (c + (d + e))) == (a + b) + (c + (d + e));
    assert (a + b) + (c + (d + e)) == ((a + b) + c) + (d + e);
  }

  lemma RegroupMember(a: Text, b: Text, c: Text, d: Text, e: Text, f: Text, g: Text)
    ensures a + (b + (c + (d + (e + (f + g))))) == (((((a + b) + c) + d) + e) + f) + g
  {
    Regroup(a, b, c, d, e + (f + g));
    Regroup((a + b) + c, d, e, f, g);
    assert ((a + b) + c) + (d + (e + (f + g))) == (((a + b) + c) + d) + (e + (f + g));
  }

  lemma Enclosed(before: Text, open: Byte, inside: Text, close: Text)
    ensures (before + [open] + inside) + close == before + ([open] + inside + close)
  {
  }
}
