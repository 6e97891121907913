/** What the structural dump of src/value.rs produces, stated on `Ast`. */
module DumpProperties {
  import opened Values

  // ---------------------------------------------------------------------------
  // The structural dump: one line per leaf, two per container
  // ---------------------------------------------------------------------------

  /** The number of line breaks in `s`. */
  function Newlines(s: string): nat {
    if s == [] then 0 else (if s[0] == '\n' then 1 else 0) + Newlines(s[1..])
  }

  /** The lines the dump of `v` takes: one per leaf, a header and a closing line per
      object or array. */
  function Lines(v: JsonValue): nat
    decreases v
  {
    match v
    case JsonObject(pairs) => 2 + MemberLines(v, |pairs|)
    case JsonArray(elements) => 2 + ElementLines(v, |elements|)
    case _ => 1
  }

  function MemberLines(v: JsonValue, n: nat): nat
    requires v.JsonObject? && n <= |v.pairs|
    decreases v, n
  {
    if n == 0 then 0 else MemberLines(v, n - 1) + Lines(v.pairs[n - 1].1)
  }

  function ElementLines(v: JsonValue, n: nat): nat
    requires v.JsonArray? && n <= |v.elements|
    decreases v, n
  {
    if n == 0 then 0 else ElementLines(v, n - 1) + Lines(v.elements[n - 1])
  }

  /** No key and no string in `v` holds a line break. */
  predicate SingleLineText(v: JsonValue)
    decreases v
  {
    match v
    case JsonObject(pairs) => forall i :: 0 <= i < |pairs| ==> '\n' !in pairs[i].0 && SingleLineText(pairs[i].1)
    case JsonArray(elements) => forall i :: 0 <= i < |elements| ==> SingleLineText(elements[i])
    case String(s) => '\n' !in s
    case _ => true
  }

  lemma {:induction false} NewlinesAppend(a: string, b: string)
    ensures Newlines(a + b) == Newlines(a) + Newlines(b)
  {
    if a != [] {
      assert (a + b)[1..] == a[1..] + b;
      NewlinesAppend(a[1..], b);
    } else {
      assert a + b == b;
    }
  }

  lemma {:induction false} NoNewlines(s: string)
    requires '\n' !in s
    ensures Newlines(s) == 0
  {
    if s != [] {
      assert s[0] in s;
      NoNewlines(s[1..]);
    }
  }

  lemma IndentNewlines(d: nat)
    ensures Newlines(Indent(d)) == 0
  {
    NoNewlines(Indent(d));
  }

  /** A `writeln!` line is one line when its text holds no line break. */
  lemma LineNewlines(depth: nat, text: string)
    requires '\n' !in text
    ensures Newlines(Line(depth, text)) == 1
  {
    NoNewlines(Indent(depth) + text);
    NewlinesAppend(Indent(depth) + text, "\n");
  }

  /** Header and closing lines are one line each. */
  lemma HeaderNewlines(depth: nat, size: nat)
    ensures Newlines(ObjectHeader(depth, size)) == 1
    ensures Newlines(ArrayHeader(depth, size)) == 1
    ensures Newlines(Closing(depth, '}')) == 1 && Newlines(Closing(depth, ']')) == 1
  {
    LineNewlines(depth, "JsonObject of size " + NatText(size) + " {");
    LineNewlines(depth, "JsonArray of size " + NatText(size) + " [");
    LineNewlines(depth, "}");
    LineNewlines(depth, "]");
  }

  /** The text before an object value holds no line break. */
  lemma KeyPrefixNewlines(depth: nat, key: string)
    requires '\n' !in key
    ensures Newlines(KeyPrefix(depth, key)) == 0
  {
    NoNewlines(KeyPrefix(depth, key));
  }

  /** A leaf dump is exactly one line when its text holds no line break. */
  lemma LeafNewlines(showF64: F64 -> string, v: JsonValue, depth: nat)
    requires IsScalar(v) && SingleLineText(v)
    requires v.Number? ==> '\n' !in showF64(v.n)
    ensures Newlines(Ast(showF64, v, depth)) == 1
  {
    match v {
      case String(s) => LineNewlines(depth, "String: \"" + s + "\"");
      case Number(n) => LineNewlines(depth, "Number: " + showF64(n));
      case Boolean(b) => LineNewlines(depth, "Boolean: " + BoolText(b));
      case Null => LineNewlines(depth, "Null");
    }
  }

  lemma {:induction false} AstLines(showF64: F64 -> string, v: JsonValue, depth: nat)
    requires forall x :: '\n' !in showF64(x)
    requires SingleLineText(v)
    ensures Newlines(Ast(showF64, v, depth)) == Lines(v)
    decreases v, 1
  {
    match v {
      case JsonObject(pairs) =>
        AstMemberLines(showF64, v, depth, |pairs|);
        HeaderNewlines(depth, |pairs|);
        NewlinesAppend(ObjectHeader(depth, |pairs|), AstMembers(showF64, v, depth, |pairs|));
        NewlinesAppend(ObjectHeader(depth, |pairs|) + AstMembers(showF64, v, depth, |pairs|), Closing(depth, '}'));
      case JsonArray(elements) =>
        AstElementLines(showF64, v, depth, |elements|);
        HeaderNewlines(depth, |elements|);
        NewlinesAppend(ArrayHeader(depth, |elements|), AstElements(showF64, v, depth, |elements|));
        NewlinesAppend(ArrayHeader(depth, |elements|) + AstElements(showF64, v, depth, |elements|), Closing(depth, ']'));
      case _ =>
        LeafNewlines(showF64, v, depth);
    }
  }

  lemma {:induction false} AstMemberLines(showF64: F64 -> string, v: JsonValue, depth: nat, n: nat)
    requires forall x :: '\n' !in showF64(x)
    requires v.JsonObject? && n <= |v.pairs| && SingleLineText(v)
    ensures Newlines(AstMembers(showF64, v, depth, n)) == MemberLines(v, n)
    decreases v, 0, n
  {
    if n > 0 {
      var pair := v.pairs[n - 1];
      assert pair in v.pairs;
      AstMemberLines(showF64, v, depth, n - 1);
      AstLines(showF64, pair.1, depth + 4);
      KeyPrefixNewlines(depth, pair.0);
      NewlinesAppend(KeyPrefix(depth, pair.0), Ast(showF64, pair.1, depth + 4));
      NewlinesAppend(AstMembers(showF64, v, depth, n - 1), KeyPrefix(depth, pair.0) + Ast(showF64, pair.1, depth + 4));
    }
  }

  lemma {:induction false} AstElementLines(showF64: F64 -> string, v: JsonValue, depth: nat, n: nat)
    requires forall x :: '\n' !in showF64(x)
    requires v.JsonArray? && n <= |v.elements| && SingleLineText(v)
    ensures Newlines(AstElements(showF64, v, depth, n)) == ElementLines(v, n)
    decreases v, 0, n
  {
    if n > 0 {
      var e := v.elements[n - 1];
      AstElementLines(showF64, v, depth, n - 1);
      AstLines(showF64, e, depth + 2);
      IndentNewlines(depth + 2);
      NewlinesAppend(Indent(depth + 2), Ast(showF64, e, depth + 2));
      NewlinesAppend(AstElements(showF64, v, depth, n - 1), Indent(depth + 2) + Ast(showF64, e, depth + 2));
    }
  }

  /** A raw line break in a string is written as it is, so such a leaf takes two lines. */
  lemma AstMultiLineString(showF64: F64 -> string)
    ensures Newlines(Ast(showF64, String("a\nb"), 0)) == 2
  {
    var head := "String: \"a";
    var tail := "\nb\"\n";
    assert Ast(showF64, String("a\nb"), 0) == head + tail;
    NoNewlines(head);
    NewlinesAppend(head, tail);
    TwoBreaks();
  }

  lemma TwoBreaks()
    ensures Newlines("\nb\"\n") == 2
  {
    var tail := "\nb\"\n";
    assert tail[1..] == "b\"\n" && tail[1..][1..] == "\"\n" && tail[1..][1..][1..] == "\n";
    assert Newlines("\n") == 1 by { assert "\n"[1..] == []; }
  }

  // ---------------------------------------------------------------------------
  // The structural dump against a concatenation reference
  // ---------------------------------------------------------------------------

  /** The items of `xs` written one after the other. */
  function Concat(xs: seq<string>): string {
    if xs == [] then "" else xs[0] + Concat(xs[1..])
  }

  lemma {:induction false} ConcatSnoc(xs: seq<string>, x: string)
    ensures Concat(xs + [x]) == Concat(xs) + x
  {
    if xs == [] {
      assert xs + [x] == [x];
      assert [x][1..] == [];
    } else {
      assert (xs + [x])[1..] == xs[1..] + [x];
      ConcatSnoc(xs[1..], x);
      AppendAssociative(xs[0], Concat(xs[1..]), x);
    }
  }

  /** The dump of each pair at object depth `depth`: the key line's prefix at
      `depth + 2`, then the value dumped at `depth + 4`. */
  function PairDumps(showF64: F64 -> string, pairs: seq<(string, JsonValue)>, depth: nat): (r: seq<string>)
    ensures |r| == |pairs|
  {
    seq(|pairs|, i requires 0 <= i < |pairs| => KeyPrefix(depth, pairs[i].0) + Ast(showF64, pairs[i].1, depth + 4))
  }

  /** The dump of each element at array depth `depth`: an indent of `depth + 2`, then
      the element dumped at `depth + 2`. */
  function ElementDumps(showF64: F64 -> string, elements: seq<JsonValue>, depth: nat): (r: seq<string>)
    ensures |r| == |elements|
  {
    seq(|elements|, i requires 0 <= i < |elements| => Indent(depth + 2) + Ast(showF64, elements[i], depth + 2))
  }

  lemma {:induction false} AstMembersConcat(showF64: F64 -> string, v: JsonValue, depth: nat, n: nat)
    requires v.JsonObject? && n <= |v.pairs|
    ensures AstMembers(showF64, v, depth, n) == Concat(PairDumps(showF64, v.pairs[..n], depth))
  {
    if n > 0 {
      AstMembersConcat(showF64, v, depth, n - 1);
      var dumps := PairDumps(showF64, v.pairs[..n - 1], depth);
      var d := KeyPrefix(depth, v.pairs[n - 1].0) + Ast(showF64, v.pairs[n - 1].1, depth + 4);
      assert PairDumps(showF64, v.pairs[..n], depth) == dumps + [d];
      ConcatSnoc(dumps, d);
    }
  }

  lemma {:induction false} AstElementsConcat(showF64: F64 -> string, v: JsonValue, depth: nat, n: nat)
    requires v.JsonArray? && n <= |v.elements|
    ensures AstElements(showF64, v, depth, n) == Concat(ElementDumps(showF64, v.elements[..n], depth))
  {
    if n > 0 {
      AstElementsConcat(showF64, v, depth, n - 1);
      var dumps := ElementDumps(showF64, v.elements[..n - 1], depth);
      var d := Indent(depth + 2) + Ast(showF64, v.elements[n - 1], depth + 2);
      assert ElementDumps(showF64, v.elements[..n], depth) == dumps + [d];
      ConcatSnoc(dumps, d);
    }
  }

  /** An object dumps as its header, each pair in stored order (key prefix, then the
      value four deeper), then its closing line. */
  lemma AstObjectLayout(showF64: F64 -> string, pairs: seq<(string, JsonValue)>, depth: nat)
    ensures Ast(showF64, JsonObject(pairs), depth)
            == ObjectHeader(depth, |pairs|) + Concat(PairDumps(showF64, pairs, depth)) + Closing(depth, '}')
  {
    AstMembersConcat(showF64, JsonObject(pairs), depth, |pairs|);
    assert pairs[..|pairs|] == pairs;
  }

  /** An array dumps as its header, each element in stored order (an indent, then the
      element two deeper), then its closing line. */
  lemma AstArrayLayout(showF64: F64 -> string, elements: seq<JsonValue>, depth: nat)
    ensures Ast(showF64, JsonArray(elements), depth)
            == ArrayHeader(depth, |elements|) + Concat(ElementDumps(showF64, elements, depth)) + Closing(depth, ']')
  {
    AstElementsConcat(showF64, JsonArray(elements), depth, |elements|);
    assert elements[..|elements|] == elements;
  }

  /** Every dump begins with `depth` spaces and ends with a line break. */
  lemma AstFraming(showF64: F64 -> string, v: JsonValue, depth: nat)
    ensures |Ast(showF64, v, depth)| > depth
    ensures Ast(showF64, v, depth)[..depth] == Indent(depth)
    ensures Ast(showF64, v, depth)[|Ast(showF64, v, depth)| - 1] == '\n'
  {
  }

  /** A leaf is one line at its depth. */
  lemma AstLeafExample(showF64: F64 -> string)
    ensures Ast(showF64, Null, 2) == "  Null\n"
  {
  }

  /** A leaf inside an array gets the array's indent twice. */
  lemma AstArrayExample(showF64: F64 -> string)
    ensures Ast(showF64, JsonArray([Null]), 0) == "JsonArray of size 1 [\n" + "    Null\n" + "]\n"
  {
    assert NatText(1) == "1";
  }

  /** An object value follows its key on the same line, dumped four deeper. */
  lemma AstPairExample(showF64: F64 -> string)
    ensures KeyPrefix(0, "a") == "  Key: a, Value: "
    ensures Ast(showF64, Boolean(true), 4) == "    Boolean: true\n"
  {
  }

  /** An object dump: header, one line per pair, closing line. */
  lemma AstObjectExample(showF64: F64 -> string)
    ensures Ast(showF64, JsonObject([("a", Boolean(true))]), 0)
            == "JsonObject of size 1 {\n" + ("  Key: a, Value: " + "    Boolean: true\n") + "}\n"
  {
    var v := JsonObject([("a", Boolean(true))]);
    assert NatText(1) == "1";
    assert ObjectHeader(0, 1) == "JsonObject of size 1 {\n";
    AstPairExample(showF64);
    assert AstMembers(showF64, v, 0, 1) == "  Key: a, Value: " + "    Boolean: true\n";
    assert Closing(0, '}') == "}\n";
  }
}
