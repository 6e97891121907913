/** The value tree of src/value.rs and its two renderers.

    `Compact` and `Ast` are the texts the renderers produce, as functions; the methods
    `Display` and `AstFmt` are the renderers themselves, appending piece by piece to a
    formatter buffer, and each is proved to append exactly that text. */
module Values {

  /** The bit pattern of an IEEE 754 binary64 number (Rust's `f64`). Its decimal
      rendering is not modelled: the renderers take it as the parameter `showF64`. */
  type F64 = bv64

  /** A node of the value tree. Object pairs keep their order, and duplicate keys are
      representable. */
  datatype JsonValue =
    | JsonObject(pairs: seq<(string, JsonValue)>)
    | JsonArray(elements: seq<JsonValue>)
    | String(s: string)
    | Number(n: F64)
    | Boolean(b: bool)
    | Null

  predicate IsScalar(v: JsonValue) {
    v.String? || v.Number? || v.Boolean? || v.Null?
  }

  function BoolText(b: bool): string {
    if b then "true" else "false"
  }

  /** `d` spaces (`" ".repeat(d)`). */
  function Indent(d: nat): (r: string)
    ensures |r| == d && forall i :: 0 <= i < d ==> r[i] == ' '
  {
    seq(d, _ => ' ')
  }

  function DigitChar(k: nat): (c: char)
    requires k < 10
    ensures '0' <= c <= '9' && c as int - '0' as int == k
  {
    ('0' as int + k) as char
  }

  /** The number a run of decimal digits denotes, most significant digit first. */
  function DigitsValue(s: string): nat
    requires forall i :: 0 <= i < |s| ==> '0' <= s[i] <= '9'
  {
    if s == [] then 0 else 10 * DigitsValue(s[..|s| - 1]) + (s[|s| - 1] as int - '0' as int)
  }

  /** The decimal text of a count (`{}` on a `usize`): digits that denote `n`, with no
      leading zero. */
  function NatText(n: nat): (r: string)
    ensures r != [] && forall i :: 0 <= i < |r| ==> '0' <= r[i] <= '9'
    ensures DigitsValue(r) == n
    ensures |r| > 1 ==> r[0] != '0'
  {
    if n < 10 then [DigitChar(n)]
    else
      var r := NatText(n / 10) + [DigitChar(n % 10)];
      assert r[..|r| - 1] == NatText(n / 10);
      r
  }

  // ---------------------------------------------------------------------------
  // The compact renderer (`impl Display for JsonValue`)
  // ---------------------------------------------------------------------------

  /** The compact text of `v`. */
  function Compact(showF64: F64 -> string, v: JsonValue): string
    decreases v
  {
    match v
    case JsonObject(pairs) => "{" + CompactMembers(showF64, v, |pairs|) + "}"
    case JsonArray(elements) => "[" + CompactElements(showF64, v, |elements|) + "]"
    case String(s) => "\"" + s + "\""
    case Number(n) => showF64(n)
    case Boolean(b) => BoolText(b)
    case Null => "null"
  }

  /** What the loops write before entry or element `i`: a separator before every one
      but the first. */
  function Separator(i: nat): string {
    if i > 0 then ", " else ""
  }

  /** What precedes an entry's value: its key in quotes and a colon. */
  function EntryHead(key: string): string {
    "\"" + key + "\": "
  }

  /** The first `n` entries of object `v`, as its loop writes them. */
  function CompactMembers(showF64: F64 -> string, v: JsonValue, n: nat): string
    requires v.JsonObject? && n <= |v.pairs|
    decreases v, n
  {
    if n == 0 then ""
    else
      var pair := v.pairs[n - 1];
      CompactMembers(showF64, v, n - 1) + (Separator(n - 1) + (EntryHead(pair.0) + Compact(showF64, pair.1)))
  }

  /** The first `n` elements of array `v`, as its loop writes them. */
  function CompactElements(showF64: F64 -> string, v: JsonValue, n: nat): string
    requires v.JsonArray? && n <= |v.elements|
    decreases v, n
  {
    if n == 0 then ""
    else CompactElements(showF64, v, n - 1) + (Separator(n - 1) + Compact(showF64, v.elements[n - 1]))
  }

  // ---------------------------------------------------------------------------
  // The structural dump (`impl AstDisplay for JsonValue`)
  // ---------------------------------------------------------------------------

  /** A line as `writeln!` writes it: `depth` spaces, `text`, a line break. */
  function Line(depth: nat, text: string): string {
    Indent(depth) + text + "\n"
  }

  function ObjectHeader(depth: nat, size: nat): string {
    Line(depth, "JsonObject of size " + NatText(size) + " {")
  }

  function ArrayHeader(depth: nat, size: nat): string {
    Line(depth, "JsonArray of size " + NatText(size) + " [")
  }

  /** The line that closes an object or an array. */
  function Closing(depth: nat, bracket: char): string {
    Line(depth, [bracket])
  }

  /** What precedes the dump of an object's value on its line. */
  function KeyPrefix(depth: nat, key: string): string {
    Indent(depth + 2) + "Key: " + key + ", Value: "
  }

  /** The structural dump of `v` at depth `depth`. */
  function Ast(showF64: F64 -> string, v: JsonValue, depth: nat): string
    decreases v
  {
    match v
    case JsonObject(pairs) =>
      ObjectHeader(depth, |pairs|) + AstMembers(showF64, v, depth, |pairs|) + Closing(depth, '}')
    case JsonArray(elements) =>
      ArrayHeader(depth, |elements|) + AstElements(showF64, v, depth, |elements|) + Closing(depth, ']')
    case String(s) => Line(depth, "String: \"" + s + "\"")
    case Number(n) => Line(depth, "Number: " + showF64(n))
    case Boolean(b) => Line(depth, "Boolean: " + BoolText(b))
    case Null => Line(depth, "Null")
  }

  /** The dump of the first `n` pairs of object `v`: each key at `depth + 2`, its value
      dumped at `depth + 4` on the rest of the line. */
  function AstMembers(showF64: F64 -> string, v: JsonValue, depth: nat, n: nat): string
    requires v.JsonObject? && n <= |v.pairs|
    decreases v, n
  {
    if n == 0 then ""
    else
      var pair := v.pairs[n - 1];
      AstMembers(showF64, v, depth, n - 1) + (KeyPrefix(depth, pair.0) + Ast(showF64, pair.1, depth + 4))
  }

  /** The dump of the first `n` elements of array `v`: `depth + 2` spaces, then the
      element dumped at `depth + 2`. */
  function AstElements(showF64: F64 -> string, v: JsonValue, depth: nat, n: nat): string
    requires v.JsonArray? && n <= |v.elements|
    decreases v, n
  {
    if n == 0 then ""
    else AstElements(showF64, v, depth, n - 1) + (Indent(depth + 2) + Ast(showF64, v.elements[n - 1], depth + 2))
  }

  lemma AppendAssociative(a: string, b: string, c: string)
    ensures a + b + c == a + (b + c)
  {
  }

  // ---------------------------------------------------------------------------
  // The renderers as they run: appending to a formatter buffer
  // ---------------------------------------------------------------------------

  /** The output buffer of a `fmt::Formatter`; writes to it cannot fail. */
  class Formatter {
    var out: string

    constructor ()
      ensures out == ""
    {
      out := "";
    }

    method Write(s: string)
      modifies this
      ensures out == old(out) + s
    {
      out := out + s;
    }
  }

  /** `<JsonValue as Display>::fmt`: appends the compact text of `v`. */
  method Display(showF64: F64 -> string, v: JsonValue, f: Formatter)
    modifies f
    ensures f.out == old(f.out) + Compact(showF64, v)
    decreases v, 1
  {
    match v {
      case JsonObject(pairs) =>
        DisplayObject(showF64, v, f);
      case JsonArray(elements) =>
        DisplayArray(showF64, v, f);
      case String(s) =>
        f.Write("\"" + s + "\"");
      case Number(n) =>
        f.Write(showF64(n));
      case Boolean(b) =>
        f.Write(BoolText(b));
      case Null =>
        f.Write("null");
    }
  }

  /** The object arm of `fmt`. */
  method DisplayObject(showF64: F64 -> string, v: JsonValue, f: Formatter)
    requires v.JsonObject?
    modifies f
    ensures f.out == old(f.out) + Compact(showF64, v)
    decreases v, 0
  {
    var pairs := v.pairs;
    f.Write("{");
    ghost var prefix := f.out;
    for i := 0 to |pairs|
      invariant f.out == prefix + CompactMembers(showF64, v, i)
    {
      ghost var before := f.out;
      if i > 0 {
        f.Write(", ");
      }
      assert f.out == before + Separator(i);
      assert pairs[i] in pairs;
      f.Write(EntryHead(pairs[i].0));
      Display(showF64, pairs[i].1, f);
      ghost var entry := EntryHead(pairs[i].0) + Compact(showF64, pairs[i].1);
      AppendAssociative(before + Separator(i), EntryHead(pairs[i].0), Compact(showF64, pairs[i].1));
      AppendAssociative(before, Separator(i), entry);
      AppendAssociative(prefix, CompactMembers(showF64, v, i), Separator(i) + entry);
    }
    f.Write("}");
  }

  /** The array arm of `fmt`. */
  method DisplayArray(showF64: F64 -> string, v: JsonValue, f: Formatter)
    requires v.JsonArray?
    modifies f
    ensures f.out == old(f.out) + Compact(showF64, v)
    decreases v, 0
  {
    var elements := v.elements;
    f.Write("[");
    ghost var prefix := f.out;
    for i := 0 to |elements|
      invariant f.out == prefix + CompactElements(showF64, v, i)
    {
      ghost var before := f.out;
      if i > 0 {
        f.Write(", ");
      }
      assert f.out == before + Separator(i);
      Display(showF64, elements[i], f);
      AppendAssociative(before, Separator(i), Compact(showF64, elements[i]));
      AppendAssociative(prefix, CompactElements(showF64, v, i), Separator(i) + Compact(showF64, elements[i]));
    }
    f.Write("]");
  }

  /** `<JsonValue as AstDisplay>::ast_fmt`: appends the dump of `v` at `depth`. */
  method AstFmt(showF64: F64 -> string, v: JsonValue, f: Formatter, depth: nat)
    modifies f
    ensures f.out == old(f.out) + Ast(showF64, v, depth)
    decreases v, 1
  {
    match v {
      case JsonObject(pairs) =>
        AstFmtObject(showF64, v, f, depth);
      case JsonArray(elements) =>
        AstFmtArray(showF64, v, f, depth);
      case String(s) =>
        f.Write(Line(depth, "String: \"" + s + "\""));
      case Number(n) =>
        f.Write(Line(depth, "Number: " + showF64(n)));
      case Boolean(b) =>
        f.Write(Line(depth, "Boolean: " + BoolText(b)));
      case Null =>
        f.Write(Line(depth, "Null"));
    }
  }

  /** One pass of the object loop of `ast_fmt` appends the next pair's dump. */
  lemma AstMemberStep(showF64: F64 -> string, v: JsonValue, depth: nat, i: nat, prefix: string, out: string)
    requires v.JsonObject? && i < |v.pairs|
    requires out == prefix + AstMembers(showF64, v, depth, i) + KeyPrefix(depth, v.pairs[i].0)
                    + Ast(showF64, v.pairs[i].1, depth + 4)
    ensures out == prefix + AstMembers(showF64, v, depth, i + 1)
  {
    var done := prefix + AstMembers(showF64, v, depth, i);
    AppendAssociative(done, KeyPrefix(depth, v.pairs[i].0), Ast(showF64, v.pairs[i].1, depth + 4));
    AppendAssociative(prefix, AstMembers(showF64, v, depth, i),
                      KeyPrefix(depth, v.pairs[i].0) + Ast(showF64, v.pairs[i].1, depth + 4));
  }

  /** One pass of the array loop of `ast_fmt` appends the next element's dump. */
  lemma AstElementStep(showF64: F64 -> string, v: JsonValue, depth: nat, i: nat, prefix: string, out: string)
    requires v.JsonArray? && i < |v.elements|
    requires out == prefix + AstElements(showF64, v, depth, i) + Indent(depth + 2)
                    + Ast(showF64, v.elements[i], depth + 2)
    ensures out == prefix + AstElements(showF64, v, depth, i + 1)
  {
    var done := prefix + AstElements(showF64, v, depth, i);
    AppendAssociative(done, Indent(depth + 2), Ast(showF64, v.elements[i], depth + 2));
    AppendAssociative(prefix, AstElements(showF64, v, depth, i),
                      Indent(depth + 2) + Ast(showF64, v.elements[i], depth + 2));
  }

  /** The three parts of a container's dump, written one after another. */
  lemma AstContainer(showF64: F64 -> string, v: JsonValue, depth: nat, start: string, out: string)
    requires v.JsonObject? || v.JsonArray?
    requires v.JsonObject? ==> out == start + ObjectHeader(depth, |v.pairs|)
                                + AstMembers(showF64, v, depth, |v.pairs|) + Closing(depth, '}')
    requires v.JsonArray? ==> out == start + ArrayHeader(depth, |v.elements|)
                                + AstElements(showF64, v, depth, |v.elements|) + Closing(depth, ']')
    ensures out == start + Ast(showF64, v, depth)
  {
    if v.JsonObject? {
      var header, members := ObjectHeader(depth, |v.pairs|), AstMembers(showF64, v, depth, |v.pairs|);
      AppendAssociative(start, header, members);
      AppendAssociative(start, header + members, Closing(depth, '}'));
    } else {
      var header, items := ArrayHeader(depth, |v.elements|), AstElements(showF64, v, depth, |v.elements|);
      AppendAssociative(start, header, items);
      AppendAssociative(start, header + items, Closing(depth, ']'));
    }
  }

  /** The object arm of `ast_fmt`. */
  method AstFmtObject(showF64: F64 -> string, v: JsonValue, f: Formatter, depth: nat)
    requires v.JsonObject?
    modifies f
    ensures f.out == old(f.out) + Ast(showF64, v, depth)
    decreases v, 0
  {
    var pairs := v.pairs;
    f.Write(ObjectHeader(depth, |pairs|));
    ghost var prefix := f.out;
    for i := 0 to |pairs|
      invariant f.out == prefix + AstMembers(showF64, v, depth, i)
    {
      assert pairs[i] in pairs;
      f.Write(KeyPrefix(depth, pairs[i].0));
      AstFmt(showF64, pairs[i].1, f, depth + 4);
      AstMemberStep(showF64, v, depth, i, prefix, f.out);
    }
    f.Write(Closing(depth, '}'));
    AstContainer(showF64, v, depth, old(f.out), f.out);
  }

  /** The array arm of `ast_fmt`. */
  method AstFmtArray(showF64: F64 -> string, v: JsonValue, f: Formatter, depth: nat)
    requires v.JsonArray?
    modifies f
    ensures f.out == old(f.out) + Ast(showF64, v, depth)
    decreases v, 0
  {
    var elements := v.elements;
    f.Write(ArrayHeader(depth, |elements|));
    ghost var prefix := f.out;
    for i := 0 to |elements|
      invariant f.out == prefix + AstElements(showF64, v, depth, i)
    {
      f.Write(Indent(depth + 2));
      AstFmt(showF64, elements[i], f, depth + 2);
      AstElementStep(showF64, v, depth, i, prefix, f.out);
    }
    f.Write(Closing(depth, ']'));
    AstContainer(showF64, v, depth, old(f.out), f.out);
  }

  /** `<AstWrapper as Display>::fmt`: the dump starts at depth 0. */
  method AstWrapperFmt(showF64: F64 -> string, v: JsonValue, f: Formatter)
    modifies f
    ensures f.out == old(f.out) + Ast(showF64, v, 0)
  {
    AstFmt(showF64, v, f, 0);
  }

  /** `v.to_string()`: the compact text of `v`, rendered into a fresh buffer. */
  method RenderCompact(showF64: F64 -> string, v: JsonValue) returns (text: string)
    ensures text == Compact(showF64, v)
  {
    var f := new Formatter();
    Display(showF64, v, f);
    text := f.out;
  }

  /** `AstWrapper(&v).to_string()`: the structural dump of `v`, from depth 0. */
  method RenderAst(showF64: F64 -> string, v: JsonValue) returns (text: string)
    ensures text == Ast(showF64, v, 0)
  {
    var f := new Formatter();
    AstWrapperFmt(showF64, v, f);
    text := f.out;
  }
}
