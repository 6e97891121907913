/** What the compact renderer of src/value.rs produces, stated on `Compact`. */
module CompactProperties {
  import opened Values

  // ---------------------------------------------------------------------------
  // The compact text against a separator-join reference
  // ---------------------------------------------------------------------------

  /** The items of `xs` with `sep` between neighbours: nothing before the first item
      and nothing after the last. */
  function Join(sep: string, xs: seq<string>): string {
    if |xs| == 0 then ""
    else if |xs| == 1 then xs[0]
    else xs[0] + sep + Join(sep, xs[1..])
  }

  lemma {:induction false} JoinSnoc(sep: string, xs: seq<string>, x: string)
    ensures Join(sep, xs + [x]) == if xs == [] then x else Join(sep, xs) + sep + x
  {
    if |xs| == 0 {
      assert xs + [x] == [x];
    } else if |xs| == 1 {
      assert xs + [x] == [xs[0], x];
      assert [xs[0], x][1..] == [x];
    } else {
      assert (xs + [x])[1..] == xs[1..] + [x];
      JoinSnoc(sep, xs[1..], x);
    }
  }

  /** The compact text of each object entry: `"key": value`. */
  function Entries(showF64: F64 -> string, pairs: seq<(string, JsonValue)>): (r: seq<string>)
    ensures |r| == |pairs|
  {
    seq(|pairs|, i requires 0 <= i < |pairs| => EntryHead(pairs[i].0) + Compact(showF64, pairs[i].1))
  }

  /** The compact text of each array element. */
  function Items(showF64: F64 -> string, elements: seq<JsonValue>): (r: seq<string>)
    ensures |r| == |elements|
  {
    seq(|elements|, i requires 0 <= i < |elements| => Compact(showF64, elements[i]))
  }

  lemma {:induction false} CompactMembersJoin(showF64: F64 -> string, v: JsonValue, n: nat)
    requires v.JsonObject? && n <= |v.pairs|
    ensures CompactMembers(showF64, v, n) == Join(", ", Entries(showF64, v.pairs[..n]))
  {
    if n > 0 {
      CompactMembersJoin(showF64, v, n - 1);
      var entries := Entries(showF64, v.pairs[..n - 1]);
      var e := EntryHead(v.pairs[n - 1].0) + Compact(showF64, v.pairs[n - 1].1);
      assert Entries(showF64, v.pairs[..n]) == entries + [e];
      JoinSnoc(", ", entries, e);
      AppendAssociative(CompactMembers(showF64, v, n - 1), Separator(n - 1), e);
    }
  }

  lemma {:induction false} CompactElementsJoin(showF64: F64 -> string, v: JsonValue, n: nat)
    requires v.JsonArray? && n <= |v.elements|
    ensures CompactElements(showF64, v, n) == Join(", ", Items(showF64, v.elements[..n]))
  {
    if n > 0 {
      CompactElementsJoin(showF64, v, n - 1);
      var items := Items(showF64, v.elements[..n - 1]);
      var e := Compact(showF64, v.elements[n - 1]);
      assert Items(showF64, v.elements[..n]) == items + [e];
      JoinSnoc(", ", items, e);
      AppendAssociative(CompactElements(showF64, v, n - 1), Separator(n - 1), e);
    }
  }

  /** An object renders as `{`, its entries `"key": value` in stored order separated by
      `", "`, then `}`. */
  lemma CompactObject(showF64: F64 -> string, pairs: seq<(string, JsonValue)>)
    ensures Compact(showF64, JsonObject(pairs)) == "{" + Join(", ", Entries(showF64, pairs)) + "}"
  {
    CompactMembersJoin(showF64, JsonObject(pairs), |pairs|);
    assert pairs[..|pairs|] == pairs;
  }

  /** An array renders as `[`, its elements in stored order separated by `", "`, then `]`. */
  lemma CompactArray(showF64: F64 -> string, elements: seq<JsonValue>)
    ensures Compact(showF64, JsonArray(elements)) == "[" + Join(", ", Items(showF64, elements)) + "]"
  {
    CompactElementsJoin(showF64, JsonArray(elements), |elements|);
    assert elements[..|elements|] == elements;
  }

  /** Empty containers render as `{}` and `[]`. */
  lemma CompactEmpty(showF64: F64 -> string)
    ensures Compact(showF64, JsonObject([])) == "{}"
    ensures Compact(showF64, JsonArray([])) == "[]"
  {
  }

  /** Entries keep their order, duplicate keys included, and strings are not escaped. */
  lemma CompactObjectExample(showF64: F64 -> string)
    ensures Compact(showF64, JsonObject([("a", Null), ("a", String("x\"y"))]))
            == "{" + "\"a\": null" + ", " + "\"a\": \"x\"y\"" + "}"
  {
    var v := JsonObject([("a", Null), ("a", String("x\"y"))]);
    assert CompactMembers(showF64, v, 1) == "\"a\": null";
    assert Compact(showF64, String("x\"y")) == "\"x\"y\"";
    assert EntryHead("a") + Compact(showF64, String("x\"y")) == "\"a\": \"x\"y\"";
  }

  lemma CompactArrayExample(showF64: F64 -> string)
    ensures Compact(showF64, JsonArray([Boolean(true), Boolean(false)])) == "[true, false]"
  {
    var elements := [Boolean(true), Boolean(false)];
    CompactArray(showF64, elements);
    assert Items(showF64, elements) == ["true", "false"];
  }
}
