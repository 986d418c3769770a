/** JSON values as the engine's DOM holds them, and the recursive search
    for every string stored under a given key. */
module Json {
  import opened Wrappers

  /** A JSON value. Numbers are kept as integers: the search never looks
      at them. An object's members are listed in iteration order. */
  datatype Json =
    | JNull
    | JBool(b: bool)
    | JNumber(n: int)
    | JString(s: string)
    | JArray(elems: seq<Json>)
    | JObject(members: seq<Member>)

  datatype Member = Member(key: string, value: Json)

  // ---------------------------------------------------------------------
  // What the search collects, member by member.
  // ---------------------------------------------------------------------

  /** The string a member contributes itself: its value, when its key is
      the one searched for and its value is a string. */
  function Hit(m: Member, key: string): seq<string>
  {
    if m.key == key && m.value.JString? then [m.value.s] else []
  }

  /** The strings found in `j`, in the order the search visits them. */
  function Collect(j: Json, key: string): seq<string>
    decreases j, 1
  {
    match j
    case JObject(ms) => CollectMembers(ms, key)
    case JArray(es) => CollectElems(es, key)
    case _ => []
  }

  /** The strings found in the members `ms`, each member's own hit before
      the ones inside its value. */
  function CollectMembers(ms: seq<Member>, key: string): seq<string>
    decreases ms, 0
  {
    if |ms| == 0 then []
    else
      var m := ms[|ms| - 1];
      CollectMembers(ms[..|ms| - 1], key) + Hit(m, key) + Collect(m.value, key)
  }

  function CollectElems(es: seq<Json>, key: string): seq<string>
    decreases es, 0
  {
    if |es| == 0 then [] else CollectElems(es[..|es| - 1], key) + Collect(es[|es| - 1], key)
  }

  // ---------------------------------------------------------------------
  // A reference definition: list every member of the document in
  // pre-order, then keep the hits.
  // ---------------------------------------------------------------------

  /** All members of `j` and of everything nested in it, each member
      before the members inside its value. */
  function Preorder(j: Json): seq<Member>
    decreases j, 1
  {
    match j
    case JObject(ms) => PreorderMembers(ms)
    case JArray(es) => PreorderElems(es)
    case _ => []
  }

  function PreorderMembers(ms: seq<Member>): seq<Member>
    decreases ms, 0
  {
    if |ms| == 0 then [] else [ms[0]] + Preorder(ms[0].value) + PreorderMembers(ms[1..])
  }

  function PreorderElems(es: seq<Json>): seq<Member>
    decreases es, 0
  {
    if |es| == 0 then [] else Preorder(es[0]) + PreorderElems(es[1..])
  }

  /** The string values of the members of `ms` whose key is `key`. */
  function Hits(ms: seq<Member>, key: string): seq<string>
  {
    if |ms| == 0 then [] else Hit(ms[0], key) + Hits(ms[1..], key)
  }

  lemma {:induction false} HitsAppend(a: seq<Member>, b: seq<Member>, key: string)
    ensures Hits(a + b, key) == Hits(a, key) + Hits(b, key)
    decreases |a|
  {
    if |a| == 0 {
      assert a + b == b;
    } else {
      assert (a + b)[0] == a[0];
      assert (a + b)[1..] == a[1..] + b;
      HitsAppend(a[1..], b, key);
    }
  }

  /** A value is among the hits exactly when some member carries it under
      the key. */
  lemma {:induction false} HitsMembership(ms: seq<Member>, key: string, v: string)
    ensures v in Hits(ms, key) <==> Member(key, JString(v)) in ms
    decreases |ms|
  {
    if |ms| > 0 {
      HitsMembership(ms[1..], key, v);
      assert ms == [ms[0]] + ms[1..];
    }
  }

  lemma {:induction false} PreorderMembersAppend(a: seq<Member>, b: seq<Member>)
    ensures PreorderMembers(a + b) == PreorderMembers(a) + PreorderMembers(b)
    decreases |a|
  {
    if |a| == 0 {
      assert a + b == b;
    } else {
      assert (a + b)[0] == a[0];
      assert (a + b)[1..] == a[1..] + b;
      PreorderMembersAppend(a[1..], b);
    }
  }

  lemma {:induction false} PreorderElemsAppend(a: seq<Json>, b: seq<Json>)
    ensures PreorderElems(a + b) == PreorderElems(a) + PreorderElems(b)
    decreases |a|
  {
    if |a| == 0 {
      assert a + b == b;
    } else {
      assert (a + b)[0] == a[0];
      assert (a + b)[1..] == a[1..] + b;
      PreorderElemsAppend(a[1..], b);
    }
  }

  /** The search finds exactly the hits of a pre-order walk over all the
      members of the document, in that order. */
  lemma {:induction false} CollectIsPreorderHits(j: Json, key: string)
    ensures Collect(j, key) == Hits(Preorder(j), key)
    decreases j, 1
  {
    match j
    case JObject(ms) => CollectMembersIsPreorderHits(ms, key);
    case JArray(es) => CollectElemsIsPreorderHits(es, key);
    case _ =>
  }

  lemma {:induction false} CollectMembersIsPreorderHits(ms: seq<Member>, key: string)
    ensures CollectMembers(ms, key) == Hits(PreorderMembers(ms), key)
    decreases ms, 0
  {
    if |ms| > 0 {
      var init, m := ms[..|ms| - 1], ms[|ms| - 1];
      var pi, pm := PreorderMembers(init), Preorder(m.value);
      assert ms == init + [m];
      assert [m][1..] == [];
      calc {
        Hits(PreorderMembers(ms), key);
        { PreorderMembersAppend(init, [m]); }
        Hits(pi + PreorderMembers([m]), key);
        { assert PreorderMembers([m]) == [m] + pm + PreorderMembers([]);
          assert [m] + pm + [] == [m] + pm; }
        Hits(pi + ([m] + pm), key);
        { HitsAppend(pi, [m] + pm, key); HitsAppend([m], pm, key); }
        Hits(pi, key) + (Hits([m], key) + Hits(pm, key));
        { assert Hits([m], key) == Hit(m, key) + []; }
        Hits(pi, key) + (Hit(m, key) + Hits(pm, key));
        { CollectMembersIsPreorderHits(init, key); CollectIsPreorderHits(m.value, key); }
        CollectMembers(init, key) + (Hit(m, key) + Collect(m.value, key));
        CollectMembers(ms, key);
      }
    }
  }

  lemma {:induction false} CollectElemsIsPreorderHits(es: seq<Json>, key: string)
    ensures CollectElems(es, key) == Hits(PreorderElems(es), key)
    decreases es, 0
  {
    if |es| > 0 {
      var init, e := es[..|es| - 1], es[|es| - 1];
      CollectElemsIsPreorderHits(init, key);
      CollectIsPreorderHits(e, key);
      assert es == init + [e];
      PreorderElemsAppend(init, [e]);
      assert [e][1..] == [];
      assert PreorderElems([e]) == Preorder(e);
      HitsAppend(PreorderElems(init), Preorder(e), key);
    }
  }

  /** A string is found exactly when some member anywhere in the document
      holds it under the key. */
  lemma CollectMembership(j: Json, key: string, v: string)
    ensures v in Collect(j, key) <==> Member(key, JString(v)) in Preorder(j)
  {
    CollectIsPreorderHits(j, key);
    HitsMembership(Preorder(j), key, v);
  }

  /** A worked case: in {"a": {"b": "x", "c": [{"b": "y"}, {"d": "z"}]}}
      the key "b" finds "x" and then "y", in document order. */
  lemma NestedSearchExample()
    ensures var inner := JObject([Member("b", JString("x")),
                                  Member("c", JArray([JObject([Member("b", JString("y"))]),
                                                      JObject([Member("d", JString("z"))])]))]);
            Collect(JObject([Member("a", inner)]), "b") == ["x", "y"]
  {
    var mx := Member("b", JString("x"));
    var mc := Member("c", JArray([JObject([Member("b", JString("y"))]),
                                  JObject([Member("d", JString("z"))])]));
    ExampleArray();
    assert Finds(mx, "b") == ["x"];
    CollectMembersSnoc([], mx, "b");
    CollectMembersSnoc([mx], mc, "b");
    assert [mx, mc] == [mx] + [mc];
    assert Collect(JObject([mx, mc]), "b") == ["x", "y"];
    CollectMembersSnoc([], Member("a", JObject([mx, mc])), "b");
  }

  lemma ExampleArray()
    ensures Collect(JArray([JObject([Member("b", JString("y"))]),
                            JObject([Member("d", JString("z"))])]), "b") == ["y"]
  {
    var y := JObject([Member("b", JString("y"))]);
    var z := JObject([Member("d", JString("z"))]);
    ExampleSingle("b", JString("y"));
    ExampleSingle("d", JString("z"));
    assert [y, z][..1] == [y] && [y][..0] == [];
  }

  lemma ExampleSingle(k: string, v: Json)
    requires v.JString?
    ensures Collect(JObject([Member(k, v)]), "b") == if k == "b" then [v.s] else []
  {
    CollectMembersSnoc([], Member(k, v), "b");
  }

  // ---------------------------------------------------------------------
  // The search, as the engine code runs it: a recursive walk appending to
  // a list the caller owns.
  // ---------------------------------------------------------------------

  /** A growable list of strings, passed by reference. */
  class StringList {
    var items: seq<string>

    constructor ()
      ensures items == []
    {
      items := [];
    }

    method Add(s: string)
      modifies this
      ensures items == old(items) + [s]
    {
      items := items + [s];
    }
  }

  /** What one member contributes: its own hit, then what its value holds. */
  function Finds(m: Member, key: string): seq<string>
  {
    Hit(m, key) + Collect(m.value, key)
  }

  lemma CollectMembersSnoc(ms: seq<Member>, m: Member, key: string)
    ensures CollectMembers(ms + [m], key) == CollectMembers(ms, key) + Finds(m, key)
  {
    assert (ms + [m])[..|ms|] == ms;
  }

  lemma CollectOfFour(m0: Member, m1: Member, m2: Member, m3: Member, key: string)
    ensures CollectMembers([m0, m1, m2, m3], key)
         == Finds(m0, key) + Finds(m1, key) + Finds(m2, key) + Finds(m3, key)
  {
    CollectMembersSnoc([], m0, key);
    CollectMembersSnoc([m0], m1, key);
    CollectMembersSnoc([m0, m1], m2, key);
    CollectMembersSnoc([m0, m1, m2], m3, key);
    assert [m0] == [] + [m0] && [m0, m1] == [m0] + [m1];
    assert [m0, m1, m2] == [m0, m1] + [m2] && [m0, m1, m2, m3] == [m0, m1, m2] + [m3];
  }

  lemma CollectMembersPrefix(ms: seq<Member>, i: nat, key: string)
    requires i < |ms|
    ensures CollectMembers(ms[..i + 1], key) == CollectMembers(ms[..i], key) + Finds(ms[i], key)
  {
    assert ms[..i + 1][..i] == ms[..i];
  }

  lemma CollectElemsPrefix(es: seq<Json>, i: nat, key: string)
    requires i < |es|
    ensures CollectElems(es[..i + 1], key) == CollectElems(es[..i], key) + Collect(es[i], key)
  {
    assert es[..i + 1][..i] == es[..i];
  }

  lemma ConcatAssoc(a: seq<string>, b: seq<string>, c: seq<string>)
    ensures a + b + c == a + (b + c)
  {
  }

  /** Appends to `out` every string found under `key` in `value`; a
      missing value (None) adds nothing. An object contributes, member by
      member, the member's own hit and then the search of its value; an
      array the search of each element in turn. */
  method FindJsonValuesRecursive(value: Option<Json>, key: string, out: StringList)
    modifies out
    ensures out.items == old(out.items) + (if value.Some? then Collect(value.value, key) else [])
    decreases if value.Some? then value.value else JNull
  {
    if value.None? {
      return;
    }
    match value.value
    case JObject(ms) =>
      var i := 0;
      while i < |ms|
        invariant 0 <= i <= |ms|
        invariant out.items == old(out.items) + CollectMembers(ms[..i], key)
      {
        var m := ms[i];
        ghost var before := out.items;
        if m.key == key {
          if m.value.JString? {
            out.Add(m.value.s);
          }
        }
        ghost var hit := Hit(m, key);
        assert out.items == before + hit;
        FindJsonValuesRecursive(Some(m.value), key, out);
        ghost var inner := Collect(m.value, key);
        ghost var prefix := CollectMembers(ms[..i], key);
        calc {
          out.items;
          (before + hit) + inner;
          { ConcatAssoc(before, hit, inner); }
          before + Finds(m, key);
          (old(out.items) + prefix) + Finds(m, key);
          { ConcatAssoc(old(out.items), prefix, Finds(m, key)); }
          old(out.items) + (prefix + Finds(m, key));
          { CollectMembersPrefix(ms, i, key); }
          old(out.items) + CollectMembers(ms[..i + 1], key);
        }
        i := i + 1;
      }
      assert ms[..|ms|] == ms;
    case JArray(es) =>
      var i := 0;
      while i < |es|
        invariant 0 <= i <= |es|
        invariant out.items == old(out.items) + CollectElems(es[..i], key)
      {
        FindJsonValuesRecursive(Some(es[i]), key, out);
        ghost var prefix := CollectElems(es[..i], key);
        calc {
          out.items;
          (old(out.items) + prefix) + Collect(es[i], key);
          { ConcatAssoc(old(out.items), prefix, Collect(es[i], key)); }
          old(out.items) + (prefix + Collect(es[i], key));
          { CollectElemsPrefix(es, i, key); }
          old(out.items) + CollectElems(es[..i + 1], key);
        }
        i := i + 1;
      }
      assert es[..|es|] == es;
    case _ =>
  }

  /** The strings stored under `key` anywhere in a parsed document, and
      whether there are any. `root` is the parser's result: None when the
      text is not valid JSON. */
  method GetJsonStringValuesByKey(root: Option<Json>, key: string) returns (found: bool, values: seq<string>)
    ensures root.None? ==> values == []
    ensures root.Some? ==> values == Collect(root.value, key)
    ensures found <==> |values| > 0
  {
    var out := new StringList();
    if root.None? {
      return false, out.items;
    }
    FindJsonValuesRecursive(root, key, out);
    values := out.items;
    found := |values| > 0;
  }
}
