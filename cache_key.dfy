/** The key the memoizing wrapper files a call under (src/cache.py:62):
    the wrapped function's `__name__`, a colon, `json.dumps(args,
    sort_keys=True)`, a colon, `json.dumps(kwargs, sort_keys=True)`.  The
    positional arguments are a tuple, which JSON writes as a list; the keyword
    arguments are a dict whose names are distinct. */
module CacheKey {
  import opened Json

  function Key(name: string, args: seq<Json>, kwargs: seq<Member>): string
  {
    name + ":" + Dumps(Array(args)) + ":" + Dumps(Object(kwargs))
  }

  /** A name without a colon is recovered from the text in front of the first colon. */
  lemma {:induction false} NameSplit(n1: string, n2: string, r1: string, r2: string)
    requires ':' !in n1 && ':' !in n2
    requires n1 + ":" + r1 == n2 + ":" + r2
    ensures n1 == n2 && r1 == r2
    decreases |n1|
  {
    assert (n1 + ":" + r1)[0] == (if n1 == [] then ':' else n1[0]);
    assert (n2 + ":" + r2)[0] == (if n2 == [] then ':' else n2[0]);
    if n1 == [] || n2 == [] {
      assert n1 == [] && n2 == [];
      assert n1 + ":" + r1 == ":" + r1 && n2 + ":" + r2 == ":" + r2;
      CancelPrefix(":", r1, r2);
    } else {
      assert n1[1..] + ":" + r1 == (n1 + ":" + r1)[1..];
      assert n2[1..] + ":" + r2 == (n2 + ":" + r2)[1..];
      NameSplit(n1[1..], n2[1..], r1, r2);
      HeadTailEqual(n1, n2);
    }
  }

  /** Two calls share a key exactly when they are to the same function, with
      the same positional values and the same keyword values once dicts are
      compared by name rather than by insertion order. */
  lemma KeyEqualIff(n1: string, args1: seq<Json>, kwargs1: seq<Member>,
                    n2: string, args2: seq<Json>, kwargs2: seq<Member>)
    requires ':' !in n1 && ':' !in n2
    ensures Key(n1, args1, kwargs1) == Key(n2, args2, kwargs2) <==>
      n1 == n2 &&
      Canonical(Array(args1)) == Canonical(Array(args2)) &&
      Canonical(Object(kwargs1)) == Canonical(Object(kwargs2))
  {
    var d1, e1 := Dumps(Array(args1)), Dumps(Object(kwargs1));
    var d2, e2 := Dumps(Array(args2)), Dumps(Object(kwargs2));
    if Key(n1, args1, kwargs1) == Key(n2, args2, kwargs2) {
      Reassociate(n1, ":", d1, ":" + e1);
      Reassociate(n2, ":", d2, ":" + e2);
      assert Key(n1, args1, kwargs1) == n1 + ":" + (d1 + (":" + e1));
      assert Key(n2, args2, kwargs2) == n2 + ":" + (d2 + (":" + e2));
      NameSplit(n1, n2, d1 + (":" + e1), d2 + (":" + e2));
      WriteInjective(Canonical(Array(args1)), Canonical(Array(args2)), ":" + e1, ":" + e2);
      CancelPrefix(":", e1, e2);
      DumpsEqualIff(Object(kwargs1), Object(kwargs2));
    }
  }

  /** Deterministic: the order keyword arguments are passed in does not matter. */
  lemma KeyIgnoresKeywordOrder(name: string, args: seq<Json>, kwargs1: seq<Member>, kwargs2: seq<Member>)
    requires DistinctNames(kwargs1) && DistinctNames(kwargs2)
    requires multiset(kwargs1) == multiset(kwargs2)
    ensures Key(name, args, kwargs1) == Key(name, args, kwargs2)
  {
    DumpsIgnoresMemberOrder(kwargs1, kwargs2);
  }

  /** The same value passed positionally and by keyword is filed under two
      different keys, so the two spellings of a call do not share an entry. */
  lemma PositionalAndKeywordDiffer(name: string, param: string, x: Json)
    requires ':' !in name
    ensures Key(name, [x], []) != Key(name, [], [Member(param, x)])
  {
    KeyEqualIff(name, [x], [], name, [], [Member(param, x)]);
  }

  /** Printable ASCII other than the quote and the backslash: the characters
      `json.dumps` (with `ensure_ascii=True`) writes as they stand. */
  predicate Printable(c: char)
  {
    ' ' <= c <= '~' && c != '"' && c != '\\'
  }

  /** The key of a call with one string argument passed positionally, such as
      the server's `fetch` tool making `fetch_content(url)`: a string of
      printable ASCII without quote or backslash is written as it stands. */
  lemma OneStringKey(name: string, s: string)
    requires forall i :: 0 <= i < |s| ==> Printable(s[i])
    ensures Key(name, [Str(s)], []) == name + ":[\"" + s + "\"]:{}"
  {
    var d := Dumps(Array([Str(s)]));
    var e := Dumps(Object([]));
    assert d == "[\"" + s + "\"]" by {
      EscapePlain(s);
      assert [Str(s)][1..] == [];
      assert CanonicalItems([Str(s)]) == [Canonical(Str(s))] + CanonicalItems([]);
      assert Canonical(Array([Str(s)])) == Array([Str(s)]);
      assert WriteItems([Str(s)]) == Quote(s);
    }
    assert e == "{}" by {
      assert Canonical(Object([])) == Object([]);
    }
    assert Key(name, [Str(s)], []) == name + ":" + d + ":" + e;
  }
}
