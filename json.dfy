/** The JSON values a cache key is built from, the `sort_keys=True`
    normal form of a value, and the text `json.dumps(value, sort_keys=True)`
    writes for it (default separators `", "` and `": "`).  Floating-point
    numbers are not modelled. */
module Json {
  import opened TextOrder

  datatype Json =
    | Null
    | Bool(b: bool)
    | Int(i: int)
    | Str(s: string)
    | Array(items: seq<Json>)
    | Object(members: seq<Member>)

  /** One `name: value` pair of a dict, in the order the dict holds it. */
  datatype Member = Member(name: string, value: Json)

  // ---------------------------------------------------------------------
  // Sorting the members of a dict by name
  // ---------------------------------------------------------------------

  /** The names of a Python dict are pairwise different. */
  predicate DistinctNames(ms: seq<Member>)
  {
    forall i, j :: 0 <= i < j < |ms| ==> ms[i].name != ms[j].name
  }

  /** Names strictly increase in Python's string order. */
  predicate SortedByName(ms: seq<Member>)
  {
    forall i, j :: 0 <= i < j < |ms| ==> Less(ms[i].name, ms[j].name)
  }

  /** Puts `m` in front of the first member whose name is not below its own. */
  function Insert(m: Member, ms: seq<Member>): (r: seq<Member>)
    ensures multiset(r) == multiset(ms) + multiset{m}
  {
    if ms == [] || !Less(ms[0].name, m.name) then [m] + ms
    else
      assert ms == [ms[0]] + ms[1..];
      [ms[0]] + Insert(m, ms[1..])
  }

  /** The members in the order `sort_keys=True` writes them. */
  function SortMembers(ms: seq<Member>): (r: seq<Member>)
    ensures multiset(r) == multiset(ms)
  {
    if ms == [] then []
    else
      assert ms == [ms[0]] + ms[1..];
      Insert(ms[0], SortMembers(ms[1..]))
  }

  lemma {:induction false} InsertSorted(m: Member, ms: seq<Member>)
    requires SortedByName(ms)
    requires forall k :: 0 <= k < |ms| ==> ms[k].name != m.name
    ensures SortedByName(Insert(m, ms))
  {
    if ms == [] {
    } else if !Less(ms[0].name, m.name) {
      LessTotal(m.name, ms[0].name);
      var r := [m] + ms;
      forall i, j | 0 <= i < j < |r| ensures Less(r[i].name, r[j].name) {
        if i == 0 && j > 1 {
          LessTransitive(m.name, ms[0].name, ms[j - 1].name);
        }
      }
    } else {
      var tail := Insert(m, ms[1..]);
      InsertSorted(m, ms[1..]);
      var r := [ms[0]] + tail;
      forall j | 0 < j < |r| ensures Less(ms[0].name, r[j].name) {
        assert r[j] in multiset(tail);
        if r[j] != m {
          assert r[j] in multiset(ms[1..]);
          assert r[j] in ms[1..];
          var k :| 1 <= k < |ms| && ms[k] == r[j];
        }
      }
    }
  }

  /** `sorted(d.items())` of a dict lists its members by strictly increasing name. */
  lemma {:induction false} SortMembersSorted(ms: seq<Member>)
    requires DistinctNames(ms)
    ensures SortedByName(SortMembers(ms))
  {
    if ms != [] {
      var tail := SortMembers(ms[1..]);
      SortMembersSorted(ms[1..]);
      forall k | 0 <= k < |tail| ensures tail[k].name != ms[0].name {
        assert tail[k] in multiset(ms[1..]);
        var i :| 0 <= i < |ms[1..]| && ms[1..][i] == tail[k];
        assert ms[i + 1] == tail[k];
      }
      InsertSorted(ms[0], tail);
    }
  }

  lemma TailMultiset<T>(s: seq<T>)
    requires s != []
    ensures multiset(s[1..]) == multiset(s) - multiset{s[0]}
  {
    assert s == [s[0]] + s[1..];
  }

  /** The first of a sorted list is the member with the least name. */
  lemma SortedHeadsEqual(s: seq<Member>, t: seq<Member>)
    requires SortedByName(s) && SortedByName(t)
    requires multiset(s) == multiset(t) && s != []
    ensures t != [] && s[0] == t[0]
  {
    assert s[0] in multiset(t);
    assert t[0] in multiset(s);
    var i :| 0 <= i < |t| && t[i] == s[0];
    var j :| 0 <= j < |s| && s[j] == t[0];
    if i != 0 && j != 0 {
      LessAsymmetric(t[0].name, s[0].name);
    }
  }

  /** Two lists sorted by strictly increasing name that hold the same members are equal. */
  lemma {:induction false} SortedUnique(s: seq<Member>, t: seq<Member>)
    requires SortedByName(s) && SortedByName(t)
    requires multiset(s) == multiset(t)
    ensures s == t
  {
    if s == [] {
      assert |t| == |multiset(t)| == 0;
    } else {
      SortedHeadsEqual(s, t);
      TailMultiset(s);
      TailMultiset(t);
      SortedUnique(s[1..], t[1..]);
      HeadTailEqual(s, t);
    }
  }

  /** `sort_keys=True` makes the order a dict was built in irrelevant. */
  lemma SortIgnoresOrder(ms: seq<Member>, ns: seq<Member>)
    requires DistinctNames(ms) && DistinctNames(ns)
    requires multiset(ms) == multiset(ns)
    ensures SortMembers(ms) == SortMembers(ns)
  {
    SortMembersSorted(ms);
    SortMembersSorted(ns);
    SortedUnique(SortMembers(ms), SortMembers(ns));
  }

  // ---------------------------------------------------------------------
  // The normal form: every dict, at every depth, sorted by name
  // ---------------------------------------------------------------------

  function Canonical(j: Json): Json
    decreases j
  {
    match j
    case Array(items) => Array(CanonicalItems(items))
    case Object(ms) => Object(CanonicalMembers(SortMembers(ms), ms))
    case _ => j
  }

  function CanonicalItems(xs: seq<Json>): (r: seq<Json>)
    decreases xs
    ensures |r| == |xs|
  {
    if xs == [] then [] else [Canonical(xs[0])] + CanonicalItems(xs[1..])
  }

  /** Canonicalises the values of `s`, a rearrangement of (part of) `ms`. */
  function CanonicalMembers(s: seq<Member>, ghost ms: seq<Member>): (r: seq<Member>)
    requires multiset(s) <= multiset(ms)
    decreases ms, |s|
    ensures |r| == |s|
  {
    if s == [] then []
    else
      assert s[0] in multiset(ms);
      assert s == [s[0]] + s[1..];
      [Member(s[0].name, Canonical(s[0].value))] + CanonicalMembers(s[1..], ms)
  }

  /** The ghost bound only serves termination: the result does not depend on it. */
  lemma {:induction false} CanonicalMembersBoundFree(s: seq<Member>, ms: seq<Member>, ns: seq<Member>)
    requires multiset(s) <= multiset(ms) && multiset(s) <= multiset(ns)
    ensures CanonicalMembers(s, ms) == CanonicalMembers(s, ns)
    decreases |s|
  {
    if s != [] {
      assert s == [s[0]] + s[1..];
      CanonicalMembersBoundFree(s[1..], ms, ns);
    }
  }

  /** `sort_keys=True` makes the text of a dict independent of the order its
      members were inserted in. */
  lemma DumpsIgnoresMemberOrder(ms: seq<Member>, ns: seq<Member>)
    requires DistinctNames(ms) && DistinctNames(ns)
    requires multiset(ms) == multiset(ns)
    ensures Canonical(Object(ms)) == Canonical(Object(ns))
    ensures Dumps(Object(ms)) == Dumps(Object(ns))
  {
    SortIgnoresOrder(ms, ns);
    CanonicalMembersBoundFree(SortMembers(ms), ms, ns);
  }

  // ---------------------------------------------------------------------
  // Writing JSON text
  // ---------------------------------------------------------------------

  predicate IsDigit(c: char)
  {
    '0' <= c <= '9'
  }

  predicate AllDigits(s: string)
  {
    forall i :: 0 <= i < |s| ==> IsDigit(s[i])
  }

  function DigitChar(d: nat): (c: char)
    requires d < 10
    ensures IsDigit(c)
  {
    ('0' as int + d) as char
  }

  function DigitValue(c: char): nat
    requires IsDigit(c)
  {
    c as int - '0' as int
  }

  /** `str(n)` of a non-negative integer: decimal, no leading zeros. */
  function NatText(n: nat): (s: string)
    ensures |s| > 0 && AllDigits(s)
  {
    if n < 10 then [DigitChar(n)] else NatText(n / 10) + [DigitChar(n % 10)]
  }

  /** The number a run of decimal digits denotes. */
  function DigitsValue(s: string): nat
    requires AllDigits(s)
  {
    if s == [] then 0 else DigitsValue(s[..|s| - 1]) * 10 + DigitValue(s[|s| - 1])
  }

  function IntText(i: int): string
  {
    if i < 0 then "-" + NatText(-i) else NatText(i)
  }

  /** The characters `json.dumps` writes as a backslash and one letter. */
  predicate ShortEscaped(c: char)
  {
    c == '"' || c == '\\' || c == '\n' || c == '\r' || c == '\t' || c == '\U{8}' || c == '\U{C}'
  }

  /** The letter after the backslash. */
  function EscapeLetter(c: char): char
    requires ShortEscaped(c)
  {
    if c == '"' then '"'
    else if c == '\\' then '\\'
    else if c == '\n' then 'n'
    else if c == '\r' then 'r'
    else if c == '\t' then 't'
    else if c == '\U{8}' then 'b'
    else 'f'
  }

  /** How `json.dumps` writes one character inside a string literal: the
      characters with a two-character escape are escaped, every other
      character is written as itself. */
  function EscapeChar(c: char): (e: string)
    ensures |e| > 0 && e[0] != '"'
  {
    if ShortEscaped(c) then ['\\', EscapeLetter(c)] else [c]
  }

  function Escape(s: string): string
  {
    if s == [] then [] else EscapeChar(s[0]) + Escape(s[1..])
  }

  /** Text without a quote, a backslash or one of the five short-escaped
      control characters is written as it stands. */
  lemma {:induction false} EscapePlain(s: string)
    requires forall i :: 0 <= i < |s| ==> !ShortEscaped(s[i])
    ensures Escape(s) == s
  {
    if s != [] {
      EscapePlain(s[1..]);
      assert s == [s[0]] + s[1..];
    }
  }

  function Quote(s: string): string
  {
    "\"" + Escape(s) + "\""
  }

  /** The text of a value, members in the order they are held. */
  function Write(j: Json): string
    decreases j
  {
    match j
    case Null => "null"
    case Bool(b) => if b then "true" else "false"
    case Int(i) => IntText(i)
    case Str(s) => Quote(s)
    case Array(items) => "[" + WriteItems(items) + "]"
    case Object(ms) => "{" + WriteMembers(ms) + "}"
  }

  function WriteItems(xs: seq<Json>): string
    decreases xs
  {
    if xs == [] then []
    else if |xs| == 1 then Write(xs[0])
    else Write(xs[0]) + ", " + WriteItems(xs[1..])
  }

  function WriteMember(m: Member): string
    decreases m
  {
    Quote(m.name) + ": " + Write(m.value)
  }

  function WriteMembers(ms: seq<Member>): string
    decreases ms
  {
    if ms == [] then []
    else if |ms| == 1 then WriteMember(ms[0])
    else WriteMember(ms[0]) + ", " + WriteMembers(ms[1..])
  }

  /** `json.dumps(j, sort_keys=True)`. */
  function Dumps(j: Json): string
  {
    Write(Canonical(j))
  }

  // ---------------------------------------------------------------------
  // The text determines the value: `Write` is injective and prefix-free
  // ---------------------------------------------------------------------

  /** What may follow a value in JSON text: nothing, or a non-digit. */
  predicate Delimited(r: string)
  {
    r == [] || !IsDigit(r[0])
  }

  /** The kind of value a JSON text starting with `c` holds; 7 for none. */
  function StartKind(c: char): nat
  {
    if c == 'n' then 0
    else if c == 't' then 1
    else if c == 'f' then 2
    else if c == '-' || IsDigit(c) then 3
    else if c == '"' then 4
    else if c == '[' then 5
    else if c == '{' then 6
    else 7
  }

  function Kind(j: Json): nat
  {
    match j
    case Null => 0
    case Bool(b) => if b then 1 else 2
    case Int(_) => 3
    case Str(_) => 4
    case Array(_) => 5
    case Object(_) => 6
  }

  lemma Reassociate(a: string, b: string, c: string, d: string)
    ensures a + b + c + d == a + (b + (c + d))
  {
  }

  lemma CancelPrefix(p: string, x: string, y: string)
    requires p + x == p + y
    ensures x == y
  {
    assert x == (p + x)[|p|..];
    assert y == (p + y)[|p|..];
  }

  lemma WriteStart(j: Json)
    ensures |Write(j)| > 0 && StartKind(Write(j)[0]) == Kind(j)
  {
    match j
    case Int(i) =>
      if i < 0 {
        assert Write(j)[0] == '-';
      } else {
        assert IsDigit(NatText(i)[0]);
      }
    case _ =>
  }

  lemma {:induction false} NatTextValue(n: nat)
    ensures DigitsValue(NatText(n)) == n
  {
    if n >= 10 {
      var s := NatText(n / 10) + [DigitChar(n % 10)];
      assert s[..|s| - 1] == NatText(n / 10);
      NatTextValue(n / 10);
    }
  }

  /** A run of digits followed by a non-digit (or the end) is split at one place only. */
  lemma DigitRunSplit(x: string, y: string, r1: string, r2: string)
    requires AllDigits(x) && AllDigits(y)
    requires Delimited(r1) && Delimited(r2)
    requires x + r1 == y + r2
    ensures x == y && r1 == r2
  {
    if r1 != [] {
      assert (x + r1)[|x|] == r1[0];
    }
    if r2 != [] {
      assert (y + r2)[|y|] == r2[0];
    }
    assert |x| == |y|;
    assert x == (x + r1)[..|x|];
    assert y == (y + r2)[..|y|];
    CancelPrefix(x, r1, r2);
  }

  lemma NatInjective(a: nat, b: nat, r1: string, r2: string)
    requires NatText(a) + r1 == NatText(b) + r2
    requires Delimited(r1) && Delimited(r2)
    ensures a == b && r1 == r2
  {
    DigitRunSplit(NatText(a), NatText(b), r1, r2);
    NatTextValue(a);
    NatTextValue(b);
  }

  lemma IntTextStart(i: int)
    ensures |IntText(i)| > 0 && (IntText(i)[0] == '-' <==> i < 0)
  {
    if i >= 0 {
      assert IsDigit(NatText(i)[0]);
    }
  }

  lemma IntInjective(i: int, k: int, r1: string, r2: string)
    requires IntText(i) + r1 == IntText(k) + r2
    requires Delimited(r1) && Delimited(r2)
    ensures i == k && r1 == r2
  {
    IntTextStart(i);
    IntTextStart(k);
    var p, q := IntText(i), IntText(k);
    assert (p + r1)[0] == p[0] && (q + r2)[0] == q[0];
    assert (i < 0) == (k < 0);
    if i < 0 {
      assert p + r1 == "-" + (NatText(-i) + r1);
      assert q + r2 == "-" + (NatText(-k) + r2);
      CancelPrefix("-", NatText(-i) + r1, NatText(-k) + r2);
      NatInjective(-i, -k, r1, r2);
    } else {
      NatInjective(i, k, r1, r2);
    }
  }

  lemma EscapeCharInjective(c: char, d: char, x: string, y: string)
    requires EscapeChar(c) + x == EscapeChar(d) + y
    ensures c == d && x == y
  {
    var p, q := EscapeChar(c), EscapeChar(d);
    assert (p + x)[0] == p[0] && (q + y)[0] == q[0];
    if ShortEscaped(c) && ShortEscaped(d) {
      assert (p + x)[1] == p[1] && (q + y)[1] == q[1];
    }
    CancelPrefix(p, x, y);
  }

  lemma EscapeHead(s: string, r: string)
    ensures |Escape(s) + ("\"" + r)| > 0
    ensures (Escape(s) + ("\"" + r))[0] == '"' <==> s == []
  {
    if s != [] {
      assert (Escape(s) + ("\"" + r))[0] == EscapeChar(s[0])[0];
    }
  }

  lemma EscapeUnfold(s: string, r: string)
    requires s != []
    ensures Escape(s) + ("\"" + r) == EscapeChar(s[0]) + (Escape(s[1..]) + ("\"" + r))
  {
  }

  lemma {:induction false} EscapeInjective(s: string, t: string, r1: string, r2: string)
    requires Escape(s) + ("\"" + r1) == Escape(t) + ("\"" + r2)
    ensures s == t && r1 == r2
  {
    EscapeHead(s, r1);
    EscapeHead(t, r2);
    if s == [] || t == [] {
      assert s == [] && t == [];
      assert Escape(s) + ("\"" + r1) == "\"" + r1 && Escape(t) + ("\"" + r2) == "\"" + r2;
      CancelPrefix("\"", r1, r2);
    } else {
      EscapeUnfold(s, r1);
      EscapeUnfold(t, r2);
      EscapeCharInjective(s[0], t[0], Escape(s[1..]) + ("\"" + r1), Escape(t[1..]) + ("\"" + r2));
      EscapeInjective(s[1..], t[1..], r1, r2);
      HeadTailEqual(s, t);
    }
  }

  lemma QuoteInjective(s: string, t: string, r1: string, r2: string)
    requires Quote(s) + r1 == Quote(t) + r2
    ensures s == t && r1 == r2
  {
    assert Quote(s) + r1 == "\"" + (Escape(s) + ("\"" + r1));
    assert Quote(t) + r2 == "\"" + (Escape(t) + ("\"" + r2));
    assert "\"" + (Escape(s) + ("\"" + r1)) == "\"" + (Escape(t) + ("\"" + r2));
    CancelPrefix("\"", Escape(s) + ("\"" + r1), Escape(t) + ("\"" + r2));
    EscapeInjective(s, t, r1, r2);
  }

  /** Two values whose texts, each followed by something that cannot
      continue it, are equal, are the same value followed by the same text. */
  lemma {:induction false} WriteInjective(a: Json, b: Json, r1: string, r2: string)
    requires Write(a) + r1 == Write(b) + r2
    requires Delimited(r1) && Delimited(r2)
    ensures a == b && r1 == r2
    decreases a
  {
    WriteStart(a);
    WriteStart(b);
    assert (Write(a) + r1)[0] == Write(a)[0] && (Write(b) + r2)[0] == Write(b)[0];
    assert Kind(a) == Kind(b);
    match a
    case Null =>
      CancelPrefix("null", r1, r2);
    case Bool(x) =>
      CancelPrefix(Write(a), r1, r2);
    case Int(i) =>
      IntInjective(i, b.i, r1, r2);
    case Str(s) =>
      QuoteInjective(s, b.s, r1, r2);
    case Array(xs) =>
      ArrayInjective(xs, b.items, r1, r2);
    case Object(ms) =>
      ObjectInjective(ms, b.members, r1, r2);
  }

  lemma {:induction false} ArrayInjective(xs: seq<Json>, ys: seq<Json>, r1: string, r2: string)
    requires Write(Array(xs)) + r1 == Write(Array(ys)) + r2
    ensures xs == ys && r1 == r2
    decreases xs, 1
  {
    assert Write(Array(xs)) + r1 == "[" + (WriteItems(xs) + ("]" + r1));
    assert Write(Array(ys)) + r2 == "[" + (WriteItems(ys) + ("]" + r2));
    CancelPrefix("[", WriteItems(xs) + ("]" + r1), WriteItems(ys) + ("]" + r2));
    ItemsInjective(xs, ys, r1, r2);
  }

  lemma {:induction false} ObjectInjective(ms: seq<Member>, ns: seq<Member>, r1: string, r2: string)
    requires Write(Object(ms)) + r1 == Write(Object(ns)) + r2
    ensures ms == ns && r1 == r2
    decreases ms, 1
  {
    assert Write(Object(ms)) + r1 == "{" + (WriteMembers(ms) + ("}" + r1));
    assert Write(Object(ns)) + r2 == "{" + (WriteMembers(ns) + ("}" + r2));
    CancelPrefix("{", WriteMembers(ms) + ("}" + r1), WriteMembers(ns) + ("}" + r2));
    MembersInjective(ms, ns, r1, r2);
  }

  /** The text after the first item of a list: the closing bracket, or a comma and the rest. */
  function ItemsTail(xs: seq<Json>, r: string): string
    requires xs != []
  {
    if |xs| == 1 then "]" + r else ", " + (WriteItems(xs[1..]) + ("]" + r))
  }

  lemma ItemsDecompose(xs: seq<Json>, r: string)
    requires xs != []
    ensures WriteItems(xs) + ("]" + r) == Write(xs[0]) + ItemsTail(xs, r)
  {
    if |xs| > 1 {
      Reassociate(Write(xs[0]), ", ", WriteItems(xs[1..]), "]" + r);
    }
  }

  lemma ItemsSplit(xs: seq<Json>, r: string)
    ensures |WriteItems(xs) + ("]" + r)| > 0
    ensures (WriteItems(xs) + ("]" + r))[0] == ']' <==> xs == []
    ensures xs != [] ==> WriteItems(xs) + ("]" + r) == Write(xs[0]) + ItemsTail(xs, r)
    ensures xs != [] ==> Delimited(ItemsTail(xs, r))
    ensures xs != [] ==> ItemsTail(xs, r)[0] == (if |xs| == 1 then ']' else ',')
  {
    if xs != [] {
      ItemsDecompose(xs, r);
      var w, t := Write(xs[0]), ItemsTail(xs, r);
      WriteStart(xs[0]);
      assert (w + t)[0] == w[0];
    }
  }

  lemma HeadTailEqual<T>(s: seq<T>, t: seq<T>)
    requires s != [] && t != [] && s[0] == t[0] && s[1..] == t[1..]
    ensures s == t
  {
    assert s == [s[0]] + s[1..] && t == [t[0]] + t[1..];
  }

  /** After the first item the texts agree, so both lists end there or both go on. */
  lemma ItemsTailsAgree(xs: seq<Json>, ys: seq<Json>, r1: string, r2: string)
    requires xs != [] && ys != []
    requires ItemsTail(xs, r1) == ItemsTail(ys, r2)
    ensures (|xs| == 1) == (|ys| == 1)
    ensures |xs| == 1 ==> r1 == r2
    ensures |xs| > 1 ==> WriteItems(xs[1..]) + ("]" + r1) == WriteItems(ys[1..]) + ("]" + r2)
  {
    assert ItemsTail(xs, r1)[0] == (if |xs| == 1 then ']' else ',');
    assert ItemsTail(ys, r2)[0] == (if |ys| == 1 then ']' else ',');
    if |xs| == 1 {
      CancelPrefix("]", r1, r2);
    } else {
      CancelPrefix(", ", WriteItems(xs[1..]) + ("]" + r1), WriteItems(ys[1..]) + ("]" + r2));
    }
  }

  lemma {:induction false} ItemsInjective(xs: seq<Json>, ys: seq<Json>, r1: string, r2: string)
    requires WriteItems(xs) + ("]" + r1) == WriteItems(ys) + ("]" + r2)
    ensures xs == ys && r1 == r2
    decreases xs, 0
  {
    ItemsSplit(xs, r1);
    ItemsSplit(ys, r2);
    if xs == [] || ys == [] {
      assert xs == [] && ys == [];
      assert WriteItems(xs) + ("]" + r1) == "]" + r1 && WriteItems(ys) + ("]" + r2) == "]" + r2;
      CancelPrefix("]", r1, r2);
    } else {
      WriteInjective(xs[0], ys[0], ItemsTail(xs, r1), ItemsTail(ys, r2));
      ItemsTailsAgree(xs, ys, r1, r2);
      if |xs| > 1 {
        ItemsInjective(xs[1..], ys[1..], r1, r2);
      }
      HeadTailEqual(xs, ys);
    }
  }

  lemma WriteMemberSplit(m: Member, r: string)
    ensures WriteMember(m) + r == Quote(m.name) + (": " + (Write(m.value) + r))
  {
  }

  lemma {:induction false} MemberInjective(m: Member, n: Member, r1: string, r2: string)
    requires WriteMember(m) + r1 == WriteMember(n) + r2
    requires Delimited(r1) && Delimited(r2)
    ensures m == n && r1 == r2
    decreases m
  {
    var u1, u2 := ": " + (Write(m.value) + r1), ": " + (Write(n.value) + r2);
    WriteMemberSplit(m, r1);
    WriteMemberSplit(n, r2);
    QuoteInjective(m.name, n.name, u1, u2);
    CancelPrefix(": ", Write(m.value) + r1, Write(n.value) + r2);
    WriteInjective(m.value, n.value, r1, r2);
  }

  /** The text after the first member of a dict: the closing brace, or a comma and the rest. */
  function MembersTail(ms: seq<Member>, r: string): string
    requires ms != []
  {
    if |ms| == 1 then "}" + r else ", " + (WriteMembers(ms[1..]) + ("}" + r))
  }

  lemma MembersDecompose(ms: seq<Member>, r: string)
    requires ms != []
    ensures WriteMembers(ms) + ("}" + r) == WriteMember(ms[0]) + MembersTail(ms, r)
  {
    if |ms| > 1 {
      Reassociate(WriteMember(ms[0]), ", ", WriteMembers(ms[1..]), "}" + r);
    }
  }

  lemma MembersSplit(ms: seq<Member>, r: string)
    ensures |WriteMembers(ms) + ("}" + r)| > 0
    ensures (WriteMembers(ms) + ("}" + r))[0] == '}' <==> ms == []
    ensures ms != [] ==> WriteMembers(ms) + ("}" + r) == WriteMember(ms[0]) + MembersTail(ms, r)
    ensures ms != [] ==> Delimited(MembersTail(ms, r))
    ensures ms != [] ==> MembersTail(ms, r)[0] == (if |ms| == 1 then '}' else ',')
  {
    if ms != [] {
      MembersDecompose(ms, r);
      var w, t := WriteMember(ms[0]), MembersTail(ms, r);
      assert w == Quote(ms[0].name) + ": " + Write(ms[0].value);
      assert (w + t)[0] == w[0] == '"';
    }
  }

  /** After the first member the texts agree, so both dicts end there or both go on. */
  lemma MembersTailsAgree(ms: seq<Member>, ns: seq<Member>, r1: string, r2: string)
    requires ms != [] && ns != []
    requires MembersTail(ms, r1) == MembersTail(ns, r2)
    ensures (|ms| == 1) == (|ns| == 1)
    ensures |ms| == 1 ==> r1 == r2
    ensures |ms| > 1 ==> WriteMembers(ms[1..]) + ("}" + r1) == WriteMembers(ns[1..]) + ("}" + r2)
  {
    assert MembersTail(ms, r1)[0] == (if |ms| == 1 then '}' else ',');
    assert MembersTail(ns, r2)[0] == (if |ns| == 1 then '}' else ',');
    if |ms| == 1 {
      CancelPrefix("}", r1, r2);
    } else {
      CancelPrefix(", ", WriteMembers(ms[1..]) + ("}" + r1), WriteMembers(ns[1..]) + ("}" + r2));
    }
  }

  lemma {:induction false} MembersInjective(ms: seq<Member>, ns: seq<Member>, r1: string, r2: string)
    requires WriteMembers(ms) + ("}" + r1) == WriteMembers(ns) + ("}" + r2)
    ensures ms == ns && r1 == r2
    decreases ms, 0
  {
    MembersSplit(ms, r1);
    MembersSplit(ns, r2);
    if ms == [] || ns == [] {
      assert ms == [] && ns == [];
      assert WriteMembers(ms) + ("}" + r1) == "}" + r1 && WriteMembers(ns) + ("}" + r2) == "}" + r2;
      CancelPrefix("}", r1, r2);
    } else {
      MemberInjective(ms[0], ns[0], MembersTail(ms, r1), MembersTail(ns, r2));
      MembersTailsAgree(ms, ns, r1, r2);
      if |ms| > 1 {
        MembersInjective(ms[1..], ns[1..], r1, r2);
      }
      HeadTailEqual(ms, ns);
    }
  }

  /** `json.dumps(a, sort_keys=True) == json.dumps(b, sort_keys=True)` exactly
      when the two values agree once every dict is sorted by name. */
  lemma DumpsEqualIff(a: Json, b: Json)
    ensures Dumps(a) == Dumps(b) <==> Canonical(a) == Canonical(b)
  {
    if Dumps(a) == Dumps(b) {
      assert Write(Canonical(a)) + [] == Write(Canonical(b)) + [];
      WriteInjective(Canonical(a), Canonical(b), [], []);
    }
  }
}
