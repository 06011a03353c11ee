/**
 * The canonical serialisation BigchainDB hashes and signs: `json-stable-stringify`
 * called with the comparator `(a, b) => (a.key > b.key ? 1 : -1)`, which writes every
 * object with its keys in ascending order of their UTF-16 code units, at every level.
 *
 * The point of the key sort is that the text depends on the content of a value and
 * not on the order in which its keys were inserted: `SameContentSameText` below.
 */
module CanonicalJson {
  import opened Wrappers
  import opened JsValue

  // ---------------------------------------------------------------------------
  // The key order

  /**
   * Where a character stands in the order of UTF-16 code units, which is the
   * order JavaScript's `>` compares strings in: characters below U+D800 first,
   * then those above U+FFFF (their first code unit is a surrogate, 0xD800 to
   * 0xDBFF), then the rest of the basic plane, from U+E000.
   */
  function CodeUnitRank(c: char): (rank: int)
    ensures (c as int < 0xD800 || 0x10000 <= c as int) ==> rank == c as int
    ensures 0xE000 <= c as int < 0x10000 ==> rank > 0x10FFFF
  {
    var n := c as int;
    if n < 0xD800 || 0x10000 <= n then n else n + 0x110000
  }

  /** `a < b` on strings: the first differing character decides, by its UTF-16 code units, and a proper prefix comes first. */
  predicate StrLess(a: string, b: string)
    decreases |a|
  {
    if a == [] then b != []
    else if b == [] then false
    else if a[0] != b[0] then CodeUnitRank(a[0]) < CodeUnitRank(b[0])
    else StrLess(a[1..], b[1..])
  }

  /** The comparator the serialisation passes to the key sort. */
  function KeyCompare(a: string, b: string): (r: int)
    ensures r == 1 <==> StrLess(b, a)
    ensures r == -1 <==> !StrLess(b, a)
  {
    if StrLess(b, a) then 1 else -1
  }

  lemma {:induction false} StrLessIrreflexive(a: string)
    ensures !StrLess(a, a)
    decreases |a|
  {
    if a != [] {
      StrLessIrreflexive(a[1..]);
    }
  }

  lemma {:induction false} StrLessTransitive(a: string, b: string, c: string)
    requires StrLess(a, b) && StrLess(b, c)
    ensures StrLess(a, c)
    decreases |a|
  {
    if a != [] && a[0] == b[0] && b[0] == c[0] {
      StrLessTransitive(a[1..], b[1..], c[1..]);
    }
  }

  lemma {:induction false} StrLessTotal(a: string, b: string)
    requires a != b
    ensures StrLess(a, b) || StrLess(b, a)
    decreases |a|
  {
    if a != [] && b != [] && a[0] == b[0] {
      assert a == [a[0]] + a[1..] && b == [b[0]] + b[1..];
      StrLessTotal(a[1..], b[1..]);
    }
  }

  lemma {:induction false} StrLessAsymmetric(a: string, b: string)
    requires StrLess(a, b)
    ensures !StrLess(b, a)
    decreases |a|
  {
    if a != [] && b != [] && a[0] == b[0] {
      StrLessAsymmetric(a[1..], b[1..]);
    }
  }

  /** The UTF-16 code units of a character: one below U+10000, else a surrogate pair. */
  function Units(c: char): (u: seq<int>)
    ensures |u| == 1 || |u| == 2
  {
    var n := c as int;
    if n < 0x10000 then [n] else [0xD800 + (n - 0x10000) / 0x400, 0xDC00 + (n - 0x10000) % 0x400]
  }

  /** The UTF-16 encoding of a string, the sequence of code units JavaScript holds. */
  function Utf16(s: string): (u: seq<int>)
    ensures u == [] <==> s == []
  {
    if s == [] then [] else Units(s[0]) + Utf16(s[1..])
  }

  /** The lexicographic order on code unit sequences. */
  predicate UnitsLess(x: seq<int>, y: seq<int>)
    decreases |x|
  {
    if x == [] then y != []
    else if y == [] then false
    else if x[0] != y[0] then x[0] < y[0]
    else UnitsLess(x[1..], y[1..])
  }

  lemma {:induction false} UnitsLessPrefix(p: seq<int>, x: seq<int>, y: seq<int>)
    ensures UnitsLess(p + x, p + y) <==> UnitsLess(x, y)
  {
    if p != [] {
      assert (p + x)[1..] == p[1..] + x && (p + y)[1..] == p[1..] + y;
      UnitsLessPrefix(p[1..], x, y);
    } else {
      assert p + x == x && p + y == y;
    }
  }

  /** At two different characters, the code units decide as the ranks do. */
  lemma UnitsLessAtDifference(c: char, d: char, x: seq<int>, y: seq<int>)
    requires c != d
    ensures UnitsLess(Units(c) + x, Units(d) + y) <==> CodeUnitRank(c) < CodeUnitRank(d)
  {
    var u, v := Units(c) + x, Units(d) + y;
    var n, m := c as int, d as int;
    if n >= 0x10000 && m >= 0x10000 && (n - 0x10000) / 0x400 == (m - 0x10000) / 0x400 {
      assert (n - 0x10000) % 0x400 != (m - 0x10000) % 0x400;
      assert u[1..] == [u[1]] + x && v[1..] == [v[1]] + y;
    }
  }

  /** The key order is the order of the strings' UTF-16 encodings, as JavaScript compares strings. */
  lemma {:induction false} StrLessIsUtf16Order(a: string, b: string)
    ensures StrLess(a, b) <==> UnitsLess(Utf16(a), Utf16(b))
    decreases |a|
  {
    if a != [] && b != [] {
      if a[0] == b[0] {
        StrLessIsUtf16Order(a[1..], b[1..]);
        UnitsLessPrefix(Units(a[0]), Utf16(a[1..]), Utf16(b[1..]));
      } else {
        UnitsLessAtDifference(a[0], b[0], Utf16(a[1..]), Utf16(b[1..]));
      }
    }
  }

  /** A character above U+FFFF sorts before U+FFFF (its first code unit is 0xD800) and after U+D7FF. */
  lemma SupplementaryBetween()
    ensures StrLess("\U{10000}", "\U{FFFF}") && !StrLess("\U{FFFF}", "\U{10000}")
    ensures StrLess("\U{D7FF}", "\U{10000}")
  {
    StrLessIsUtf16Order("\U{10000}", "\U{FFFF}");
    StrLessIsUtf16Order("\U{D7FF}", "\U{10000}");
  }

  predicate StrictlySorted(ks: seq<string>)
  {
    forall i, j | 0 <= i < j < |ks| :: StrLess(ks[i], ks[j])
  }

  // ---------------------------------------------------------------------------
  // The key sort

  /** Places `k` before the first key the comparator does not rank below it. */
  function InsertKey(k: string, ks: seq<string>): (r: seq<string>)
    ensures |r| == |ks| + 1
    ensures forall x :: x in r <==> x == k || x in ks
  {
    if ks == [] || KeyCompare(k, ks[0]) == -1 then [k] + ks
    else [ks[0]] + InsertKey(k, ks[1..])
  }

  lemma {:induction false} InsertKeySorted(k: string, ks: seq<string>)
    requires StrictlySorted(ks) && k !in ks
    ensures StrictlySorted(InsertKey(k, ks))
  {
    if ks != [] {
      if KeyCompare(k, ks[0]) == -1 {
        StrLessTotal(k, ks[0]);
        forall j | 0 <= j < |ks| ensures StrLess(k, ks[j]) {
          if j > 0 { StrLessTransitive(k, ks[0], ks[j]); }
        }
      } else {
        InsertKeySorted(k, ks[1..]);
        var r := InsertKey(k, ks[1..]);
        forall x | x in r ensures StrLess(ks[0], x) {
          if x != k {
            var j :| 0 <= j < |ks[1..]| && ks[1..][j] == x;
            assert ks[j + 1] == x;
          }
        }
      }
    }
  }

  /** `keys.sort(cmp)`: an insertion sort with the serialisation's comparator. */
  function SortKeys(ks: seq<string>): (r: seq<string>)
    ensures |r| == |ks|
    ensures forall x :: x in r <==> x in ks
  {
    if ks == [] then [] else InsertKey(ks[0], SortKeys(ks[1..]))
  }

  predicate Distinct(ks: seq<string>)
  {
    forall i, j | 0 <= i < j < |ks| :: ks[i] != ks[j]
  }

  lemma {:induction false} SortKeysSorted(ks: seq<string>)
    requires Distinct(ks)
    ensures StrictlySorted(SortKeys(ks))
  {
    if ks != [] {
      assert Distinct(ks[1..]);
      SortKeysSorted(ks[1..]);
      forall j | 0 <= j < |ks[1..]| ensures ks[1..][j] != ks[0] {
        assert ks[1..][j] == ks[j + 1];
      }
      InsertKeySorted(ks[0], SortKeys(ks[1..]));
    }
  }

  /** Two strictly ascending key lists with the same members are the same list. */
  lemma {:induction false} SortedUnique(a: seq<string>, b: seq<string>)
    requires StrictlySorted(a) && StrictlySorted(b)
    requires forall x :: x in a <==> x in b
    ensures a == b
    decreases |a|
  {
    if a != [] { assert a[0] in b; }
    if b != [] { assert b[0] in a; }
    if a != [] && b != [] {
      assert a[0] == b[0] by {
        if a[0] != b[0] {
          var i :| 0 <= i < |b| && b[i] == a[0];
          var j :| 0 <= j < |a| && a[j] == b[0];
          assert i > 0 && j > 0;
          StrLessAsymmetric(a[0], a[j]);
        }
      }
      forall x ensures x in a[1..] <==> x in b[1..] {
        if x in a[1..] {
          var i :| 0 <= i < |a[1..]| && a[1..][i] == x;
          assert StrLess(a[0], x) by { assert a[i + 1] == x; }
          StrLessIrreflexive(x);
          assert x in b;
          var j :| 0 <= j < |b| && b[j] == x;
          assert j > 0;
          assert b[1..][j - 1] == x;
        }
        if x in b[1..] {
          var i :| 0 <= i < |b[1..]| && b[1..][i] == x;
          assert StrLess(b[0], x) by { assert b[i + 1] == x; }
          StrLessIrreflexive(x);
          assert x in a;
          var j :| 0 <= j < |a| && a[j] == x;
          assert j > 0;
          assert a[1..][j - 1] == x;
        }
      }
      SortedUnique(a[1..], b[1..]);
      assert a == [a[0]] + a[1..] && b == [b[0]] + b[1..];
    }
  }

  // ---------------------------------------------------------------------------
  // Text of primitives, as `JSON.stringify` writes them

  function HexDigit(d: nat): char
    requires d < 16
  {
    "0123456789abcdef"[d]
  }

  /** One character inside a JSON string literal. */
  function EscapeChar(c: char): (r: string)
    ensures |r| >= 1
  {
    if c == '"' then "\\\""
    else if c == '\\' then "\\\\"
    else if c as int == 8 then "\\b"
    else if c as int == 12 then "\\f"
    else if c == '\n' then "\\n"
    else if c == '\r' then "\\r"
    else if c == '\t' then "\\t"
    else if c < ' ' then "\\u00" + [HexDigit(c as nat / 16), HexDigit(c as nat % 16)]
    else [c]
  }

  function EscapeString(s: string): string
  {
    if s == [] then [] else EscapeString(s[..|s| - 1]) + EscapeChar(s[|s| - 1])
  }

  /** `JSON.stringify(s)` for a string `s`. */
  function Quote(s: string): (r: string)
    ensures |r| >= 2 && r[0] == '"' && r[|r| - 1] == '"'
  {
    "\"" + EscapeString(s) + "\""
  }

  function Join(parts: seq<string>, sep: string): string
  {
    if parts == [] then ""
    else if |parts| == 1 then parts[0]
    else Join(parts[..|parts| - 1], sep) + sep + parts[|parts| - 1]
  }

  // ---------------------------------------------------------------------------
  // The serialisation

  /**
   * The stable serialisation of `v`; `None` is the `undefined` that the library
   * returns for an undefined value (and that makes it skip an object member).
   */
  function Stringify(v: Value): (r: Option<string>)
    ensures r.None? <==> v.Undefined?
    decreases v
  {
    match v
    case Undefined => None
    case Null => Some("null")
    case Bool(b) => Some(if b then "true" else "false")
    case Num(n) => Some(IntToString(n))
    case Str(s) => Some(Quote(s))
    case Arr(xs) => Some("[" + Join(Items(v, |xs|), ",") + "]")
    case Obj(es) =>
      var keys := SortKeys(Keys(es));
      Some("{" + Join(Members(v, keys, |keys|), ",") + "}")
  }

  /** The texts of the first `n` elements; an undefined element is written `null`. */
  function Items(arr: Value, n: nat): (r: seq<string>)
    requires arr.Arr? && n <= |arr.items|
    ensures |r| == n
    decreases arr, n
  {
    if n == 0 then []
    else
      var x := arr.items[n - 1];
      var s := Stringify(x);
      Items(arr, n - 1) + [if s.Some? then s.value else "null"]
  }

  /** `"key":value` for the first `n` of `keys`, leaving out the keys whose value is undefined. */
  function Members(obj: Value, keys: seq<string>, n: nat): (r: seq<string>)
    requires obj.Obj? && n <= |keys|
    ensures |r| <= n
    decreases obj, n
  {
    if n == 0 then []
    else
      var k := keys[n - 1];
      var i := IndexOfKey(obj.entries, k);
      var rest := Members(obj, keys, n - 1);
      if i < 0 then rest
      else
        var s := Stringify(obj.entries[i].1);
        if s.None? then rest else rest + [Quote(k) + ":" + s.value]
  }

  // ---------------------------------------------------------------------------
  // Content equality

  /**
   * `a` and `b` hold the same data: equal primitives, arrays equal element by
   * element, and objects with the same keys mapped to values of the same content,
   * in whatever order the keys were inserted.
   */
  ghost predicate SameContent(a: Value, b: Value)
    decreases a
  {
    match a
    case Arr(xs) => b.Arr? && |xs| == |b.items| && SameItems(a, b, |xs|)
    case Obj(ea) =>
      b.Obj? && UniqueKeys(ea) && UniqueKeys(b.entries)
      && (forall k :: HasKey(ea, k) <==> HasKey(b.entries, k))
      && SameMembers(a, b, |ea|)
    case _ => a == b
  }

  ghost predicate SameItems(a: Value, b: Value, n: nat)
    requires a.Arr? && b.Arr? && n <= |a.items| && n <= |b.items|
    decreases a, n
  {
    n == 0 || (SameContent(a.items[n - 1], b.items[n - 1]) && SameItems(a, b, n - 1))
  }

  ghost predicate SameMembers(a: Value, b: Value, n: nat)
    requires a.Obj? && b.Obj? && n <= |a.entries|
    decreases a, n
  {
    n == 0 || (SameContent(a.entries[n - 1].1, Lookup(b.entries, a.entries[n - 1].0)) && SameMembers(a, b, n - 1))
  }

  lemma {:induction false} SameMembersAt(a: Value, b: Value, n: nat, i: nat)
    requires a.Obj? && b.Obj? && n <= |a.entries| && i < n
    requires SameMembers(a, b, n)
    ensures SameContent(a.entries[i].1, Lookup(b.entries, a.entries[i].0))
  {
    if i < n - 1 {
      SameMembersAt(a, b, n - 1, i);
    }
  }

  // ---------------------------------------------------------------------------
  // The serialisation depends on content only

  /** Values with the same content serialise to the same text. */
  lemma {:induction false} SameContentSameText(a: Value, b: Value)
    requires SameContent(a, b)
    ensures Stringify(a) == Stringify(b)
    decreases a
  {
    match a
    case Arr(xs) =>
      SameItemsSameText(a, b, |xs|);
    case Obj(ea) =>
      var eb := b.entries;
      var ka := SortKeys(Keys(ea));
      var kb := SortKeys(Keys(eb));
      assert ka == kb by {
        assert Distinct(Keys(ea)) && Distinct(Keys(eb));
        forall x ensures x in ka <==> x in kb {
          assert HasKey(ea, x) <==> HasKey(eb, x);
        }
        SortKeysSorted(Keys(ea));
        SortKeysSorted(Keys(eb));
        SortedUnique(ka, kb);
      }
      SameMembersSameText(a, b, ka, |ka|);
    case _ =>
  }

  lemma {:induction false} SameItemsSameText(a: Value, b: Value, n: nat)
    requires a.Arr? && b.Arr? && n <= |a.items| && n <= |b.items|
    requires SameItems(a, b, n)
    ensures Items(a, n) == Items(b, n)
    decreases a, n
  {
    if n > 0 {
      SameItemsLast(a, b, n);
      SameItemsSameText(a, b, n - 1);
      SameContentSameText(a.items[n - 1], b.items[n - 1]);
      ItemsStep(a, b, n);
    }
  }

  lemma SameItemsLast(a: Value, b: Value, n: nat)
    requires a.Arr? && b.Arr? && 0 < n <= |a.items| && n <= |b.items|
    requires SameItems(a, b, n)
    ensures SameContent(a.items[n - 1], b.items[n - 1]) && SameItems(a, b, n - 1)
  {
  }

  /** Extending two equal item lists by items of the same text keeps them equal. */
  lemma ItemsStep(a: Value, b: Value, n: nat)
    requires a.Arr? && b.Arr? && 0 < n <= |a.items| && n <= |b.items|
    requires Items(a, n - 1) == Items(b, n - 1)
    requires Stringify(a.items[n - 1]) == Stringify(b.items[n - 1])
    ensures Items(a, n) == Items(b, n)
  {
  }

  lemma {:induction false} SameMembersSameText(a: Value, b: Value, keys: seq<string>, n: nat)
    requires a.Obj? && b.Obj? && SameContent(a, b) && n <= |keys|
    ensures Members(a, keys, n) == Members(b, keys, n)
    decreases a, n
  {
    if n > 0 {
      SameMembersSameText(a, b, keys, n - 1);
      var i := IndexOfKey(a.entries, keys[n - 1]);
      if i >= 0 {
        SameMemberText(a, b, keys[n - 1], i);
      }
    }
  }

  /** One key of two objects with the same content: both hold it, with values of the same text. */
  lemma {:induction false} SameMemberText(a: Value, b: Value, k: string, i: int)
    requires a.Obj? && b.Obj? && SameContent(a, b)
    requires i == IndexOfKey(a.entries, k) && i >= 0
    ensures IndexOfKey(b.entries, k) >= 0
    ensures Stringify(a.entries[i].1) == Stringify(b.entries[IndexOfKey(b.entries, k)].1)
    decreases a, 0
  {
    assert HasKey(b.entries, k);
    SameMembersAt(a, b, |a.entries|, i);
    SameContentSameText(a.entries[i].1, Lookup(b.entries, k));
  }
}
