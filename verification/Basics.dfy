/** Values shared by every component: optional results and ordered sequences. */
module Basics {

  datatype Option<+T> = None | Some(value: T)

  datatype Result<+T, +E> = Ok(value: T) | Err(error: E)

  /** A JavaScript string or optional string is falsy when it is absent or empty. */
  predicate Truthy(s: Option<string>) {
    s.Some? && s.value != ""
  }
}

/** String.prototype.trim. */
module JsText {

  predicate Whitespace(c: char) {
    var n := c as int;
    9 <= n <= 13 || n == 0x20 || n == 0xA0 || n == 0x1680 || 0x2000 <= n <= 0x200A
    || n == 0x2028 || n == 0x2029 || n == 0x202F || n == 0x205F || n == 0x3000 || n == 0xFEFF
  }

  function TrimStart(s: string): string {
    if s != "" && Whitespace(s[0]) then TrimStart(s[1..]) else s
  }

  function TrimEnd(s: string): string {
    if s != "" && Whitespace(s[|s| - 1]) then TrimEnd(s[..|s| - 1]) else s
  }

  function Trim(s: string): string {
    TrimEnd(TrimStart(s))
  }

  predicate Blank(s: string) {
    forall i :: 0 <= i < |s| ==> Whitespace(s[i])
  }

  /** Neither end is whitespace. */
  predicate Trimmed(s: string) {
    s != "" ==> !Whitespace(s[0]) && !Whitespace(s[|s| - 1])
  }

  lemma {:induction false} TrimStartCuts(s: string) returns (before: string)
    ensures s == before + TrimStart(s) && Blank(before)
    ensures TrimStart(s) != "" ==> !Whitespace(TrimStart(s)[0])
  {
    if s != "" && Whitespace(s[0]) {
      var rest := TrimStartCuts(s[1..]);
      before := [s[0]] + rest;
      assert s == [s[0]] + s[1..];
    } else {
      before := "";
    }
  }

  lemma {:induction false} TrimEndCuts(s: string) returns (after: string)
    ensures s == TrimEnd(s) + after && Blank(after)
    ensures TrimEnd(s) != "" ==> !Whitespace(TrimEnd(s)[|TrimEnd(s)| - 1]) && TrimEnd(s)[0] == s[0]
  {
    if s != "" && Whitespace(s[|s| - 1]) {
      var rest := TrimEndCuts(s[..|s| - 1]);
      after := rest + [s[|s| - 1]];
      assert s == s[..|s| - 1] + [s[|s| - 1]];
    } else {
      after := "";
    }
  }

  /** Trimming removes exactly the whitespace at both ends. */
  lemma {:induction false} TrimCuts(s: string) returns (before: string, after: string)
    ensures s == before + Trim(s) + after && Blank(before) && Blank(after) && Trimmed(Trim(s))
  {
    before := TrimStartCuts(s);
    after := TrimEndCuts(TrimStart(s));
  }

  lemma {:induction false} TrimStartSkips(before: string, s: string)
    requires Blank(before) && (s != "" ==> !Whitespace(s[0]))
    ensures TrimStart(before + s) == s
  {
    if before == "" {
      assert before + s == s;
    } else {
      assert (before + s)[1..] == before[1..] + s;
      TrimStartSkips(before[1..], s);
    }
  }

  lemma {:induction false} TrimEndSkips(s: string, after: string)
    requires Blank(after) && (s != "" ==> !Whitespace(s[|s| - 1]))
    ensures TrimEnd(s + after) == s
  {
    if after == "" {
      assert s + after == s;
    } else {
      var n := |after| - 1;
      assert (s + after)[..|s| + n] == s + after[..n];
      TrimEndSkips(s, after[..n]);
    }
  }

  /** What stands between blanks is found again. */
  lemma {:induction false} TrimAround(before: string, core: string, after: string)
    requires Blank(before) && Trimmed(core) && Blank(after)
    ensures Trim(before + core + after) == core
  {
    if core == "" {
      assert Blank(before + after) && before + core + after == (before + after) + "";
      TrimStartSkips(before + after, "");
    } else {
      assert before + core + after == before + (core + after);
      TrimStartSkips(before, core + after);
      TrimEndSkips(core, after);
    }
  }

  /** A trimmed text behind one blank is found again. */
  lemma {:induction false} TrimSpaced(s: string)
    requires Trimmed(s)
    ensures Trim(" " + s) == s
  {
    assert (" " + s)[1..] == s;
    assert TrimStart(" " + s) == TrimStart(s) == s;
  }
}

/** JavaScript's built-in string order: UTF-16 code units compared left to right. */
module Utf16Order {

  /** Rank of a scalar value in code-unit order: astral characters start with a
      surrogate (0xD800..0xDBFF), so they sort below 0xE000..0xFFFF. */
  function UnitRank(c: char): int {
    var n := c as int;
    if 0xE000 <= n < 0x10000 then n + 0x110000 else n
  }

  predicate Less(a: string, b: string) {
    if b == "" then false
    else if a == "" then true
    else if a[0] == b[0] then Less(a[1..], b[1..])
    else UnitRank(a[0]) < UnitRank(b[0])
  }

  lemma {:induction false} LessTotal(a: string, b: string)
    ensures a != b ==> Less(a, b) != Less(b, a)
    ensures !Less(a, a)
  {
    if a != "" {
      LessTotal(a[1..], if b == "" then b else b[1..]);
      if b != "" && a[0] == b[0] {
        assert a == [a[0]] + a[1..] && b == [b[0]] + b[1..];
      }
    }
  }

  lemma {:induction false} LessTransitive(a: string, b: string, c: string)
    requires Less(a, b) && Less(b, c)
    ensures Less(a, c)
  {
    if a != "" && a[0] == b[0] && b[0] == c[0] {
      LessTransitive(a[1..], b[1..], c[1..]);
    }
  }
}

/** Stable insertion sort and the facts that make a sorted sequence canonical. */
module Sorting {

  function Insert<T>(x: T, s: seq<T>, less: (T, T) -> bool): (r: seq<T>)
    ensures |r| == |s| + 1
  {
    if s == [] || !less(s[0], x) then [x] + s
    else [s[0]] + Insert(x, s[1..], less)
  }

  function Sort<T>(s: seq<T>, less: (T, T) -> bool): (r: seq<T>)
    ensures |r| == |s|
  {
    if s == [] then [] else Insert(s[0], Sort(s[1..], less), less)
  }

  lemma {:induction false} InsertBag<T>(x: T, s: seq<T>, less: (T, T) -> bool)
    ensures multiset(Insert(x, s, less)) == multiset(s) + multiset{x}
  {
    if s != [] && less(s[0], x) {
      InsertBag(x, s[1..], less);
      assert s == [s[0]] + s[1..];
    }
  }

  /** Sorting permutes. */
  lemma {:induction false} SortBag<T>(s: seq<T>, less: (T, T) -> bool)
    ensures multiset(Sort(s, less)) == multiset(s)
  {
    if s != [] {
      SortBag(s[1..], less);
      InsertBag(s[0], Sort(s[1..], less), less);
      assert s == [s[0]] + s[1..];
    }
  }

  lemma {:induction false} SortMember<T>(s: seq<T>, less: (T, T) -> bool, x: T)
    ensures x in Sort(s, less) <==> x in s
  {
    SortBag(s, less);
    SameMembers(Sort(s, less), s, x);
  }

  function Map<T, U>(f: T -> U, s: seq<T>): (r: seq<U>)
    ensures |r| == |s|
    ensures forall i :: 0 <= i < |s| ==> r[i] == f(s[i])
  {
    seq(|s|, i requires 0 <= i < |s| => f(s[i]))
  }

  ghost predicate Ascending<T>(s: seq<T>, less: (T, T) -> bool) {
    forall i, j :: 0 <= i < j < |s| ==> less(s[i], s[j])
  }

  ghost predicate Transitive<T(!new)>(less: (T, T) -> bool) {
    forall x, y, z :: less(x, y) && less(y, z) ==> less(x, z)
  }

  ghost predicate Irreflexive<T(!new)>(less: (T, T) -> bool) {
    forall x :: !less(x, x)
  }

  /** Any two entries of s are comparable (so no two are equal under the order). */
  ghost predicate Comparable<T>(s: seq<T>, less: (T, T) -> bool) {
    forall i, j :: 0 <= i < j < |s| ==> less(s[i], s[j]) || less(s[j], s[i])
  }

  lemma {:induction false} SameMembers<T>(a: seq<T>, b: seq<T>, x: T)
    requires multiset(a) == multiset(b)
    ensures x in a <==> x in b
  {
    assert x in a <==> x in multiset(a);
    assert x in b <==> x in multiset(b);
  }

  /** Taking one occurrence of x out of two equal bags leaves equal bags. */
  lemma {:induction false} RemoveOne<T>(x: T, a: seq<T>, l: seq<T>, r: seq<T>)
    requires multiset([x] + a) == multiset(l + [x] + r)
    ensures multiset(a) == multiset(l + r)
  {
    assert multiset(a) == multiset([x] + a) - multiset{x};
    assert multiset(l + r) == multiset(l + [x] + r) - multiset{x};
  }

  lemma {:induction false} InsertAscending<T(!new)>(x: T, s: seq<T>, less: (T, T) -> bool)
    requires Transitive(less) && Ascending(s, less)
    requires forall y :: y in s ==> less(x, y) || less(y, x)
    ensures Ascending(Insert(x, s, less), less)
  {
    if s != [] && less(s[0], x) {
      InsertAscending(x, s[1..], less);
      var r := Insert(x, s[1..], less);
      InsertBag(x, s[1..], less);
      forall j | 0 <= j < |r| ensures less(s[0], r[j]) {
        assert r[j] in multiset(r);
        assert r[j] == x || r[j] in s[1..];
      }
    } else if s != [] {
      assert s[0] in s;
    }
  }

  lemma {:induction false} SortAscending<T(!new)>(s: seq<T>, less: (T, T) -> bool)
    requires Transitive(less) && Comparable(s, less)
    ensures Ascending(Sort(s, less), less)
  {
    if s != [] {
      SortAscending(s[1..], less);
      forall y | y in Sort(s[1..], less) ensures less(s[0], y) || less(y, s[0]) {
        SortMember(s[1..], less, y);
      }
      InsertAscending(s[0], Sort(s[1..], less), less);
    }
  }

  lemma {:induction false} HeadIsLeast<T(!new)>(a: seq<T>, b: seq<T>, less: (T, T) -> bool)
    requires Transitive(less) && Irreflexive(less)
    requires Ascending(a, less) && Ascending(b, less)
    requires a != [] && b != [] && b[0] in a && a[0] in b
    ensures a[0] == b[0]
  {
  }

  /** An ascending sequence is determined by the bag of its elements. */
  lemma {:induction false} AscendingUnique<T(!new)>(a: seq<T>, b: seq<T>, less: (T, T) -> bool)
    requires Transitive(less) && Irreflexive(less)
    requires Ascending(a, less) && Ascending(b, less)
    requires multiset(a) == multiset(b)
    ensures a == b
  {
    assert |a| == |multiset(a)| == |b|;
    if a != [] {
      SameMembers(a, b, a[0]);
      SameMembers(a, b, b[0]);
      HeadIsLeast(a, b, less);
      TailBags(a, b);
      AscendingUnique(a[1..], b[1..], less);
      assert a == [a[0]] + a[1..] == b;
    }
  }

  lemma {:induction false} TailBags<T>(a: seq<T>, b: seq<T>)
    requires a != [] && b != [] && a[0] == b[0] && multiset(a) == multiset(b)
    ensures multiset(a[1..]) == multiset(b[1..])
  {
    assert a == [a[0]] + a[1..] && b == [b[0]] + b[1..];
    assert multiset(a[1..]) == multiset(a) - multiset{a[0]};
    assert multiset(b[1..]) == multiset(b) - multiset{b[0]};
  }

  /** Sorting commutes with a map that keeps the order of the elements sorted. */
  lemma {:induction false} SortCommutes<T, U>(s: seq<T>, f: T -> U, less: (T, T) -> bool, lessU: (U, U) -> bool)
    requires forall x, y :: x in s && y in s ==> less(x, y) == lessU(f(x), f(y))
    ensures Sort(Map(f, s), lessU) == Map(f, Sort(s, less))
  {
    if s != [] {
      assert Map(f, s)[1..] == Map(f, s[1..]);
      SortCommutes(s[1..], f, less, lessU);
      var t := Sort(s[1..], less);
      forall y | y in t ensures y in s {
        SortMember(s[1..], less, y);
      }
      InsertCommutes(s[0], t, f, less, lessU);
    }
  }

  lemma {:induction false} InsertCommutes<T, U>(x: T, s: seq<T>, f: T -> U, less: (T, T) -> bool, lessU: (U, U) -> bool)
    requires forall y :: y in s ==> less(y, x) == lessU(f(y), f(x))
    ensures Insert(f(x), Map(f, s), lessU) == Map(f, Insert(x, s, less))
  {
    if s != [] {
      assert s[0] in s;
      if less(s[0], x) {
        assert Map(f, s)[1..] == Map(f, s[1..]);
        InsertCommutes(x, s[1..], f, less, lessU);
        assert Map(f, Insert(x, s, less)) == [f(s[0])] + Map(f, Insert(x, s[1..], less));
      } else {
        assert Map(f, [x] + s) == [f(x)] + Map(f, s);
      }
    } else {
      assert Map(f, [x]) == [f(x)] + Map(f, s);
    }
  }
}
