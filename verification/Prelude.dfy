/** Option, Result and the small sequence vocabulary shared by every module. */
module Prelude {

  datatype Option<+T> = None | Some(value: T)

  datatype Result<+T, +E> = Ok(value: T) | Err(error: E)

  /** The elements of `s` that satisfy `p`, in their original order. */
  function Filter<T>(s: seq<T>, p: T -> bool): (r: seq<T>)
    ensures forall x | x in r :: x in s && p(x)
    ensures forall x | x in s && p(x) :: x in r
  {
    if s == [] then []
    else (if p(s[0]) then [s[0]] else []) + Filter(s[1..], p)
  }

  /** The first index whose element satisfies `p`, or the length. */
  function IndexWhere<T>(s: seq<T>, p: T -> bool): (i: nat)
    ensures i <= |s| && (i < |s| ==> p(s[i]))
    ensures forall j | 0 <= j < i :: !p(s[j])
  {
    if s == [] || p(s[0]) then 0 else 1 + IndexWhere(s[1..], p)
  }

  /** The position of the first `sep`, or the length of the text. */
  function IndexOf(text: string, sep: char): (i: nat)
    ensures i <= |text| && (i < |text| ==> text[i] == sep)
    ensures forall j | 0 <= j < i :: text[j] != sep
  {
    IndexWhere(text, (c: char) => c == sep)
  }

  function Map<T, U>(s: seq<T>, f: T -> U): (r: seq<U>) {
    seq(|s|, i requires 0 <= i < |s| => f(s[i]))
  }

  function Flatten<T>(ss: seq<seq<T>>): (r: seq<T>) {
    if ss == [] then [] else ss[0] + Flatten(ss[1..])
  }

  lemma Associative<T>(a: seq<T>, b: seq<T>, c: seq<T>)
    ensures (a + b) + c == a + (b + c)
  {
  }

  lemma NothingAdded<T>(a: seq<T>)
    ensures a + [] == a && [] + a == a
  {
  }

  lemma ThreeMore<T>(s: seq<T>, a: T, b: T, c: T)
    ensures s + [a, b, c] == s + [a] + [b] + [c]
  {
  }

  /** Where dropping the `d`-th element leaves the `i`-th. */
  lemma Dropped<T>(s: seq<T>, d: nat, i: nat)
    requires d < |s| && i < |s| && d != i
    ensures var j := if d < i then i - 1 else i; j < |s| - 1 && (s[..d] + s[d + 1..])[j] == s[i]
  {
  }

  lemma {:induction false} FilterAppend<T>(a: seq<T>, b: seq<T>, p: T -> bool)
    ensures Filter(a + b, p) == Filter(a, p) + Filter(b, p)
  {
    if a == [] {
      assert a + b == b;
    } else {
      FilterAppend(a[1..], b, p);
      FilterFirst(a, p);
      FilterFirst(a + b, p);
      assert (a + b)[0] == a[0] && (a + b)[1..] == a[1..] + b;
      hide Filter;
      Associative(if p(a[0]) then [a[0]] else [], Filter(a[1..], p), Filter(b, p));
    }
  }

  lemma FilterFirst<T>(s: seq<T>, p: T -> bool)
    requires s != []
    ensures Filter(s, p) == (if p(s[0]) then [s[0]] else []) + Filter(s[1..], p)
  {
  }

  lemma IndexFirst<T>(s: seq<T>, p: T -> bool)
    requires s != []
    ensures IndexWhere(s, p) == if p(s[0]) then 0 else 1 + IndexWhere(s[1..], p)
  {
  }

  /** The first of the filtered elements that satisfies `q` is the first element that satisfies
      both. */
  lemma {:induction false} FirstFiltered<T>(s: seq<T>, p: T -> bool, q: T -> bool) returns (m: nat)
    requires IndexWhere(Filter(s, p), q) < |Filter(s, p)|
    ensures m < |s| && s[m] == Filter(s, p)[IndexWhere(Filter(s, p), q)] && p(s[m]) && q(s[m])
    ensures forall j | 0 <= j < m :: !(p(s[j]) && q(s[j]))
    decreases |s|
  {
    assert s != [];
    var all, rest := Filter(s, p), Filter(s[1..], p);
    FilterFirst(s, p);
    hide Filter;
    m := 0;
    if p(s[0]) {
      assert all[1..] == rest && all[0] == s[0];
      IndexFirst(all, q);
    } else {
      NothingAdded(rest);
    }
    if !(p(s[0]) && q(s[0])) {
      m := FirstFiltered(s[1..], p, q);
      m := m + 1;
      forall j | 0 <= j < m
        ensures !(p(s[j]) && q(s[j]))
      {
        assert j > 0 ==> s[j] == s[1..][j - 1];
      }
    }
  }

  lemma FilterSnoc<T>(s: seq<T>, n: nat, p: T -> bool)
    requires n < |s|
    ensures Filter(s[..n + 1], p) == Filter(s[..n], p) + if p(s[n]) then [s[n]] else []
  {
    FilterOne(s[n], p);
    hide Filter;
    FilterAppend(s[..n], [s[n]], p);
    assert s[..n + 1] == s[..n] + [s[n]];
  }

  lemma FilterOne<T>(x: T, p: T -> bool)
    ensures Filter([x], p) == if p(x) then [x] else []
  {
    assert [x][1..] == [];
  }

  lemma {:induction false} FlattenAppend<T>(a: seq<seq<T>>, b: seq<seq<T>>)
    ensures Flatten(a + b) == Flatten(a) + Flatten(b)
  {
    if a == [] {
      assert a + b == b;
    } else {
      assert (a + b)[0] == a[0] && (a + b)[1..] == a[1..] + b;
      FlattenAppend(a[1..], b);
    }
  }

  lemma FlattenNone<T>()
    ensures Flatten<T>([]) == []
  {
  }

  lemma FlattenSnoc<T>(ss: seq<seq<T>>, s: seq<T>)
    ensures Flatten(ss + [s]) == Flatten(ss) + s
  {
    FlattenAppend(ss, [s]);
    assert [s][1..] == [];
    NothingAdded(s);
  }

  lemma {:induction false} FlattenSingle<T>(s: seq<T>)
    ensures Flatten(Map(s, (x: T) => [x])) == s
  {
    if s != [] {
      var ss := Map(s, (x: T) => [x]);
      assert ss[1..] == Map(s[1..], (x: T) => [x]);
      FlattenSingle(s[1..]);
    }
  }

  lemma MapAppend<T, U>(a: seq<T>, b: seq<T>, f: T -> U)
    ensures Map(a + b, f) == Map(a, f) + Map(b, f)
  {
  }

  lemma FilterCons<T>(x: T, s: seq<T>, p: T -> bool)
    ensures Filter([x] + s, p) == (if p(x) then [x] else []) + Filter(s, p)
  {
    assert ([x] + s)[1..] == s;
  }

  lemma {:induction false} FilterMap<T, U>(s: seq<T>, f: T -> U, p: T -> bool, q: U -> bool)
    requires forall x | x in s :: q(f(x)) == p(x)
    ensures Filter(Map(s, f), q) == Map(Filter(s, p), f)
  {
    if s != [] {
      var x, t := s[0], s[1..];
      assert s == [x] + t && x in s;
      FilterMap(t, f, p, q);
      FilterCons(x, t, p);
      FilterCons(f(x), Map(t, f), q);
      MapAppend([x], t, f);
      MapAppend(if p(x) then [x] else [], Filter(t, p), f);
      assert Map([x], f) == [f(x)];
      hide Map, Filter;
    }
  }

  /** How often an element occurs. */
  function Count<T(==)>(s: seq<T>, x: T): nat {
    if s == [] then 0 else (if s[0] == x then 1 else 0) + Count(s[1..], x)
  }

  lemma {:induction false} CountAppend<T>(a: seq<T>, b: seq<T>, x: T)
    ensures Count(a + b, x) == Count(a, x) + Count(b, x)
  {
    if a == [] {
      assert a + b == b;
    } else {
      assert (a + b)[0] == a[0] && (a + b)[1..] == a[1..] + b;
      CountAppend(a[1..], b, x);
    }
  }

  lemma {:induction false} CountFilter<T>(s: seq<T>, p: T -> bool, x: T)
    ensures Count(Filter(s, p), x) == if p(x) then Count(s, x) else 0
  {
    if s != [] {
      CountFilter(s[1..], p, x);
      CountAppend(if p(s[0]) then [s[0]] else [], Filter(s[1..], p), x);
    }
  }

  lemma {:induction false} FilterTwice<T>(s: seq<T>, p: T -> bool, q: T -> bool, both: T -> bool)
    requires forall x | x in s :: both(x) == (p(x) && q(x))
    ensures Filter(Filter(s, p), q) == Filter(s, both)
  {
    if s != [] {
      assert s[0] in s;
      FilterTwice(s[1..], p, q, both);
      FilterAppend(if p(s[0]) then [s[0]] else [], Filter(s[1..], p), q);
      assert p(s[0]) ==> Filter([s[0]], q) == if q(s[0]) then [s[0]] else [];
    }
  }

  lemma {:induction false} FilterAll<T>(s: seq<T>, p: T -> bool)
    ensures (forall x | x in s :: p(x)) ==> Filter(s, p) == s
    ensures (forall x | x in s :: !p(x)) ==> Filter(s, p) == []
  {
    if s != [] {
      assert s[0] in s && forall x | x in s[1..] :: x in s;
      FilterAll(s[1..], p);
    }
  }

  lemma FlattenMapSnoc<T, U>(s: seq<T>, i: nat, f: T -> seq<U>)
    requires i < |s|
    ensures Flatten(Map(s[..i + 1], f)) == Flatten(Map(s[..i], f)) + f(s[i])
  {
    assert Map(s[..i + 1], f) == Map(s[..i], f) + [f(s[i])];
    FlattenAppend(Map(s[..i], f), [f(s[i])]);
    assert Flatten([f(s[i])]) == f(s[i]) + Flatten<U>([]);
  }

  /** The weights of the elements that satisfy `p`, added up. */
  function SumWhere<T>(s: seq<T>, weight: T -> nat, p: T -> bool): nat {
    if s == [] then 0
    else
      var last := s[|s| - 1];
      SumWhere(s[..|s| - 1], weight, p) + if p(last) then weight(last) else 0
  }

  lemma {:induction false} SumWhereSplit<T>(s: seq<T>, weight: T -> nat, p: T -> bool, q: T -> bool, either: T -> bool)
    requires forall x | x in s :: either(x) == (p(x) || q(x)) && !(p(x) && q(x))
    ensures SumWhere(s, weight, either) == SumWhere(s, weight, p) + SumWhere(s, weight, q)
    decreases |s|
  {
    if s != [] {
      assert s[|s| - 1] in s;
      SumWhereSplit(s[..|s| - 1], weight, p, q, either);
    }
  }

  lemma SumWhereLast<T>(s: seq<T>, weight: T -> nat, p: T -> bool)
    requires s != []
    ensures SumWhere(s, weight, p)
            == SumWhere(s[..|s| - 1], weight, p) + if p(s[|s| - 1]) then weight(s[|s| - 1]) else 0
  {
  }

  lemma {:induction false} SumWhereEqual<T>(s: seq<T>, f: T -> nat, g: T -> nat, p: T -> bool)
    requires forall x | x in s :: f(x) == g(x)
    ensures SumWhere(s, f, p) == SumWhere(s, g, p)
    decreases |s|
  {
    if s != [] {
      assert s[|s| - 1] in s;
      SumWhereEqual(s[..|s| - 1], f, g, p);
    }
  }

  lemma {:induction false} SumOfNothing<T>(s: seq<T>, weight: T -> nat, p: T -> bool)
    requires forall x | x in s :: weight(x) == 0
    ensures SumWhere(s, weight, p) == 0
    decreases |s|
  {
    if s != [] {
      assert s[|s| - 1] in s;
      SumOfNothing(s[..|s| - 1], weight, p);
    }
  }

  predicate IsSpace(c: char) {
    var n := c as int;
    || 9 <= n <= 13 || 28 <= n <= 32 || n == 0x85 || n == 0xA0 || n == 0x1680 || 0x2000 <= n <= 0x200A
    || n == 0x2028 || n == 0x2029 || n == 0x202F || n == 0x205F || n == 0x3000
  }

  /** `str.strip()`. */
  function Strip(text: string): string {
    if text == [] then text
    else if IsSpace(text[0]) then Strip(text[1..])
    else if IsSpace(text[|text| - 1]) then Strip(text[..|text| - 1])
    else text
  }

  predicate Blank(text: string) {
    forall c | c in text :: IsSpace(c)
  }

  lemma BlankEnds(text: string)
    requires text != []
    ensures var n := |text| - 1;
            && (Blank(text) <==> IsSpace(text[0]) && Blank(text[1..]))
            && (Blank(text) <==> IsSpace(text[n]) && Blank(text[..n]))
            && text == [text[0]] + text[1..] && text == text[..n] + [text[n]]
  {
    hide IsSpace;
    var n := |text| - 1;
    assert text == [text[0]] + text[1..] && text == text[..n] + [text[n]];
  }

  lemma BlankGrows(text: string, c: char)
    requires Blank(text) && IsSpace(c)
    ensures Blank([c] + text) && Blank(text + [c])
  {
    hide IsSpace;
  }

  lemma StripUnfolds(text: string)
    requires text != []
    ensures var n := |text| - 1;
            Strip(text) == if IsSpace(text[0]) then Strip(text[1..])
                           else if IsSpace(text[n]) then Strip(text[..n])
                           else text
  {
  }

  lemma NothingBlank()
    ensures Blank("")
  {
  }

  /** Stripping takes the white space around a text and nothing else. */
  lemma {:induction false} StripIs(text: string) returns (head: string, tail: string)
    ensures text == head + Strip(text) + tail && Blank(head) && Blank(tail)
    ensures Strip(text) == "" <==> Blank(text)
    ensures Strip(text) != "" ==> !IsSpace(Strip(text)[0]) && !IsSpace(Strip(text)[|Strip(text)| - 1])
    decreases |text|
  {
    head, tail := "", "";
    if text != [] {
      hide IsSpace, Blank, Strip;
      BlankEnds(text);
      StripUnfolds(text);
      var n, more := |text| - 1, "";
      if IsSpace(text[0]) {
        more, tail := StripIs(text[1..]);
        head := [text[0]] + more;
        BlankGrows(more, text[0]);
        Associative([text[0]], more, Strip(text));
        Associative([text[0]], more + Strip(text), tail);
      } else if IsSpace(text[n]) {
        head, more := StripIs(text[..n]);
        tail := more + [text[n]];
        BlankGrows(more, text[n]);
        Associative(head + Strip(text), more, [text[n]]);
      } else {
        NothingAdded(text);
        NothingBlank();
      }
    } else {
      NothingAdded(text);
    }
  }

  /** Text that neither starts nor ends with white space is what stripping leaves of it. */
  lemma {:induction false} StripOf(head: string, core: string, tail: string)
    requires Blank(head) && Blank(tail) && core != "" && !IsSpace(core[0]) && !IsSpace(core[|core| - 1])
    ensures Strip(head + core + tail) == core
    decreases |head| + |tail|
  {
    hide IsSpace, Strip;
    var text := head + core + tail;
    StripUnfolds(text);
    if head != [] {
      BlankEnds(head);
      assert text[0] == head[0] && text[1..] == head[1..] + core + tail;
      StripOf(head[1..], core, tail);
    } else if tail != [] {
      BlankEnds(tail);
      var n := |tail| - 1;
      assert text[0] == core[0] && text[|text| - 1] == tail[n] && text[..|text| - 1] == head + core + tail[..n];
      StripOf(head, core, tail[..n]);
    } else {
      assert text == core;
    }
  }
}
