/** Types and small sequence facts shared by every module. */
module Base {
  datatype Option<+T> = None | Some(value: T)

  const U64_BOUND: nat := 0x1_0000_0000_0000_0000
  const U32_BOUND: nat := 0x1_0000_0000
  const U64_MAX: nat := U64_BOUND - 1

  type U64 = n: nat | n < U64_BOUND
  type U32 = n: nat | n < U32_BOUND
  type Byte = n: nat | n < 256

  function Min(a: nat, b: nat): nat { if a <= b then a else b }

  function Max(a: nat, b: nat): nat { if a <= b then b else a }

  /** `u64::saturating_add`. */
  function SatAdd(a: nat, b: nat): U64 { Min(a + b, U64_MAX) }

  /** `u64::saturating_sub`. */
  function SatSub(a: nat, b: nat): nat { if a <= b then 0 else a - b }

  /** Release-build addition on `u64`: wraps. */
  function WrapAdd(a: nat, b: nat): U64 { (a + b) % U64_BOUND }

  function Filter<T>(p: T -> bool, s: seq<T>): (r: seq<T>)
    ensures forall x :: x in r ==> x in s && p(x)
    ensures forall x :: x in s && p(x) ==> x in r
    ensures |r| <= |s|
  {
    if s == [] then [] else (if p(s[0]) then [s[0]] else []) + Filter(p, s[1..])
  }

  lemma FilterCons<T>(p: T -> bool, x: T, s: seq<T>)
    ensures Filter(p, [x] + s) == if p(x) then [x] + Filter(p, s) else Filter(p, s)
  {
    assert ([x] + s)[1..] == s;
  }

  lemma {:induction false} FilterAppend<T>(p: T -> bool, s: seq<T>, t: seq<T>)
    ensures Filter(p, s + t) == Filter(p, s) + Filter(p, t)
  {
    if s == [] {
      assert s + t == t;
    } else {
      assert (s + t)[1..] == s[1..] + t;
      FilterAppend(p, s[1..], t);
    }
  }

  lemma {:induction false} FilterAll<T>(p: T -> bool, s: seq<T>)
    requires forall x :: x in s ==> p(x)
    ensures Filter(p, s) == s
  {
    if s != [] {
      FilterAll(p, s[1..]);
    }
  }

  lemma {:induction false} FilterNone<T>(p: T -> bool, s: seq<T>)
    requires forall x :: x in s ==> !p(x)
    ensures Filter(p, s) == []
  {
    if s != [] {
      FilterNone(p, s[1..]);
    }
  }

  lemma {:induction false} FilterChain<T>(p: T -> bool, q: T -> bool, r: T -> bool, all: T -> bool, s: seq<T>)
    requires forall x :: all(x) <==> p(x) && q(x) && r(x)
    ensures Filter(r, Filter(q, Filter(p, s))) == Filter(all, s)
  {
    if s != [] {
      var x, rest := s[0], s[1..];
      FilterChain(p, q, r, all, rest);
      Uncons(s);
      FilterCons(p, x, rest);
      FilterCons(all, x, rest);
      FilterCons(q, x, Filter(p, rest));
      FilterCons(r, x, Filter(q, Filter(p, rest)));
      hide Filter;
    }
  }

  function Take<T>(s: seq<T>, n: nat): seq<T> { if n <= |s| then s[..n] else s }

  lemma Assoc<T>(a: seq<T>, b: seq<T>, c: seq<T>)
    ensures a + b + c == a + (b + c)
  {
  }

  lemma Uncons<T>(s: seq<T>)
    requires s != []
    ensures s == [s[0]] + s[1..]
  {
  }

  ghost predicate Distinct<T>(s: seq<T>) {
    forall i, j :: 0 <= i < j < |s| ==> s[i] != s[j]
  }

  lemma {:induction false} FilterDistinct<T>(p: T -> bool, s: seq<T>)
    requires Distinct(s)
    ensures Distinct(Filter(p, s))
  {
    if s != [] {
      assert forall i, j :: 0 <= i < j < |s| - 1 ==> s[1..][i] == s[i + 1] && s[1..][j] == s[j + 1];
      FilterDistinct(p, s[1..]);
      assert s[0] !in s[1..];
    }
  }
}
