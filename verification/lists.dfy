/** Array operations of JavaScript used throughout the application, on
    sequences: `filter`, `map`, the two `slice` forms, `splice` insertion
    and removal, and `includes`. */
module Lists {

  datatype Option<T> = None | Some(value: T)

  /** A value, or the message of the Error a script throws. */
  datatype Result<T> = Ok(value: T) | Failure(error: string)

  function Filter<T>(s: seq<T>, p: T -> bool): (r: seq<T>)
    ensures |r| <= |s|
    ensures forall x :: x in r ==> x in s && p(x)
    ensures forall i :: 0 <= i < |s| && p(s[i]) ==> s[i] in r
  {
    if s == [] then []
    else
      var rest := Filter(s[1..], p);
      assert s == [s[0]] + s[1..];
      if p(s[0]) then [s[0]] + rest else rest
  }

  /** Filtering keeps a sub-multiset of the elements. */
  lemma {:induction false} FilterSubMultiset<T>(s: seq<T>, p: T -> bool)
    ensures multiset(Filter(s, p)) <= multiset(s)
  {
    if s != [] {
      FilterSubMultiset(s[1..], p);
      FilterHead(s, p);
      assert s == [s[0]] + s[1..];
    }
  }

  lemma {:induction false} FilterAll<T>(s: seq<T>, p: T -> bool)
    requires forall i :: 0 <= i < |s| ==> p(s[i])
    ensures Filter(s, p) == s
  {
    if s != [] {
      FilterAll(s[1..], p);
    }
  }

  /** An element of s that passes p is kept. */
  lemma FilterKeeps<T>(s: seq<T>, p: T -> bool, x: T)
    requires x in s && p(x)
    ensures x in Filter(s, p)
  {
    var i :| 0 <= i < |s| && s[i] == x;
  }

  lemma {:induction false} FilterAppend<T>(a: seq<T>, b: seq<T>, p: T -> bool)
    ensures Filter(a + b, p) == Filter(a, p) + Filter(b, p)
  {
    if a == [] {
      assert a + b == b;
    } else {
      FilterAppend(a[1..], b, p);
      FilterConsAppend(a, b, p);
    }
  }

  /** One step of FilterAppend: the head of a is kept or dropped in front
      of the rest. */
  lemma FilterConsAppend<T>(a: seq<T>, b: seq<T>, p: T -> bool)
    requires a != []
    requires Filter(a[1..] + b, p) == Filter(a[1..], p) + Filter(b, p)
    ensures Filter(a + b, p) == Filter(a, p) + Filter(b, p)
  {
    TailAppend(a, b);
    FilterHead(a + b, p);
    FilterHead(a, p);
    AppendAssoc(if p(a[0]) then [a[0]] else [], Filter(a[1..], p), Filter(b, p));
  }

  lemma TailAppend<T>(a: seq<T>, b: seq<T>)
    requires a != []
    ensures (a + b)[0] == a[0] && (a + b)[1..] == a[1..] + b
  {
  }

  lemma FilterHead<T>(s: seq<T>, p: T -> bool)
    requires s != []
    ensures Filter(s, p) == (if p(s[0]) then [s[0]] else []) + Filter(s[1..], p)
  {
  }

  lemma AppendAssoc<T>(a: seq<T>, b: seq<T>, c: seq<T>)
    ensures a + b + c == a + (b + c)
  {
  }

  lemma SnocInit<T>(s: seq<T>)
    requires s != []
    ensures s == s[..|s| - 1] + [s[|s| - 1]]
  {
  }

  function Map<T, U>(s: seq<T>, f: T -> U): (r: seq<U>)
    ensures |r| == |s|
    ensures forall i :: 0 <= i < |s| ==> r[i] == f(s[i])
  {
    seq(|s|, i requires 0 <= i < |s| => f(s[i]))
  }

  /** `s.slice(-n)` for n > 0: the last n elements, or all of them. */
  function TakeLast<T>(s: seq<T>, n: nat): (r: seq<T>)
    ensures |r| == if |s| < n then |s| else n
    ensures r == s[|s| - |r|..]
  {
    if |s| <= n then s else s[|s| - n..]
  }

  /** `s.slice(0, n)` for n >= 0: the first n elements, or all of them. */
  function Take<T>(s: seq<T>, n: nat): (r: seq<T>)
    ensures |r| == if |s| < n then |s| else n
    ensures r == s[..|r|]
  {
    if |s| <= n then s else s[..n]
  }

  /** `s.splice(i, 0, x)`: x inserted in front of position i. */
  function Insert<T>(s: seq<T>, i: nat, x: T): (r: seq<T>)
    requires i <= |s|
    ensures |r| == |s| + 1 && r[i] == x
    ensures r[..i] == s[..i] && r[i + 1..] == s[i..]
    ensures multiset(r) == multiset(s) + multiset{x}
  {
    assert s == s[..i] + s[i..];
    s[..i] + [x] + s[i..]
  }

  /** `s.splice(i, 1)`: the element at position i removed. */
  function Remove<T>(s: seq<T>, i: nat): (r: seq<T>)
    requires i < |s|
    ensures |r| == |s| - 1
    ensures r[..i] == s[..i] && r[i..] == s[i + 1..]
    ensures multiset(r) == multiset(s) - multiset{s[i]}
  {
    assert s == s[..i] + [s[i]] + s[i + 1..];
    s[..i] + s[i + 1..]
  }

  lemma RemoveInsert<T>(s: seq<T>, i: nat, x: T)
    requires i <= |s|
    ensures Remove(Insert(s, i, x), i) == s
  {
    var r := Insert(s, i, x);
    assert Remove(r, i) == r[..i] + r[i + 1..];
    assert s == s[..i] + s[i..];
  }

  lemma InsertRemove<T>(s: seq<T>, i: nat)
    requires i < |s|
    ensures Insert(Remove(s, i), i, s[i]) == s
  {
    var r := Remove(s, i);
    assert r[..i] == s[..i] && r[i..] == s[i + 1..];
    assert s == s[..i] + [s[i]] + s[i + 1..];
  }

  /** Exchange of the elements at positions i and j. */
  function Swap<T>(s: seq<T>, i: nat, j: nat): (r: seq<T>)
    requires i < |s| && j < |s|
    ensures |r| == |s| && r[i] == s[j] && r[j] == s[i]
    ensures forall k :: 0 <= k < |s| && k != i && k != j ==> r[k] == s[k]
  {
    s[i := s[j]][j := s[i]]
  }

  /** A swap permutes the sequence. */
  lemma SwapPermutes<T>(s: seq<T>, i: nat, j: nat)
    requires i < |s| && j < |s|
    ensures multiset(Swap(s, i, j)) == multiset(s)
  {
  }

  /** Mapping commutes with removal. */
  lemma MapRemove<T, U>(s: seq<T>, i: nat, f: T -> U)
    requires i < |s|
    ensures Map(Remove(s, i), f) == Remove(Map(s, f), i)
  {
    var a := Map(Remove(s, i), f);
    var b := Remove(Map(s, f), i);
    forall k | 0 <= k < |a| ensures a[k] == b[k] {
      if k < i {
        assert Remove(s, i)[k] == s[k];
      } else {
        assert Remove(s, i)[k] == s[k + 1];
      }
    }
  }

  /** Mapping commutes with a swap. */
  lemma MapSwap<T, U>(s: seq<T>, i: nat, j: nat, f: T -> U)
    requires i < |s| && j < |s|
    ensures Map(Swap(s, i, j), f) == Swap(Map(s, f), i, j)
  {
  }

  /** No element occurs twice. */
  predicate Distinct<T(==)>(s: seq<T>) {
    forall i, j :: 0 <= i < j < |s| ==> s[i] != s[j]
  }

  /** `s.findIndex((y) => y == x)`, or -1. */
  function IndexOf<T(==)>(s: seq<T>, x: T): (r: int)
    ensures -1 <= r < |s|
    ensures r == -1 <==> x !in s
    ensures 0 <= r ==> s[r] == x && x !in s[..r]
  {
    if s == [] then -1
    else if s[0] == x then 0
    else
      var k := IndexOf(s[1..], x);
      assert s[1..][..if k < 0 then 0 else k] == s[1..1 + (if k < 0 then 0 else k)];
      if k < 0 then -1 else k + 1
  }

  lemma IndexOfDistinct<T>(s: seq<T>, i: nat)
    requires Distinct(s) && i < |s|
    ensures IndexOf(s, s[i]) == i
  {
  }

  /** `s.map((x, index) => { if (!ok(x)) throw new Error(err(index, x)); return f(index, x); })`
      from position i on. */
  function MapOrThrow<A, B>(s: seq<A>, i: nat, ok: A -> bool, f: (nat, A) -> B,
                            err: (nat, A) -> string): Result<seq<B>>
    requires i <= |s|
    decreases |s| - i
  {
    if i == |s| then Ok([])
    else if !ok(s[i]) then Failure(err(i, s[i]))
    else
      match MapOrThrow(s, i + 1, ok, f, err)
      case Ok(rest) => Ok([f(i, s[i])] + rest)
      case Failure(e) => Failure(e)
  }

  /** The mapping succeeds exactly when every element from i on passes. */
  lemma {:induction false} MapOrThrowOk<A, B>(s: seq<A>, i: nat, ok: A -> bool, f: (nat, A) -> B,
                                              err: (nat, A) -> string)
    requires i <= |s|
    ensures MapOrThrow(s, i, ok, f, err).Ok? <==> forall k :: i <= k < |s| ==> ok(s[k])
    decreases |s| - i
  {
    if i < |s| && ok(s[i]) {
      MapOrThrowOk(s, i + 1, ok, f, err);
    }
  }

  /** A successful mapping holds f of each element, at its position. */
  lemma {:induction false} MapOrThrowValues<A, B>(s: seq<A>, i: nat, ok: A -> bool, f: (nat, A) -> B,
                                                  err: (nat, A) -> string)
    requires i <= |s| && MapOrThrow(s, i, ok, f, err).Ok?
    ensures var r := MapOrThrow(s, i, ok, f, err).value;
            |r| == |s| - i && forall k :: i <= k < |s| ==> r[k - i] == f(k, s[k])
    decreases |s| - i
  {
    if i < |s| {
      MapOrThrowValues(s, i + 1, ok, f, err);
    }
  }

  /** A failed mapping carries the message of the first element that fails. */
  lemma {:induction false} MapOrThrowFailure<A, B>(s: seq<A>, i: nat, ok: A -> bool, f: (nat, A) -> B,
                                                   err: (nat, A) -> string)
    requires i <= |s| && MapOrThrow(s, i, ok, f, err).Failure?
    ensures exists k :: i <= k < |s| && !ok(s[k]) && (forall j :: i <= j < k ==> ok(s[j]))
                        && MapOrThrow(s, i, ok, f, err).error == err(k, s[k])
    decreases |s| - i
  {
    if ok(s[i]) {
      MapOrThrowFailure(s, i + 1, ok, f, err);
      var k :| i + 1 <= k < |s| && !ok(s[k]) && (forall j :: i + 1 <= j < k ==> ok(s[j]))
               && MapOrThrow(s, i + 1, ok, f, err).error == err(k, s[k]);
      assert forall j :: i <= j < k ==> ok(s[j]);
    }
  }
}
