/** Values and sequence operations shared by every part of the helpdesk model:
    optional values, HTTP-style responses, and the counting, filtering, grouping,
    lookup and ordering that the ORM queries of the application perform. */
module Common {

  datatype Option<T> = None | Some(value: T)

  /** What a request handler sends back: `res.status(code).json(body)` on success,
      `res.status(code).json({ message })` on a refusal. */
  datatype Response<T> = Success(code: int, body: T) | Failure(code: int, message: string)

  function NotFound<T>(message: string): Response<T> { Failure(404, message) }
  function Forbidden<T>(message: string): Response<T> { Failure(403, message) }
  function BadRequest<T>(message: string): Response<T> { Failure(400, message) }

  /** Number of elements of `s` that satisfy `p` (a `COUNT(*) ... WHERE p`). */
  function CountWhere<T>(s: seq<T>, p: T -> bool): (n: nat)
    ensures n <= |s|
    ensures n == 0 <==> forall i :: 0 <= i < |s| ==> !p(s[i])
    ensures n == |s| <==> forall i :: 0 <= i < |s| ==> p(s[i])
  {
    if s == [] then 0 else (if p(s[0]) then 1 else 0) + CountWhere(s[1..], p)
  }

  lemma {:induction false} CountWhereAppend<T>(s: seq<T>, t: seq<T>, p: T -> bool)
    ensures CountWhere(s + t, p) == CountWhere(s, p) + CountWhere(t, p)
  {
    if s == [] {
      assert s + t == t;
    } else {
      assert (s + t)[1..] == s[1..] + t;
      CountWhereAppend(s[1..], t, p);
    }
  }

  /** The count over `s` is the count before position `k`, at `k`, and after it. */
  lemma CountWhereSplit<T>(s: seq<T>, k: nat, p: T -> bool)
    requires k < |s|
    ensures CountWhere(s, p) == CountWhere(s[..k], p) + (if p(s[k]) then 1 else 0) + CountWhere(s[k + 1..], p)
  {
    var before, at, after := s[..k], [s[k]], s[k + 1..];
    assert s == before + (at + after);
    CountWhereAppend(before, at + after, p);
    CountWhereAppend(at, after, p);
    assert at[1..] == [];
    assert CountWhere(at, p) == if p(s[k]) then 1 else 0;
  }

  /** When every element that satisfies `p` satisfies `q`, fewer satisfy `p`. */
  lemma {:induction false} CountWhereMono<T>(s: seq<T>, p: T -> bool, q: T -> bool)
    requires forall i :: 0 <= i < |s| ==> p(s[i]) ==> q(s[i])
    ensures CountWhere(s, p) <= CountWhere(s, q)
  {
    if s != [] {
      CountWhereMono(s[1..], p, q);
    }
  }

  /** Two sequences whose elements agree, position by position, on `p` have
      the same count. */
  lemma {:induction false} CountWherePointwise<T>(s: seq<T>, t: seq<T>, p: T -> bool)
    requires |s| == |t|
    requires forall i :: 0 <= i < |s| ==> p(s[i]) == p(t[i])
    ensures CountWhere(s, p) == CountWhere(t, p)
  {
    if s != [] {
      CountWherePointwise(s[1..], t[1..], p);
    }
  }

  /** When every element that satisfies `p` satisfies `q` or `r`, at most
      as many satisfy `p` as satisfy `q` and `r` together. */
  lemma {:induction false} CountWhereCovered<T>(s: seq<T>, p: T -> bool, q: T -> bool, r: T -> bool)
    requires forall i :: 0 <= i < |s| ==> p(s[i]) ==> q(s[i]) || r(s[i])
    ensures CountWhere(s, p) <= CountWhere(s, q) + CountWhere(s, r)
  {
    if s != [] {
      CountWhereCovered(s[1..], p, q, r);
    }
  }

  /** When no element satisfies both `q` and `r`, the two counts add up to at most |s|. */
  lemma {:induction false} CountWhereDisjoint<T>(s: seq<T>, q: T -> bool, r: T -> bool)
    requires forall i :: 0 <= i < |s| ==> !(q(s[i]) && r(s[i]))
    ensures CountWhere(s, q) + CountWhere(s, r) <= |s|
  {
    if s != [] {
      CountWhereDisjoint(s[1..], q, r);
    }
  }

  /** The elements of `s` that satisfy `p`, in their order in `s` (a `findAll({ where })`). */
  function Filter<T(!new)>(s: seq<T>, p: T -> bool): (r: seq<T>)
    ensures |r| == CountWhere(s, p)
    ensures forall x :: x in r ==> p(x) && x in s
    ensures forall x :: multiset(r)[x] == if p(x) then multiset(s)[x] else 0
  {
    if s == [] then []
    else
      var rest := Filter(s[1..], p);
      assert s == [s[0]] + s[1..];
      if p(s[0]) then [s[0]] + rest else rest
  }

  /** The position of the row whose key is `id` (a `findByPk`). */
  function FindByKey<T>(rows: seq<T>, key: T -> int, id: int): (r: Option<nat>)
    ensures r.Some? ==> r.value < |rows| && key(rows[r.value]) == id
    ensures r.Some? ==> forall i :: 0 <= i < r.value ==> key(rows[i]) != id
    ensures r.None? <==> forall i :: 0 <= i < |rows| ==> key(rows[i]) != id
  {
    if rows == [] then None
    else if key(rows[0]) == id then Some(0)
    else
      match FindByKey(rows[1..], key, id)
      case None => None
      case Some(k) => Some(k + 1)
  }

  /** `s` without its element at `k` (a `destroy` of one row): the other
      elements, in their order. */
  function RemoveAt<T>(s: seq<T>, k: nat): (r: seq<T>)
    requires k < |s|
    ensures |r| == |s| - 1
    ensures multiset(r) + multiset{s[k]} == multiset(s)
    ensures forall j :: 0 <= j < k ==> r[j] == s[j]
    ensures forall j :: k < j < |s| ==> r[j - 1] == s[j]
  {
    assert s == s[..k] + [s[k]] + s[k + 1..];
    s[..k] + s[k + 1..]
  }

  /** No two rows share a key. */
  ghost predicate UniqueKeys<T>(rows: seq<T>, key: T -> int)
  {
    forall i, j :: 0 <= i < j < |rows| ==> key(rows[i]) != key(rows[j])
  }

  /** Replacing a row by one with the same key keeps keys unique. */
  lemma UniqueKeysUpdate<T>(rows: seq<T>, key: T -> int, k: nat, x: T)
    requires UniqueKeys(rows, key) && k < |rows| && key(x) == key(rows[k])
    ensures UniqueKeys(rows[k := x], key)
    ensures forall i :: 0 <= i < |rows| ==> key(rows[k := x][i]) == key(rows[i])
  {
  }

  /** Occurrence counts of each value of `ks` (a `GROUP BY` with `COUNT`, folded into an
      object by `reduce`): exactly the values that occur are keys. */
  function Tally<K(!new)>(ks: seq<K>): (m: map<K, nat>)
    ensures forall k :: k in m <==> k in ks
    ensures forall k :: k in m ==> m[k] == multiset(ks)[k]
  {
    if ks == [] then map[]
    else
      var init, k := ks[..|ks| - 1], ks[|ks| - 1];
      assert ks == init + [k];
      var m := Tally(init);
      m[k := (if k in m then m[k] else 0) + 1]
  }

  /** The count a tally holds for `k`, 0 when `k` is not a key. */
  function TallyOf<K>(m: map<K, nat>, k: K): nat
  {
    if k in m then m[k] else 0
  }

  /** `before` puts any two values one way round or the other. */
  ghost predicate Total<T(!new)>(before: (T, T) -> bool)
  {
    forall a, b :: before(a, b) || before(b, a)
  }

  /** Neighbouring elements of `s` are in `before` order. */
  predicate SortedBy<T>(s: seq<T>, before: (T, T) -> bool)
  {
    forall i :: 0 < i < |s| ==> before(s[i - 1], s[i])
  }

  function Insert<T>(x: T, s: seq<T>, before: (T, T) -> bool): (r: seq<T>)
    ensures |r| == |s| + 1
    ensures multiset(r) == multiset(s) + multiset{x}
    ensures r[0] == x || (s != [] && r[0] == s[0])
  {
    if s == [] || before(x, s[0]) then [x] + s
    else
      assert s == [s[0]] + s[1..];
      [s[0]] + Insert(x, s[1..], before)
  }

  lemma {:induction false} InsertSorted<T(!new)>(x: T, s: seq<T>, before: (T, T) -> bool)
    requires Total(before) && SortedBy(s, before)
    ensures SortedBy(Insert(x, s, before), before)
  {
    if s != [] && !before(x, s[0]) {
      var rest := Insert(x, s[1..], before);
      assert SortedBy(s[1..], before) by {
        forall i | 0 < i < |s[1..]| ensures before(s[1..][i - 1], s[1..][i]) {
          assert s[1..][i - 1] == s[i] && s[1..][i] == s[i + 1];
        }
      }
      InsertSorted(x, s[1..], before);
      assert before(s[0], rest[0]) by {
        assert before(x, s[0]) || before(s[0], x);
      }
      var r := [s[0]] + rest;
      assert r == Insert(x, s, before);
      forall i | 0 < i < |r| ensures before(r[i - 1], r[i]) {
        if i > 1 {
          assert r[i - 1] == rest[i - 2] && r[i] == rest[i - 1];
        }
      }
    }
  }

  /** The elements of `s` rearranged into `before` order (an `ORDER BY`). */
  function SortBy<T>(s: seq<T>, before: (T, T) -> bool): (r: seq<T>)
    ensures |r| == |s|
    ensures multiset(r) == multiset(s)
  {
    if s == [] then []
    else
      assert s == [s[0]] + s[1..];
      Insert(s[0], SortBy(s[1..], before), before)
  }

  lemma {:induction false} SortBySorted<T(!new)>(s: seq<T>, before: (T, T) -> bool)
    requires Total(before)
    ensures SortedBy(SortBy(s, before), before)
  {
    if s != [] {
      SortBySorted(s[1..], before);
      InsertSorted(s[0], SortBy(s[1..], before), before);
    }
  }

  ghost predicate Transitive<T(!new)>(before: (T, T) -> bool)
  {
    forall a, b, c :: before(a, b) && before(b, c) ==> before(a, c)
  }

  /** For a transitive order, neighbour-wise order is order of every pair. */
  lemma {:induction false} SortedAllPairs<T(!new)>(s: seq<T>, before: (T, T) -> bool)
    requires Transitive(before) && SortedBy(s, before)
    ensures forall i, j :: 0 <= i < j < |s| ==> before(s[i], s[j])
  {
    if |s| > 1 {
      var rest := s[1..];
      assert SortedBy(rest, before) by {
        forall i | 0 < i < |rest| ensures before(rest[i - 1], rest[i]) {
          assert rest[i - 1] == s[i] && rest[i] == s[i + 1];
        }
      }
      SortedAllPairs(rest, before);
      forall i, j | 0 <= i < j < |s| ensures before(s[i], s[j]) {
        if i > 0 {
          assert s[i] == rest[i - 1] && s[j] == rest[j - 1];
        } else if j > 1 {
          assert s[1] == rest[0] && s[j] == rest[j - 1];
        }
      }
    }
  }

  /** The first `n` elements of `s`, or all of them when there are fewer (a `LIMIT n`). */
  function Take<T>(s: seq<T>, n: nat): (r: seq<T>)
    ensures |r| == if |s| < n then |s| else n
    ensures forall i :: 0 <= i < |r| ==> r[i] == s[i]
    ensures multiset(r) <= multiset(s)
  {
    if |s| <= n then s
    else
      assert s == s[..n] + s[n..];
      s[..n]
  }

  /** Lexicographic order on strings by character code. */
  predicate LexLe(a: string, b: string)
  {
    a == [] || (b != [] && (a[0] < b[0] || (a[0] == b[0] && LexLe(a[1..], b[1..]))))
  }

  lemma {:induction false} LexLeTotal(a: string, b: string)
    ensures LexLe(a, b) || LexLe(b, a)
  {
    if a != [] && b != [] && a[0] == b[0] {
      LexLeTotal(a[1..], b[1..]);
    }
  }
}
