/** Accounts of job IDs: how often an ID occurs in a list, and books that keep one
    multiset of IDs per key, with their total. */
module Books {
  import opened RedisStore

  function Bit(a: Id, b: Id): nat { if a == b then 1 else 0 }

  function Count(s: seq<Id>, id: Id): nat { multiset(s)[id] }

  lemma CountAppend(s: seq<Id>, x: Id, id: Id)
    ensures Count(s + [x], id) == Count(s, id) + Bit(x, id)
  {}

  lemma CountTail(s: seq<Id>, id: Id)
    requires s != []
    ensures Count(s[1..], id) + Bit(s[0], id) == Count(s, id)
  {
    assert s == [s[0]] + s[1..];
  }

  lemma {:induction false} CountRemove(s: seq<Id>, x: Id, id: Id)
    ensures Count(RemoveFirst(s, x), id) + (if x in s then Bit(x, id) else 0) == Count(s, id)
  {
    if s != [] {
      assert s == [s[0]] + s[1..];
      if s[0] != x { CountRemove(s[1..], x, id); }
    }
  }

  type Book<K> = map<K, multiset<Id>>

  function At<K>(b: Book<K>, k: K): multiset<Id> {
    if k in b then b[k] else multiset{}
  }

  function Credit<K>(b: Book<K>, k: K, id: Id): Book<K> {
    b[k := At(b, k) + multiset{id}]
  }

  ghost function Total<K>(b: Book<K>): multiset<Id> {
    if b == map[] then multiset{}
    else
      var k :| k in b;
      b[k] + Total(b - {k})
  }

  /** How often `id` occurs in one entry of a book, and in the whole book. */
  function Entry<K>(b: Book<K>, k: K, id: Id): nat { At(b, k)[id] }

  ghost function Sum<K>(b: Book<K>, id: Id): nat { Total(b)[id] }

  /** The total does not depend on the order of summation. */
  lemma {:induction false} TotalWithout<K>(b: Book<K>, k: K)
    requires k in b
    ensures Total(b) == b[k] + Total(b - {k})
    decreases |b|
  {
    var first :| first in b && Total(b) == b[first] + Total(b - {first});
    if first != k {
      var rest := b - {first};
      TotalWithout(rest, k);
      TotalWithout(b - {k}, first);
      assert rest - {k} == b - {k} - {first};
    }
  }

  lemma TotalUpdate<K>(b: Book<K>, k: K, v: multiset<Id>)
    ensures Total(b[k := v]) + At(b, k) == Total(b) + v
  {
    TotalWithout(b[k := v], k);
    assert b[k := v] - {k} == b - {k};
    if k in b {
      TotalWithout(b, k);
    } else {
      assert b - {k} == b;
    }
  }

  lemma SumUpdate<K>(b: Book<K>, k: K, v: multiset<Id>, id: Id)
    ensures Sum(b[k := v], id) + Entry(b, k, id) == Sum(b, id) + v[id]
  {
    TotalUpdate(b, k, v);
    assert (Total(b[k := v]) + At(b, k))[id] == (Total(b) + v)[id];
  }

  lemma SumCredit<K>(b: Book<K>, k: K, x: Id, id: Id)
    ensures Sum(Credit(b, k, x), id) == Sum(b, id) + Bit(x, id)
  {
    SumUpdate(b, k, At(b, k) + multiset{x}, id);
  }

  lemma EntryCredit<K>(b: Book<K>, k: K, x: Id, j: K, id: Id)
    ensures Entry(Credit(b, k, x), j, id) == Entry(b, j, id) + (if j == k then Bit(x, id) else 0)
  {}
}
