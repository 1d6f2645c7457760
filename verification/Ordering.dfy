/** Total orders and the ascending enumeration of a finite set: what ORDER BY on a key returns. */
module Ordering {

  ghost predicate TotalOrder<K(!new)>(le: (K, K) -> bool) {
    && (forall a :: le(a, a))
    && (forall a, b :: le(a, b) || le(b, a))
    && (forall a, b :: le(a, b) && le(b, a) ==> a == b)
    && (forall a, b, c :: le(a, b) && le(b, c) ==> le(a, c))
  }

  /** Code-point order on text, the order of SQLite's BINARY collation and of Python's `sorted`. */
  predicate TextLe(a: string, b: string) {
    a == [] || (b != [] && (a[0] < b[0] || (a[0] == b[0] && TextLe(a[1..], b[1..]))))
  }

  /** Order on (text, number) keys: first by text, then by number. */
  predicate IndexedTextLe(a: (string, nat), b: (string, nat)) {
    if a.0 == b.0 then a.1 <= b.1 else TextLe(a.0, b.0)
  }

  /** Order on pairs of texts. */
  predicate TextPairLe(a: (string, string), b: (string, string)) {
    if a.0 == b.0 then TextLe(a.1, b.1) else TextLe(a.0, b.0)
  }

  /** The order is that of dictionaries: a prefix comes first, and otherwise the smaller character at
      the first difference decides. */
  lemma {:induction false} TextLeMeans(a: string, b: string)
    ensures TextLe(a, b) <==> a <= b || exists k :: FirstDifference(a, b, k) && a[k] < b[k]
  {
    if a != [] && b != [] && a[0] == b[0] {
      TextLeMeans(a[1..], b[1..]);
      assert a <= b <==> a[1..] <= b[1..] by {
        assert a == [a[0]] + a[1..] && b == [b[0]] + b[1..];
      }
      forall k | FirstDifference(a, b, k) && a[k] < b[k]
        ensures FirstDifference(a[1..], b[1..], k - 1) && a[1..][k - 1] < b[1..][k - 1]
      {
        assert k > 0;
        assert forall j :: 0 <= j < k - 1 ==> a[1..][j] == a[j + 1] && b[1..][j] == b[j + 1];
      }
      forall k | FirstDifference(a[1..], b[1..], k) && a[1..][k] < b[1..][k]
        ensures FirstDifference(a, b, k + 1) && a[k + 1] < b[k + 1]
      {
        assert forall j :: 1 <= j < k + 1 ==> a[j] == a[1..][j - 1] && b[j] == b[1..][j - 1];
      }
    } else if a != [] && b != [] {
      assert FirstDifference(a, b, 0);
      assert !(a <= b);
    }
  }

  predicate FirstDifference(a: string, b: string, k: int) {
    0 <= k < |a| && k < |b| && a[k] != b[k] && forall j :: 0 <= j < k ==> a[j] == b[j]
  }

  lemma {:induction false} TextLeReflexive(a: string)
    ensures TextLe(a, a)
  {
    if a != [] {
      TextLeReflexive(a[1..]);
    }
  }

  lemma {:induction false} TextLeTotal(a: string, b: string)
    ensures TextLe(a, b) || TextLe(b, a)
  {
    if a != [] && b != [] && a[0] == b[0] {
      TextLeTotal(a[1..], b[1..]);
    }
  }

  lemma {:induction false} TextLeAntisymmetric(a: string, b: string)
    requires TextLe(a, b) && TextLe(b, a)
    ensures a == b
  {
    if a != [] {
      TextLeAntisymmetric(a[1..], b[1..]);
      assert a == [a[0]] + a[1..] && b == [b[0]] + b[1..];
    }
  }

  lemma {:induction false} TextLeTransitive(a: string, b: string, c: string)
    requires TextLe(a, b) && TextLe(b, c)
    ensures TextLe(a, c)
  {
    if a != [] && a[0] == b[0] == c[0] {
      TextLeTransitive(a[1..], b[1..], c[1..]);
    }
  }

  lemma TextOrder()
    ensures TotalOrder(TextLe)
  {
    forall a { TextLeReflexive(a); }
    forall a, b { TextLeTotal(a, b); }
    forall a, b | TextLe(a, b) && TextLe(b, a) ensures a == b { TextLeAntisymmetric(a, b); }
    forall a, b, c | TextLe(a, b) && TextLe(b, c) ensures TextLe(a, c) { TextLeTransitive(a, b, c); }
  }

  lemma IndexedTextOrder()
    ensures TotalOrder(IndexedTextLe)
  {
    TextOrder();
  }

  lemma TextPairOrder()
    ensures TotalOrder(TextPairLe)
  {
    TextOrder();
  }

  lemma {:induction false} LeastExists<K(!new)>(s: set<K>, le: (K, K) -> bool)
    requires TotalOrder(le)
    requires s != {}
    ensures exists k :: k in s && forall other :: other in s ==> le(k, other)
  {
    var x :| x in s;
    var rest := s - {x};
    if rest == {} {
      assert s == {x};
    } else {
      LeastExists(rest, le);
      var y :| y in rest && forall other :: other in rest ==> le(y, other);
      var least := if le(x, y) then x else y;
      forall other | other in s
        ensures le(least, other)
      {
        assert other == x || other in rest;
      }
    }
  }

  function Least<K(!new, ==)>(s: set<K>, le: (K, K) -> bool): (k: K)
    requires TotalOrder(le)
    requires s != {}
    ensures k in s && forall other :: other in s ==> le(k, other)
  {
    LeastExists(s, le);
    var k :| k in s && forall other :: other in s ==> le(k, other);
    k
  }

  ghost predicate StrictlyAscending<K>(keys: seq<K>, le: (K, K) -> bool) {
    forall i, j :: 0 <= i < j < |keys| ==> le(keys[i], keys[j]) && keys[i] != keys[j]
  }

  /** The elements of `s`, each once, in ascending order. */
  function Ascending<K(!new, ==)>(s: set<K>, le: (K, K) -> bool): (keys: seq<K>)
    requires TotalOrder(le)
    ensures forall k :: k in keys <==> k in s
    ensures StrictlyAscending(keys, le)
  {
    if s == {} then
      []
    else
      var first := Least(s, le);
      [first] + Ascending(s - {first}, le)
  }

  /** An ascending enumeration is determined by its set of elements. */
  lemma {:induction false} AscendingUnique<K(!new)>(a: seq<K>, b: seq<K>, le: (K, K) -> bool)
    requires TotalOrder(le)
    requires StrictlyAscending(a, le) && StrictlyAscending(b, le)
    requires forall k :: k in a <==> k in b
    ensures a == b
  {
    assert b != [] ==> b[0] in a;
    if a != [] {
      assert a[0] in b;
      assert a[0] == b[0];
      forall k
        ensures k in a[1..] <==> k in b[1..]
      {
        if k in a[1..] {
          assert k in a && k != a[0];
          assert k in b;
        }
        if k in b[1..] {
          assert k in b && k != b[0];
          assert k in a;
        }
      }
      AscendingUnique(a[1..], b[1..], le);
      assert a == [a[0]] + a[1..] && b == [b[0]] + b[1..];
    }
  }
}
