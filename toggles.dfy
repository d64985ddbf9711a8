/** The checkbox updaters of the schedule pages: an entry is added at the end
    when no entry has its key and every entry with that key is removed
    otherwise. Songs are keyed by `songSrc` (src/app/schedule/page.tsx and
    src/app/schedulemusic/page.tsx); weekdays and month dates by themselves. */
module Toggles {

  predicate HasKey<T(!new), K(==)>(list: seq<T>, key: T -> K, k: K)
  {
    exists i :: 0 <= i < |list| && key(list[i]) == k
  }

  /** `list.filter(x => key(x) !== k)`. */
  function RemoveKey<T(!new), K(==)>(list: seq<T>, key: T -> K, k: K): (r: seq<T>)
    ensures |r| <= |list|
    ensures forall x :: x in r <==> x in list && key(x) != k
    ensures !HasKey(r, key, k)
  {
    if list == [] then []
    else if key(list[0]) == k then RemoveKey(list[1..], key, k)
    else [list[0]] + RemoveKey(list[1..], key, k)
  }

  /** `list.some(x => key(x) === key(item)) ? list.filter(...) : [...list, item]`. */
  function Toggle<T(!new), K(==)>(list: seq<T>, key: T -> K, item: T): seq<T>
  {
    if HasKey(list, key, key(item)) then RemoveKey(list, key, key(item)) else list + [item]
  }

  /** No two entries share a key. */
  predicate KeysDistinct<T(!new), K(==)>(list: seq<T>, key: T -> K)
  {
    forall i, j :: 0 <= i < j < |list| ==> key(list[i]) != key(list[j])
  }

  /** Removing a key that no entry has changes nothing. */
  lemma {:induction false} RemoveAbsentKey<T(!new), K>(list: seq<T>, key: T -> K, k: K)
    requires !HasKey(list, key, k)
    ensures RemoveKey(list, key, k) == list
  {
    if list != [] {
      RemoveAbsentKey(list[1..], key, k);
      assert key(list[0]) != k;
      assert [list[0]] + list[1..] == list;
    }
  }

  /** Removing a key keeps the other entries in their order: the result is the
      list with exactly the entries of that key taken out, so distinct keys
      stay distinct. */
  lemma {:induction false} RemoveKeyKeepsDistinct<T(!new), K>(list: seq<T>, key: T -> K, k: K)
    requires KeysDistinct(list, key)
    ensures KeysDistinct(RemoveKey(list, key, k), key)
  {
    if list != [] {
      var tail := list[1..];
      assert KeysDistinct(tail, key) by {
        forall i, j | 0 <= i < j < |tail| ensures key(tail[i]) != key(tail[j]) {
          assert tail[i] == list[i + 1] && tail[j] == list[j + 1];
        }
      }
      RemoveKeyKeepsDistinct(tail, key, k);
      var rest := RemoveKey(tail, key, k);
      if key(list[0]) != k {
        var r := [list[0]] + rest;
        forall i, j | 0 <= i < j < |r| ensures key(r[i]) != key(r[j]) {
          if i == 0 {
            assert r[j] in rest;
            assert r[j] in tail;
            var m :| 0 <= m < |tail| && tail[m] == r[j];
            assert list[m + 1] == r[j];
          } else {
            assert r[i] == rest[i - 1] && r[j] == rest[j - 1];
          }
        }
      }
    }
  }

  /** The filter works entry by entry: filtering a concatenation filters each
      part and keeps them in order. With `RemoveKeyOne` this fixes the result's
      order and multiplicity, not only its members. */
  lemma {:induction false} RemoveKeyConcat<T(!new), K>(a: seq<T>, b: seq<T>, key: T -> K, k: K)
    ensures RemoveKey(a + b, key, k) == RemoveKey(a, key, k) + RemoveKey(b, key, k)
  {
    if a != [] {
      assert (a + b)[0] == a[0];
      assert (a + b)[1..] == a[1..] + b;
      RemoveKeyConcat(a[1..], b, key, k);
    } else {
      assert a + b == b;
    }
  }

  /** One entry is dropped when it has the key and kept otherwise. */
  lemma RemoveKeyOne<T(!new), K>(x: T, key: T -> K, k: K)
    ensures RemoveKey([x], key, k) == if key(x) == k then [] else [x]
  {
    assert [x][1..] == [];
  }

  /** Every entry of a toggled list is an entry of the list or the item, so a
      list drawn from a set of options stays drawn from it. */
  lemma ToggleStaysAmong<T(!new), K>(list: seq<T>, key: T -> K, item: T, options: seq<T>)
    requires forall x :: x in list ==> x in options
    requires item in options
    ensures forall x :: x in Toggle(list, key, item) ==> x in options
  {
  }

  /** Toggling an item whose key is absent appends it. */
  lemma ToggleAbsentAppends<T(!new), K>(list: seq<T>, key: T -> K, item: T)
    requires !HasKey(list, key, key(item))
    ensures Toggle(list, key, item) == list + [item]
    ensures HasKey(Toggle(list, key, item), key, key(item))
  {
    assert key((list + [item])[|list|]) == key(item);
  }

  /** Toggling an item whose key is present removes every entry with that key
      and keeps all the others. */
  lemma TogglePresentRemoves<T(!new), K>(list: seq<T>, key: T -> K, item: T)
    requires HasKey(list, key, key(item))
    ensures Toggle(list, key, item) == RemoveKey(list, key, key(item))
    ensures !HasKey(Toggle(list, key, item), key, key(item))
    ensures forall x :: x in Toggle(list, key, item) <==> x in list && key(x) != key(item)
  {
  }

  /** Toggling an absent item twice gives the list back. */
  lemma ToggleTwiceRestores<T(!new), K>(list: seq<T>, key: T -> K, item: T)
    requires !HasKey(list, key, key(item))
    ensures Toggle(Toggle(list, key, item), key, item) == list
  {
    var once := list + [item];
    ToggleAbsentAppends(list, key, item);
    RemoveKeyAppended(list, key, item);
  }

  lemma {:induction false} RemoveKeyAppended<T(!new), K>(list: seq<T>, key: T -> K, item: T)
    requires !HasKey(list, key, key(item))
    ensures RemoveKey(list + [item], key, key(item)) == list
  {
    if list == [] {
      assert [item][1..] == [];
    } else {
      assert (list + [item])[1..] == list[1..] + [item];
      RemoveKeyAppended(list[1..], key, item);
      assert key(list[0]) != key(item);
      assert [list[0]] + list[1..] == list;
    }
  }

  /** A toggle keeps a list free of repeated keys. */
  lemma ToggleKeepsDistinct<T(!new), K>(list: seq<T>, key: T -> K, item: T)
    requires KeysDistinct(list, key)
    ensures KeysDistinct(Toggle(list, key, item), key)
  {
    if HasKey(list, key, key(item)) {
      RemoveKeyKeepsDistinct(list, key, key(item));
    } else {
      var r := list + [item];
      forall i, j | 0 <= i < j < |r| ensures key(r[i]) != key(r[j]) {
        if j == |list| {
          assert r[i] == list[i];
        }
      }
    }
  }

  function Same<T>(x: T): T { x }
}
