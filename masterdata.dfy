/** The master-data saves of src/App.tsx (articles by code, packagings and
    pallet types by id, recipients by code): an upsert that replaces the
    entries with the saved entry's key or appends it, and a delete by key. */
module MasterData {
  import opened Base

  /** Some entry has the key. */
  predicate HasKey<T>(xs: seq<T>, k: string, key: T -> string) {
    exists i :: 0 <= i < |xs| && key(xs[i]) == k
  }

  /** `exists ? xs.map(y => key(y) === key(x) ? x : y) : [...xs, x]`. */
  function Upsert<T>(xs: seq<T>, x: T, key: T -> string): (r: seq<T>)
    ensures |r| == if HasKey(xs, key(x), key) then |xs| else |xs| + 1
  {
    if HasKey(xs, key(x), key) then
      seq(|xs|, i requires 0 <= i < |xs| => if key(xs[i]) == key(x) then x else xs[i])
    else xs + [x]
  }

  /** `xs.filter(y => key(y) !== k)`. */
  function DeleteKey<T(!new)>(xs: seq<T>, k: string, key: T -> string): seq<T> {
    Filter(xs, OtherKey(k, key))
  }

  /** `y => key(y) !== k`. */
  function OtherKey<T>(k: string, key: T -> string): T -> bool {
    (y: T) => key(y) != k
  }

  /** Keys identify entries. */
  predicate UniqueKeys<T>(xs: seq<T>, key: T -> string) {
    forall i, j :: 0 <= i < j < |xs| ==> key(xs[i]) != key(xs[j])
  }

  /** After an upsert the saved entry is there, it is the only entry with
      its key, and the entries with other keys are the old ones, in order. */
  lemma UpsertSpec<T(!new)>(xs: seq<T>, x: T, key: T -> string)
    ensures x in Upsert(xs, x, key)
    ensures forall y :: y in Upsert(xs, x, key) && key(y) == key(x) ==> y == x
    ensures forall y :: y in Upsert(xs, x, key) && key(y) != key(x) <==> y in xs && key(y) != key(x)
    ensures HasKey(xs, key(x), key) ==>
              forall i :: 0 <= i < |xs| && key(xs[i]) != key(x) ==> Upsert(xs, x, key)[i] == xs[i]
    ensures !HasKey(xs, key(x), key) ==> Upsert(xs, x, key) == xs + [x]
  {
    var r := Upsert(xs, x, key);
    if HasKey(xs, key(x), key) {
      var k :| 0 <= k < |xs| && key(xs[k]) == key(x);
      assert r[k] == x;
      assert forall i :: 0 <= i < |xs| ==> r[i] in r && xs[i] in xs;
    } else {
      assert r[|xs|] == x;
    }
  }

  /** Upserting keeps keys unique. */
  lemma UpsertUnique<T>(xs: seq<T>, x: T, key: T -> string)
    requires UniqueKeys(xs, key)
    ensures UniqueKeys(Upsert(xs, x, key), key)
  {
  }

  /** Saving the same entry twice is saving it once. */
  lemma UpsertIdempotent<T>(xs: seq<T>, x: T, key: T -> string)
    ensures Upsert(Upsert(xs, x, key), x, key) == Upsert(xs, x, key)
  {
    var r := Upsert(xs, x, key);
    if HasKey(xs, key(x), key) {
      var k :| 0 <= k < |xs| && key(xs[k]) == key(x);
      assert r[k] == x;
    } else {
      assert r[|xs|] == x;
    }
    assert HasKey(r, key(x), key);
    var rr := Upsert(r, x, key);
    assert forall i :: 0 <= i < |r| ==> rr[i] == r[i];
  }

  /** A delete keeps exactly the entries with another key, in their
      order: it splits at every index and keeps one entry exactly when its
      key differs. */
  lemma DeleteKeySpec<T(!new)>(xs: seq<T>, k: string, key: T -> string)
    ensures forall y :: y in DeleteKey(xs, k, key) <==> y in xs && key(y) != k
    ensures !HasKey(DeleteKey(xs, k, key), k, key)
    ensures forall n :: 0 <= n <= |xs| ==>
      DeleteKey(xs, k, key) == DeleteKey(xs[..n], k, key) + DeleteKey(xs[n..], k, key)
    ensures forall i :: 0 <= i < |xs| ==>
      DeleteKey([xs[i]], k, key) == if key(xs[i]) != k then [xs[i]] else []
  {
    var r := DeleteKey(xs, k, key);
    assert forall i :: 0 <= i < |r| ==> r[i] in r;
    FilterOrder(xs, OtherKey(k, key));
  }

  /** Deleting the key of a saved entry undoes the save: the result is
      the very sequence deleting the key before the save gives. */
  lemma DeleteUndoesUpsert<T(!new)>(xs: seq<T>, x: T, key: T -> string)
    ensures DeleteKey(Upsert(xs, x, key), key(x), key) == DeleteKey(xs, key(x), key)
  {
    var keep := OtherKey(key(x), key);
    var r := Upsert(xs, x, key);
    if HasKey(xs, key(x), key) {
      assert forall i :: 0 <= i < |xs| ==> r[i] == if key(xs[i]) == key(x) then x else xs[i];
      SameFilter(r, xs, keep);
    } else {
      FilterAppend(xs, [x], keep);
      assert Filter([x], keep) == [] by {
        assert [x][..0] == [];
      }
    }
  }
}
