/**
 * The object-storage listing API as data. A delimited listing is given as its pages, any
 * of which may fail; a flat listing is computed from the store's keys, cut into pages of
 * at most the requested number of keys.
 */
module Listing {

  /** One response of a listing call: the entries it returned, or a listing error. */
  datatype Page<T> = Listed(entries: seq<T>) | ListFailed

  /**
   * The objects of a bucket for flat listings: every key in listing order, and for each
   * prefix whose listing breaks, the index of the page request that fails.
   */
  datatype ObjectStore = ObjectStore(keys: seq<string>, faults: map<string, nat>)

  /** The concatenation of a sequence of sequences. */
  function Flatten<T>(ss: seq<seq<T>>): seq<T>
  {
    if ss == [] then [] else ss[0] + Flatten(ss[1..])
  }

  lemma {:induction false} FlattenAppend<T>(a: seq<seq<T>>, b: seq<seq<T>>)
    ensures Flatten(a + b) == Flatten(a) + Flatten(b)
    decreases |a|
  {
    if a == [] {
      assert a + b == b;
    } else {
      assert (a + b)[1..] == a[1..] + b;
      FlattenAppend(a[1..], b);
    }
  }

  /** The keys that start with `prefix`, in listing order. */
  function KeysUnder(keys: seq<string>, prefix: string): (r: seq<string>)
    ensures forall k | k in r :: prefix <= k && k in keys
    ensures forall k | k in keys && prefix <= k :: k in r
  {
    if keys == [] then []
    else (if prefix <= keys[0] then [keys[0]] else []) + KeysUnder(keys[1..], prefix)
  }

  /** `keys` cut into consecutive pages of `size` keys; the last page may be shorter or empty. */
  function Chunks(keys: seq<string>, size: nat): (pages: seq<seq<string>>)
    requires size > 0
    ensures |pages| >= 1
    ensures forall i | 0 <= i < |pages| :: |pages[i]| <= size
    ensures Flatten(pages) == keys
    decreases |keys|
  {
    if |keys| <= size then [keys]
    else
      var rest := Chunks(keys[size..], size);
      assert keys[..size] + keys[size..] == keys;
      [keys[..size]] + rest
  }

  /**
   * The responses of a paginated flat listing of `prefix` with at most `maxKeys` keys per
   * page: one page per chunk of the matching keys, cut short by a failing page when the
   * store has a fault for that prefix within the listing.
   */
  function ObjectPages(store: ObjectStore, prefix: string, maxKeys: nat): (pages: seq<Page<string>>)
    requires maxKeys > 0
    ensures forall i | 0 <= i < |pages| && pages[i].Listed? :: |pages[i].entries| <= maxKeys
    ensures forall i | 0 <= i < |pages| && pages[i].Listed? ::
              forall k | k in pages[i].entries :: prefix <= k && k in store.keys
  {
    var chunks := Chunks(KeysUnder(store.keys, prefix), maxKeys);
    var listed := seq(|chunks|, i requires 0 <= i < |chunks| => Listed(chunks[i]));
    assert forall i | 0 <= i < |chunks| :: forall k | k in chunks[i] :: k in Flatten(chunks) by {
      forall i | 0 <= i < |chunks| ensures forall k | k in chunks[i] :: k in Flatten(chunks) {
        FlattenContains(chunks, i);
      }
    }
    if prefix in store.faults && store.faults[prefix] < |chunks| then
      listed[..store.faults[prefix]] + [ListFailed]
    else listed
  }

  lemma {:induction false} FlattenContains<T>(ss: seq<seq<T>>, i: nat)
    requires i < |ss|
    ensures forall x | x in ss[i] :: x in Flatten(ss)
    decreases i
  {
    if i > 0 {
      FlattenContains(ss[1..], i - 1);
    }
  }

  /** The keys a flat listing delivers, in order, up to its first failing page. */
  function ListedKeys(pages: seq<Page<string>>): seq<string>
  {
    if pages == [] then []
    else match pages[0]
      case ListFailed => []
      case Listed(keys) => keys + ListedKeys(pages[1..])
  }

  lemma {:induction false} ListedKeysOfChunks(chunks: seq<seq<string>>, n: nat)
    requires n <= |chunks|
    ensures var listed := seq(|chunks|, i requires 0 <= i < |chunks| => Listed(chunks[i]));
            ListedKeys(listed[..n] + [ListFailed]) == Flatten(chunks[..n])
            && ListedKeys(listed) == Flatten(chunks)
    decreases |chunks|
  {
    var listed := seq(|chunks|, i requires 0 <= i < |chunks| => Listed(chunks[i]));
    if chunks != [] {
      var rest := chunks[1..];
      var listedRest := seq(|rest|, i requires 0 <= i < |rest| => Listed(rest[i]));
      assert listed[1..] == listedRest;
      if n > 0 {
        ListedKeysOfChunks(rest, n - 1);
        assert (listed[..n] + [ListFailed])[1..] == listedRest[..n - 1] + [ListFailed];
        assert chunks[..n][1..] == rest[..n - 1];
      } else {
        ListedKeysOfChunks(rest, 0);
      }
    }
  }

  /**
   * A flat listing delivers the keys under its prefix in listing order: all of them when
   * no page fails, and a leading part of them otherwise.
   */
  lemma ObjectPagesKeys(store: ObjectStore, prefix: string, maxKeys: nat)
    requires maxKeys > 0
    ensures var pages := ObjectPages(store, prefix, maxKeys);
            && ListedKeys(pages) <= KeysUnder(store.keys, prefix)
            && (ListFailed !in pages ==> ListedKeys(pages) == KeysUnder(store.keys, prefix))
            && (prefix !in store.faults ==> ListFailed !in pages)
  {
    var keys := KeysUnder(store.keys, prefix);
    var chunks := Chunks(keys, maxKeys);
    var listed := seq(|chunks|, i requires 0 <= i < |chunks| => Listed(chunks[i]));
    var pages := ObjectPages(store, prefix, maxKeys);
    if prefix in store.faults && store.faults[prefix] < |chunks| {
      var n := store.faults[prefix];
      assert pages == listed[..n] + [ListFailed];
      assert ListedKeys(pages) == Flatten(chunks[..n]) by {
        ListedKeysOfChunks(chunks, n);
      }
      assert Flatten(chunks) == Flatten(chunks[..n]) + Flatten(chunks[n..]) by {
        FlattenAppend(chunks[..n], chunks[n..]);
        assert chunks[..n] + chunks[n..] == chunks;
      }
      assert pages[n] == ListFailed;
    } else {
      assert pages == listed;
      assert ListedKeys(listed) == Flatten(chunks) by {
        ListedKeysOfChunks(chunks, |chunks|);
      }
      assert forall i | 0 <= i < |listed| :: listed[i].Listed?;
    }
  }
}
