/** The parts of WordPress's metadata API that the plugin calls
    (`get_metadata`/`get_post_meta` with `$single = true`, `add_metadata`,
    `update_metadata`), as an abstract table. These are assumptions of the
    model, not code of the plugin:
    - the table maps an (object id, meta key) pair to its values in insertion order;
    - a single read gives the first value, or the empty string when there is none;
    - an add appends, except that with `$unique` set it does nothing when the
      pair already holds a value (truthy or not);
    - an update leaves exactly the new value. */
module Metadata {
  import opened Php

  type PostId = int

  type Table = map<(PostId, string), seq<Value>>

  /** All values stored under `key` for object `id`; an absent pair has none. */
  function Values(t: Table, id: PostId, key: string): seq<Value> {
    if (id, key) in t then t[(id, key)] else []
  }

  /** `get_metadata('post', $id, $key, true)`. */
  function GetSingle(t: Table, id: PostId, key: string): (v: Value)
    ensures Values(t, id, key) != [] ==> v == Values(t, id, key)[0]
    ensures Values(t, id, key) == [] ==> v == Str("") && !Truthy(v)
  {
    var vs := Values(t, id, key);
    if vs == [] then Str("") else vs[0]
  }

  /** `add_metadata('post', $id, $key, $v, $unique)`. */
  function WithAdded(t: Table, id: PostId, key: string, v: Value, unique: bool): (r: Table)
    ensures Values(r, id, key) ==
              if unique && Values(t, id, key) != [] then Values(t, id, key)
              else Values(t, id, key) + [v]
    ensures forall o, k :: (o, k) != (id, key) ==> Values(r, o, k) == Values(t, o, k)
  {
    if unique && Values(t, id, key) != [] then t
    else t[(id, key) := Values(t, id, key) + [v]]
  }

  /** `update_metadata('post', $id, $key, $v)`. */
  function WithUpdated(t: Table, id: PostId, key: string, v: Value): (r: Table)
    ensures Values(r, id, key) == [v]
    ensures GetSingle(r, id, key) == v
    ensures forall o, k :: (o, k) != (id, key) ==> Values(r, o, k) == Values(t, o, k)
  {
    t[(id, key) := [v]]
  }

  /** An add with `$unique` set leaves a pair that already holds a value
      untouched, even when that value is falsy. */
  lemma AddUniqueKeepsExisting(t: Table, id: PostId, key: string, v: Value)
    requires Values(t, id, key) != []
    ensures WithAdded(t, id, key, v, true) == t
  {
  }

  /** The metadata store: a single table that the plugin's callbacks update in place. */
  class MetaStore {
    var table: Table

    constructor (initial: Table)
      ensures table == initial
    {
      table := initial;
    }

    /** `get_metadata(..., true)` on the current table. */
    function Get(id: PostId, key: string): (v: Value)
      reads this
    {
      GetSingle(table, id, key)
    }

    method Add(id: PostId, key: string, v: Value, unique: bool := false)
      modifies this
      ensures table == WithAdded(old(table), id, key, v, unique)
    {
      table := WithAdded(table, id, key, v, unique);
    }

    method Update(id: PostId, key: string, v: Value)
      modifies this
      ensures table == WithUpdated(old(table), id, key, v)
    {
      table := WithUpdated(table, id, key, v);
    }
  }
}
