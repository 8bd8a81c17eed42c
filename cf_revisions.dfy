/** The `cf_revisions` engine: a registry of post-meta keys, the snapshot
    writer that copies a post's metadata onto a new revision, and the restore
    merger that copies a revision's metadata back onto the post. */
module CfRevisions {
  import opened Php
  import opened Metadata

  /** One registry entry, as built by `compact('postmeta_key', 'display_func')`.
      The display function is a PHP function name; "" means none. */
  datatype Entry = Entry(postmetaKey: string, displayFunc: string) {
    /** The entry as the PHP associative array it is stored as. */
    function AsPhp(): (v: Value)
      ensures v.Arr?
    {
      Arr([(Str("postmeta_key"), Str(postmetaKey)), (Str("display_func"), Str(displayFunc))])
    }
  }

  /** The fields of the saved post object that the snapshot writer reads. */
  datatype Post = Post(postType: string, postParent: PostId)

  /** The key names of a list of entries, in order, duplicates included. */
  function Keys(es: seq<Entry>): (ks: seq<string>)
    ensures |ks| == |es|
    ensures forall i :: 0 <= i < |es| ==> ks[i] == es[i].postmetaKey
  {
    seq(|es|, i requires 0 <= i < |es| => es[i].postmetaKey)
  }

  lemma KeysAppend(a: seq<Entry>, b: seq<Entry>)
    ensures Keys(a + b) == Keys(a) + Keys(b)
  {
  }

  /** The registry list as the PHP array that `in_array` searches. */
  function AsPhpList(es: seq<Entry>): seq<Value> {
    seq(|es|, i requires 0 <= i < |es| => es[i].AsPhp())
  }

  /** The duplicate guard of `register` compares a string strictly with the
      stored entries, which are arrays, so it never finds a match. */
  lemma RegisterGuardNeverMatches(key: string, es: seq<Entry>)
    ensures !InArrayStrict(Str(key), AsPhpList(es))
  {
    StringNotInArrayOfArrays(key, AsPhpList(es));
  }

  /** `n` copies of `v`. */
  function Copies(v: Value, n: nat): seq<Value> {
    if n == 0 then [] else Copies(v, n - 1) + [v]
  }

  // ---------------------------------------------------------------------
  // Snapshot writer: the effect of `save_post_revision`'s loop on the table.

  /** One iteration: copy the parent's value of `e`'s key onto the revision
      when it is truthy. */
  function SnapshotStep(t: Table, e: Entry, revisionId: PostId, parentId: PostId): Table {
    var v := GetSingle(t, parentId, e.postmetaKey);
    if Truthy(v) then WithAdded(t, revisionId, e.postmetaKey, v, false) else t
  }

  /** The table after the loop has run over the entries `es`, in order. */
  function Snapshot(t: Table, es: seq<Entry>, revisionId: PostId, parentId: PostId): Table
    decreases |es|
  {
    if es == [] then t
    else SnapshotStep(Snapshot(t, es[..|es| - 1], revisionId, parentId), es[|es| - 1], revisionId, parentId)
  }

  /** The snapshot writer changes no object's metadata except the revision's;
      in particular the parent post is untouched. */
  lemma {:induction false} SnapshotOnlyTouchesRevision(t: Table, es: seq<Entry>, revisionId: PostId, parentId: PostId, o: PostId, k: string)
    requires o != revisionId
    ensures Values(Snapshot(t, es, revisionId, parentId), o, k) == Values(t, o, k)
    decreases |es|
  {
    if es != [] {
      SnapshotOnlyTouchesRevision(t, es[..|es| - 1], revisionId, parentId, o, k);
    }
  }

  /** One snapshot step adds to the revision's values of `k` only when the
      entry is named `k` and the parent's value is truthy. */
  lemma SnapshotStepRevisionValues(t: Table, e: Entry, revisionId: PostId, parentId: PostId, k: string)
    ensures var v := GetSingle(t, parentId, k);
            Values(SnapshotStep(t, e, revisionId, parentId), revisionId, k)
            == Values(t, revisionId, k) + (if e.postmetaKey == k && Truthy(v) then [v] else [])
  {
  }

  lemma KeyCountAppend(es: seq<Entry>, e: Entry, k: string)
    ensures multiset(Keys(es + [e]))[k] == multiset(Keys(es))[k] + (if e.postmetaKey == k then 1 else 0)
  {
    KeysAppend(es, [e]);
    assert Keys(es + [e]) == Keys(es) + [e.postmetaKey];
  }

  /** Values appended after a pair's existing ones leave its single read as
      it was: an empty pair reads as "", which is falsy, and a non-empty one
      keeps its first value. */
  lemma AppendKeepsFirstValue(t: Table, t': Table, id: PostId, k: string, extra: seq<Value>)
    requires Values(t', id, k) == Values(t, id, k) + extra
    requires Values(t, id, k) == [] ==> extra == []
    ensures GetSingle(t', id, k) == GetSingle(t, id, k)
  {
    if Values(t, id, k) != [] {
      assert Values(t', id, k)[0] == Values(t, id, k)[0];
    }
  }

  /** Before a snapshot step the parent still reads as it did at the start:
      it is untouched when it is another object, and when the revision is the
      parent itself only truthy copies of its first value were appended. */
  lemma SnapshotKeepsParentRead(t: Table, before: Table, revisionId: PostId, parentId: PostId, k: string, extra: seq<Value>)
    requires Values(before, revisionId, k) == Values(t, revisionId, k) + extra
    requires !Truthy(GetSingle(t, parentId, k)) ==> extra == []
    requires revisionId != parentId ==> Values(before, parentId, k) == Values(t, parentId, k)
    ensures GetSingle(before, parentId, k) == GetSingle(t, parentId, k)
  {
    if revisionId == parentId {
      AppendKeepsFirstValue(t, before, parentId, k, extra);
    }
  }

  /** The induction step of `SnapshotRevisionValues`: if the revision holds
      its old values plus `n` copies of the parent's truthy value before a
      step, it holds one copy more after a step for an entry named `k`. */
  lemma SnapshotStepExtends(t: Table, before: Table, e: Entry, revisionId: PostId, parentId: PostId, k: string, n: nat)
    requires var v := GetSingle(t, parentId, k);
             Values(before, revisionId, k) == Values(t, revisionId, k) + Copies(v, if Truthy(v) then n else 0)
    requires revisionId != parentId ==> Values(before, parentId, k) == Values(t, parentId, k)
    ensures var v := GetSingle(t, parentId, k);
            Values(SnapshotStep(before, e, revisionId, parentId), revisionId, k)
            == Values(t, revisionId, k) + Copies(v, if Truthy(v) then n + (if e.postmetaKey == k then 1 else 0) else 0)
  {
    var v := GetSingle(t, parentId, k);
    var c := if Truthy(v) then n else 0;
    SnapshotKeepsParentRead(t, before, revisionId, parentId, k, Copies(v, c));
    SnapshotStepRevisionValues(before, e, revisionId, parentId, k);
    if e.postmetaKey == k && Truthy(v) {
      assert Copies(v, c + 1) == Copies(v, c) + [v];
    }
  }

  /** What the revision holds for key `k` afterwards: what it held before,
      followed by the parent's value once per entry named `k` if that value
      is truthy, and nothing new otherwise. */
  lemma {:induction false} SnapshotRevisionValues(t: Table, es: seq<Entry>, revisionId: PostId, parentId: PostId, k: string)
    ensures var v := GetSingle(t, parentId, k);
            Values(Snapshot(t, es, revisionId, parentId), revisionId, k)
            == Values(t, revisionId, k) + Copies(v, if Truthy(v) then multiset(Keys(es))[k] else 0)
    decreases |es|
  {
    if es != [] {
      var init := es[..|es| - 1];
      var e := es[|es| - 1];
      assert es == init + [e];
      KeyCountAppend(init, e, k);
      SnapshotRevisionValues(t, init, revisionId, parentId, k);
      if revisionId != parentId {
        SnapshotOnlyTouchesRevision(t, init, revisionId, parentId, parentId, k);
      }
      SnapshotStepExtends(t, Snapshot(t, init, revisionId, parentId), e, revisionId, parentId, k, multiset(Keys(init))[k]);
    }
  }

  /** A revision never gains a value for a key whose value on the parent is falsy. */
  lemma SnapshotSkipsFalsy(t: Table, es: seq<Entry>, revisionId: PostId, parentId: PostId, k: string)
    requires !Truthy(GetSingle(t, parentId, k))
    ensures Values(Snapshot(t, es, revisionId, parentId), revisionId, k) == Values(t, revisionId, k)
  {
    SnapshotRevisionValues(t, es, revisionId, parentId, k);
  }

  /** Registering a key twice makes one snapshot insert its value twice. */
  lemma DuplicateEntryInsertsTwice(parent: PostId, revision: PostId, v: Value)
    requires parent != revision && Truthy(v)
    ensures var t := map[(parent, "color") := [v]];
            var es := [Entry("color", ""), Entry("color", "")];
            Values(Snapshot(t, es, revision, parent), revision, "color") == [v, v]
  {
    var t := map[(parent, "color") := [v]];
    var es := [Entry("color", ""), Entry("color", "")];
    SnapshotRevisionValues(t, es, revision, parent, "color");
    assert Keys(es) == ["color", "color"];
    assert multiset(Keys(es))["color"] == 2;
  }

  // ---------------------------------------------------------------------
  // Restore merger: the effect of `restore_post_revision`'s loop on the table.

  /** One iteration: when the revision's value of `e`'s key is truthy, update
      the post's value if that is truthy, and otherwise add it as unique. */
  function RestoreStep(t: Table, e: Entry, postId: PostId, revisionId: PostId): Table {
    var k := e.postmetaKey;
    var v := GetSingle(t, revisionId, k);
    if !Truthy(v) then t
    else if Truthy(GetSingle(t, postId, k)) then WithUpdated(t, postId, k, v)
    else WithAdded(t, postId, k, v, true)
  }

  /** The table after the loop has run over the entries `es`, in order. */
  function Restore(t: Table, es: seq<Entry>, postId: PostId, revisionId: PostId): Table
    decreases |es|
  {
    if es == [] then t
    else RestoreStep(Restore(t, es[..|es| - 1], postId, revisionId), es[|es| - 1], postId, revisionId)
  }

  /** The restore merger changes no object's metadata except the post's. */
  lemma {:induction false} RestoreOnlyTouchesPost(t: Table, es: seq<Entry>, postId: PostId, revisionId: PostId, o: PostId, k: string)
    requires o != postId
    ensures Values(Restore(t, es, postId, revisionId), o, k) == Values(t, o, k)
    decreases |es|
  {
    if es != [] {
      RestoreOnlyTouchesPost(t, es[..|es| - 1], postId, revisionId, o, k);
    }
  }

  /** The restore merger never deletes: a pair that holds a value keeps one. */
  lemma {:induction false} RestoreNeverDeletes(t: Table, es: seq<Entry>, postId: PostId, revisionId: PostId, o: PostId, k: string)
    requires Values(t, o, k) != []
    ensures Values(Restore(t, es, postId, revisionId), o, k) != []
    decreases |es|
  {
    if es != [] {
      RestoreNeverDeletes(t, es[..|es| - 1], postId, revisionId, o, k);
    }
  }

  /** Whether restoring over `es` brings the revision's value of `k` back:
      `k` is registered, the revision's value is truthy, and the post's value
      is truthy or absent. */
  predicate RestoresKey(t: Table, es: seq<Entry>, postId: PostId, revisionId: PostId, k: string) {
    && k in Keys(es)
    && Truthy(GetSingle(t, revisionId, k))
    && (Truthy(GetSingle(t, postId, k)) || Values(t, postId, k) == [])
  }

  /** One restore step sets the post's values of `k` to the revision's value
      exactly when the entry is named `k`, that value is truthy, and the
      post's value is truthy or absent; otherwise they stay as they were. */
  lemma RestoreStepPostValues(t: Table, e: Entry, postId: PostId, revisionId: PostId, k: string)
    ensures Values(RestoreStep(t, e, postId, revisionId), postId, k)
            == if e.postmetaKey == k && Truthy(GetSingle(t, revisionId, k))
                  && (Truthy(GetSingle(t, postId, k)) || Values(t, postId, k) == [])
               then [GetSingle(t, revisionId, k)]
               else Values(t, postId, k)
  {
  }

  /** Before a restore step the revision still reads as it did at the start:
      it is untouched when it is another object, and when the post is the
      revision itself its values are either unchanged or its own first value. */
  lemma RestoreKeepsRevisionRead(t: Table, before: Table, postId: PostId, revisionId: PostId, k: string)
    requires Values(before, postId, k) == [GetSingle(t, revisionId, k)] || Values(before, postId, k) == Values(t, postId, k)
    requires postId != revisionId ==> Values(before, revisionId, k) == Values(t, revisionId, k)
    ensures GetSingle(before, revisionId, k) == GetSingle(t, revisionId, k)
  {
  }

  /** What the post holds for key `k` after a restore: exactly the revision's
      value when `RestoresKey` holds, and what it held before otherwise. */
  lemma {:induction false} RestorePostValues(t: Table, es: seq<Entry>, postId: PostId, revisionId: PostId, k: string)
    ensures Values(Restore(t, es, postId, revisionId), postId, k)
            == if RestoresKey(t, es, postId, revisionId, k) then [GetSingle(t, revisionId, k)]
               else Values(t, postId, k)
    decreases |es|
  {
    if es != [] {
      var init := es[..|es| - 1];
      var e := es[|es| - 1];
      assert es == init + [e];
      KeysAppend(init, [e]);
      assert k in Keys(es) <==> k in Keys(init) || k == e.postmetaKey;
      RestorePostValues(t, init, postId, revisionId, k);
      var before := Restore(t, init, postId, revisionId);
      if postId != revisionId {
        RestoreOnlyTouchesPost(t, init, postId, revisionId, revisionId, k);
      }
      RestoreKeepsRevisionRead(t, before, postId, revisionId, k);
      RestoreStepPostValues(before, e, postId, revisionId, k);
    }
  }

  /** Confluence: when the revision's value is truthy and the post's value is
      truthy (update branch) or absent (add branch), the post ends up with
      exactly the revision's value either way. */
  lemma RestoreConfluence(t: Table, es: seq<Entry>, postId: PostId, revisionId: PostId, k: string)
    requires k in Keys(es) && Truthy(GetSingle(t, revisionId, k))
    requires Truthy(GetSingle(t, postId, k)) || Values(t, postId, k) == []
    ensures Values(Restore(t, es, postId, revisionId), postId, k) == [GetSingle(t, revisionId, k)]
    ensures GetSingle(Restore(t, es, postId, revisionId), postId, k) == GetSingle(t, revisionId, k)
  {
    RestorePostValues(t, es, postId, revisionId, k);
  }

  /** A key whose revision value is falsy (or missing) leaves the post's values alone. */
  lemma RestoreSkipsFalsyRevisionValue(t: Table, es: seq<Entry>, postId: PostId, revisionId: PostId, k: string)
    requires !Truthy(GetSingle(t, revisionId, k))
    ensures Values(Restore(t, es, postId, revisionId), postId, k) == Values(t, postId, k)
  {
    RestorePostValues(t, es, postId, revisionId, k);
  }

  /** A post value that is present but falsy survives the restore: the unique
      add refuses to add beside it, and no update is issued. */
  lemma RestoreKeepsPresentFalsyValue(t: Table, es: seq<Entry>, postId: PostId, revisionId: PostId, k: string)
    requires Values(t, postId, k) != [] && !Truthy(GetSingle(t, postId, k))
    ensures Values(Restore(t, es, postId, revisionId), postId, k) == Values(t, postId, k)
  {
    RestorePostValues(t, es, postId, revisionId, k);
  }

  // ---------------------------------------------------------------------

  /** The `cf_revisions` object: the registry list and the two callbacks. */
  class Registry {
    var postmetaKeys: seq<Entry>
    /** How many times `Register` has been called. */
    ghost var registrations: nat

    ghost predicate Valid()
      reads this
    {
      |postmetaKeys| == registrations
    }

    constructor ()
      ensures Valid()
      ensures postmetaKeys == [] && registrations == 0
    {
      postmetaKeys := [];
      registrations := 0;
    }

    /** `register`: the guard never matches, so the entry is always appended,
        even when the key is already registered. Always returns true. */
    method Register(postmetaKey: string, displayFunc: string := "") returns (ok: bool)
      requires Valid()
      modifies this
      ensures Valid()
      ensures ok
      ensures postmetaKeys == old(postmetaKeys) + [Entry(postmetaKey, displayFunc)]
      ensures registrations == old(registrations) + 1
    {
      RegisterGuardNeverMatches(postmetaKey, postmetaKeys);
      if !InArrayStrict(Str(postmetaKey), AsPhpList(postmetaKeys)) {
        postmetaKeys := postmetaKeys + [Entry(postmetaKey, displayFunc)];
      }
      registrations := registrations + 1;
      ok := true;
    }

    /** `have_keys`: true exactly when `Register` has been called at least once. */
    function HaveKeys(): (b: bool)
      reads this
      requires Valid()
      ensures b <==> registrations > 0
    {
      |postmetaKeys| > 0
    }

    /** `registered_keys`: each registered key once, in first-registration order. */
    function RegisteredKeys(): (r: seq<string>)
      reads this
      ensures NoDuplicates(r)
      ensures forall k :: k in r <==> exists i :: 0 <= i < |postmetaKeys| && postmetaKeys[i].postmetaKey == k
      ensures InFirstOccurrenceOrder(Keys(postmetaKeys), r)
    {
      ArrayUniqueKeepsFirstOccurrenceOrder(Keys(postmetaKeys));
      ArrayUnique(Keys(postmetaKeys))
    }

    /** `save_post_revision($post_id, $post)`: returns false without touching
        the table unless the saved post is a revision and some key is
        registered; otherwise copies each entry's truthy parent value onto the
        revision and returns nothing (null). */
    method SavePostRevision(store: MetaStore, postId: PostId, post: Post) returns (r: Value)
      requires Valid()
      modifies store
      ensures post.postType != "revision" || !HaveKeys() ==>
                r == Bool(false) && store.table == old(store.table)
      ensures post.postType == "revision" && HaveKeys() ==>
                r == Null && store.table == Snapshot(old(store.table), postmetaKeys, postId, post.postParent)
    {
      if post.postType != "revision" || !HaveKeys() {
        return Bool(false);
      }
      for i := 0 to |postmetaKeys|
        invariant store.table == Snapshot(old(store.table), postmetaKeys[..i], postId, post.postParent)
      {
        ghost var before := store.table;
        var postmetaKey := postmetaKeys[i].postmetaKey;
        var postmetaValue := store.Get(post.postParent, postmetaKey);
        if Truthy(postmetaValue) {
          store.Add(postId, postmetaKey, postmetaValue);
        }
        assert store.table == SnapshotStep(before, postmetaKeys[i], postId, post.postParent);
        assert postmetaKeys[..i + 1][..i] == postmetaKeys[..i];
      }
      assert postmetaKeys[..|postmetaKeys|] == postmetaKeys;
      r := Null;
    }

    /** `restore_post_revision($post_id, $revision_id)`: returns false without
        touching the table when no key is registered; otherwise runs the
        update-or-add-unique step for each entry and returns nothing (null). */
    method RestorePostRevision(store: MetaStore, postId: PostId, revisionId: PostId) returns (r: Value)
      requires Valid()
      modifies store
      ensures !HaveKeys() ==> r == Bool(false) && store.table == old(store.table)
      ensures HaveKeys() ==>
                r == Null && store.table == Restore(old(store.table), postmetaKeys, postId, revisionId)
    {
      if !HaveKeys() {
        return Bool(false);
      }
      for i := 0 to |postmetaKeys|
        invariant store.table == Restore(old(store.table), postmetaKeys[..i], postId, revisionId)
      {
        ghost var before := store.table;
        var postmetaKey := postmetaKeys[i].postmetaKey;
        var postmetaValue := store.Get(revisionId, postmetaKey);
        if Truthy(postmetaValue) {
          if Truthy(store.Get(postId, postmetaKey)) {
            store.Update(postId, postmetaKey, postmetaValue);
          } else {
            store.Add(postId, postmetaKey, postmetaValue, true);
          }
        }
        assert store.table == RestoreStep(before, postmetaKeys[i], postId, revisionId);
        assert postmetaKeys[..i + 1][..i] == postmetaKeys[..i];
      }
      assert postmetaKeys[..|postmetaKeys|] == postmetaKeys;
      r := Null;
    }
  }
}
