/** The set computations of `cf_revisions_admin`: which keys are excluded,
    which the administrator selected, which are selectable, and how the
    registry is rebuilt from the mandatory and selected keys. */
module CfRevisionsAdmin {
  import opened Php
  import opened CfRevisions

  /** The stored option `cf_revision_manager_meta_keys`: never saved, or the
      list of keys last saved. */
  datatype OptionCell = Unset | Stored(keys: seq<string>)

  /** What the settings request carried, as far as the handler looks at it. */
  datatype Request = Request(action: Option<string>, authorised: bool, submittedKeys: Option<seq<string>>)

  datatype Option<T> = None | Some(value: T)

  /** How the settings request handler ends. */
  datatype Outcome = Ignored | Died | Redirected

  /** The built-in exclusions, before the `cf_revision_manager_excluded_keys` filter runs. */
  const DefaultExcludedKeys: seq<string> := ["_edit_last", "_edit_lock"]

  /** The key registered unconditionally by `register_meta`. */
  const HardCodedKey: string := "foo"

  /** `excluded_keys`: the built-in exclusions passed through the filter,
      which callers may hook to change the list. */
  function ExcludedKeys(filter: seq<string> -> seq<string>): (r: seq<string>)
    ensures filter(DefaultExcludedKeys) == DefaultExcludedKeys ==>
              "_edit_last" in r && "_edit_lock" in r && |r| == 2
  {
    filter(DefaultExcludedKeys)
  }

  /** `selected_keys`: the saved list, or no keys when nothing (or an empty
      list) was saved. */
  function SelectedKeys(option: OptionCell): (r: seq<string>)
    ensures option.Unset? ==> r == []
    ensures option.Stored? ==> r == option.keys
  {
    match option
    case Unset => []
    case Stored(keys) => if |keys| == 0 then [] else keys
  }

  /** The selectable keys of the settings form: every key found in the
      post-meta table that is neither excluded nor required. */
  function SelectableKeys(metaKeys: seq<string>, excluded: seq<string>, required: seq<string>): (r: seq<string>)
    ensures forall x :: x in r <==> x in metaKeys && x !in excluded && x !in required
    ensures forall x :: x in r ==> multiset(r)[x] == multiset(metaKeys)[x]
  {
    ArrayDiff(metaKeys, excluded + required)
  }

  /** With no filter hooked, the housekeeping keys are never selectable. */
  lemma HousekeepingKeysNeverSelectable(metaKeys: seq<string>, required: seq<string>)
    ensures var r := SelectableKeys(metaKeys, ExcludedKeys(ks => ks), required);
            "_edit_last" !in r && "_edit_lock" !in r
  {
    assert "_edit_last" in ExcludedKeys(ks => ks) && "_edit_lock" in ExcludedKeys(ks => ks);
  }

  /** Registry entries for keys registered without a display function. */
  function EntriesFor(keys: seq<string>): (es: seq<Entry>)
    ensures Keys(es) == keys
  {
    var es := seq(|keys|, i requires 0 <= i < |keys| => Entry(keys[i], ""));
    assert Keys(es) == keys;
    es
  }

  /** The registry list after `register_meta` has run on `before`. */
  function Rebuilt(before: seq<Entry>, option: OptionCell): seq<Entry> {
    before + [Entry(HardCodedKey, "")] + EntriesFor(SelectedKeys(option))
  }

  /** The required keys `register_meta` records: the registered keys once
      the hard-coded key is in and before any selected key is. */
  function RequiredAfter(before: seq<Entry>): seq<string> {
    ArrayUnique(Keys(before + [Entry(HardCodedKey, "")]))
  }

  /** The required set holds the hard-coded key and every key registered
      before the rebuild, and nothing else. */
  lemma RequiredKeysAreEarlierRegistrations(before: seq<Entry>)
    ensures HardCodedKey in RequiredAfter(before)
    ensures forall k :: k in RequiredAfter(before) <==> k == HardCodedKey || k in Keys(before)
  {
    KeysAppend(before, [Entry(HardCodedKey, "")]);
    assert Keys(before + [Entry(HardCodedKey, "")]) == Keys(before) + [HardCodedKey];
  }

  /** After a rebuild every selected key and every required key is
      registered; an empty selection registers the required keys alone. */
  lemma RebuildRegistersSelectionAndRequired(before: seq<Entry>, option: OptionCell)
    ensures var registered := ArrayUnique(Keys(Rebuilt(before, option)));
            && (forall k :: k in SelectedKeys(option) ==> k in registered)
            && (forall k :: k in RequiredAfter(before) ==> k in registered)
    ensures SelectedKeys(option) == [] ==>
              forall k :: k in ArrayUnique(Keys(Rebuilt(before, option))) <==> k in RequiredAfter(before)
  {
    var head := before + [Entry(HardCodedKey, "")];
    assert Rebuilt(before, option) == head + EntriesFor(SelectedKeys(option));
    KeysAppend(head, EntriesFor(SelectedKeys(option)));
    if SelectedKeys(option) == [] {
      assert Rebuilt(before, option) == head;
    }
  }

  /** Saving a selection and rebuilding registers each saved key. */
  lemma SavedKeysAreRegisteredAfterRebuild(before: seq<Entry>, saved: seq<string>, k: string)
    requires k in saved
    ensures k in ArrayUnique(Keys(Rebuilt(before, Stored(saved))))
  {
    RebuildRegistersSelectionAndRequired(before, Stored(saved));
  }

  /** The administration side: the stored option and the global that
      records the required keys. */
  class Admin {
    var metaKeysOption: OptionCell
    /** The global `$CFR_KEYS_REQUIRED`. */
    var requiredKeys: seq<string>

    constructor (stored: OptionCell)
      ensures metaKeysOption == stored && requiredKeys == []
    {
      metaKeysOption := stored;
      requiredKeys := [];
    }

    /** `save_settings`: overwrite the stored selection. */
    method SaveSettings(keys: seq<string>)
      modifies this`metaKeysOption
      ensures metaKeysOption == Stored(keys)
      ensures SelectedKeys(metaKeysOption) == keys
    {
      metaKeysOption := Stored(keys);
    }

    /** `register_meta`: register the hard-coded key, record the registered
        keys as the required set, then register every selected key. */
    method RegisterMeta(cfr: Registry)
      requires cfr.Valid()
      modifies this`requiredKeys, cfr
      ensures cfr.Valid()
      ensures requiredKeys == RequiredAfter(old(cfr.postmetaKeys))
      ensures cfr.postmetaKeys == Rebuilt(old(cfr.postmetaKeys), metaKeysOption)
      ensures HardCodedKey in requiredKeys
      ensures forall k :: k in SelectedKeys(metaKeysOption) ==> k in cfr.RegisteredKeys()
      ensures forall k :: k in requiredKeys ==> k in cfr.RegisteredKeys()
    {
      var ok := cfr.Register(HardCodedKey);
      requiredKeys := cfr.RegisteredKeys();
      var keys := SelectedKeys(metaKeysOption);
      ghost var head := cfr.postmetaKeys;
      for i := 0 to |keys|
        invariant cfr.Valid()
        invariant cfr.postmetaKeys == head + EntriesFor(keys[..i])
        invariant requiredKeys == RequiredAfter(old(cfr.postmetaKeys))
      {
        ok := cfr.Register(keys[i]);
        assert EntriesFor(keys[..i + 1]) == EntriesFor(keys[..i]) + [Entry(keys[i], "")];
      }
      assert keys[..|keys|] == keys;
      RequiredKeysAreEarlierRegistrations(old(cfr.postmetaKeys));
      RebuildRegistersSelectionAndRequired(old(cfr.postmetaKeys), metaKeysOption);
    }

    /** `request_handler`: a save request from a principal that lacks the
        capability or the nonce dies before any state changes; an
        authorised one saves the submitted keys (none when the field is
        missing) and redirects. */
    method RequestHandler(request: Request) returns (outcome: Outcome)
      modifies this`metaKeysOption
      ensures request.action != Some("cfr_save_keys") ==>
                outcome == Ignored && metaKeysOption == old(metaKeysOption)
      ensures request.action == Some("cfr_save_keys") && !request.authorised ==>
                outcome == Died && metaKeysOption == old(metaKeysOption)
      ensures request.action == Some("cfr_save_keys") && request.authorised ==>
                outcome == Redirected &&
                metaKeysOption == Stored(if request.submittedKeys.Some? then request.submittedKeys.value else [])
    {
      if request.action != Some("cfr_save_keys") {
        return Ignored;
      }
      if !request.authorised {
        return Died;
      }
      var keys := if request.submittedKeys.Some? then request.submittedKeys.value else [];
      SaveSettings(keys);
      outcome := Redirected;
    }
  }
}
