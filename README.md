# CF Revision Manager, modelled in Dafny

CF Revision Manager is a WordPress plugin. It lets other plugins register
post-meta keys. Registered metadata is then carried along with post revisions:

- When WordPress saves a revision, the plugin copies each registered key's
  value from the parent post onto the new revision, when that value is
  truthy, once per registry entry (`save_post_revision`).
- When a revision is restored, it copies each truthy revision value back onto
  the post (`restore_post_revision`). An existing truthy value is updated.
  Otherwise the value is added with the `unique` flag, so a value already on
  the post that is present but falsy is left as it is.
- An administration screen lets an operator pick extra keys to track. At `init`
  the registry is rebuilt from the keys registered in code plus the saved
  selection (`register_meta`).

The model has four modules:

- `Php` (php.dfy): PHP values, PHP truthiness, `===`, strict `in_array`,
  `array_unique` and `array_diff`.
- `Metadata` (metadata.dfy): the part of WordPress's metadata API that the
  plugin calls. It is an abstract table from (object id, meta key) to a list
  of values, plus a `MetaStore` class that holds the table and changes it in place.
  - A single read gives the first value, or `""` when there is none.
  - An add appends a value. With `unique` set, it does nothing when the pair
    already holds any value.
  - An update leaves just the new value.

  These are assumptions about WordPress. The plugin's source does not contain them.
- `CfRevisions` (cf_revisions.dfy): the `cf_revisions` object as a class
  `Registry`. Its field is the `postmeta_keys` list; `Register` appends to it.
  The two callbacks are methods with `for` loops that write to the store.
  Each loop is proved equal to a fold, `Snapshot` or `Restore`, over the
  registry list. The lemmas about those folds state what the callbacks do,
  one key at a time.
- `CfRevisionsAdmin` (cf_revisions_admin.dfy): the option cell that holds the
  selection, the excluded, selected and selectable key lists, and a class
  `Admin`. It holds the option and the `$CFR_KEYS_REQUIRED` global, and has
  `SaveSettings`, `RegisterMeta` and the save branch of `RequestHandler`.

Where the intent and the code differ, the model follows the code:

- **Duplicate keys.** The plugin's intent is that registering a key twice is a
  no-op. The guard in `register` compares the key string strictly against the
  stored entries, and those entries are arrays, so it never matches
  (`CfRevisions.RegisterGuardNeverMatches`). The registry list therefore keeps
  duplicates. Only `registered_keys` removes them. A duplicate entry makes a
  snapshot insert the value twice (`CfRevisions.DuplicateEntryInsertsTwice`).
- **Hard-coded `'foo'`.** `register_meta` always registers the key `'foo'`. The
  model does the same, so `'foo'` is always in the required set.

## Model

| member | source | states |
|---|---|---|
| `CfRevisions.Registry.Register` | cf-revision-manager.php:41-46 | It always returns true. It appends exactly one entry (key, display function), even when the key is already registered. It keeps the registry invariant and counts one more registration. |
| `Php.FalsyValues` | cf-revision-manager.php:87 | The values that PHP's boolean conversion treats as false are exactly null, false, 0, `""`, `"0"` and the empty array. Floats and objects are not modelled. |
| `Metadata.GetSingle` | cf-revision-manager.php:109-110 | A single read returns the first stored value of the pair, or `""` (falsy) when the pair has none. |
| `CfRevisions.RegisterGuardNeverMatches` | cf-revision-manager.php:42 | The strict `in_array` guard never matches: a string is never identical to one of the stored entry arrays. |
| `CfRevisions.Registry.HaveKeys` | cf-revision-manager.php:54-56 | True exactly when `Register` has been called at least once. |
| `CfRevisions.Registry.RegisteredKeys` | cf-revision-manager.php:61-70 | It has no duplicates. A key is in it iff some entry of the registry list has that key. The keys come in first-registration order. |
| `Php.ArrayUnique` | cf-revision-manager.php:69 | The result holds the same values as the input, with no duplicates, and is no longer than the input. |
| `Php.ArrayUniqueKeepsFirstOccurrenceOrder` | cf-revision-manager.php:69 | The values of `array_unique` appear in the order of their first occurrences in the input. |
| `CfRevisions.Registry.SavePostRevision` | cf-revision-manager.php:79-92 | If the saved post is not a revision, or no key is registered, it returns false and the table is unchanged. Otherwise it returns null and the table is the snapshot fold of the registry list, from the parent onto the revision. |
| `CfRevisions.SnapshotOnlyTouchesRevision` | cf-revision-manager.php:84-91 | The snapshot changes the values of no object except the revision. In particular the parent is untouched. |
| `CfRevisions.SnapshotRevisionValues` | cf-revision-manager.php:84-91 | For each key, the revision ends up with its old values followed by the parent's value, repeated once per registry entry with that key, when that value is truthy. When it is falsy, nothing is added. This holds for any two ids, the revision being the parent included. |
| `CfRevisions.SnapshotKeepsParentRead` | cf-revision-manager.php:87-88 | During the loop the parent still reads as it did at the start, also when the revision is the parent itself, because only copies of its truthy first value are appended. |
| `CfRevisions.SnapshotSkipsFalsy` | cf-revision-manager.php:87-88 | A revision never gains a value for a key whose value on the parent is falsy. |
| `CfRevisions.DuplicateEntryInsertsTwice` | cf-revision-manager.php:84-88 | With the key `color` registered twice, one snapshot inserts the parent's value twice. |
| `CfRevisions.Registry.RestorePostRevision` | cf-revision-manager.php:101-121 | If no key is registered, it returns false and the table is unchanged. Otherwise it returns null and the table is the restore fold over the registry list. |
| `CfRevisions.RestoreOnlyTouchesPost` | cf-revision-manager.php:106-120 | A restore changes the values of no object except the post. The revision and every other object are untouched. |
| `CfRevisions.RestoreNeverDeletes` | cf-revision-manager.php:106-120 | A restore never removes metadata: a pair that held a value still holds one afterwards. |
| `CfRevisions.RestorePostValues` | cf-revision-manager.php:109-117 | One case: the key is registered, the revision's value is truthy, and the post's value is truthy or absent. Then the post ends with exactly the revision's value. In every other case the post keeps exactly the values it had. This holds for any two ids, the post being the revision included. |
| `CfRevisions.RestoreConfluence` | cf-revision-manager.php:109-117 | The update branch (post value truthy) and the add-unique branch (post value absent) reach the same final state: the single revision value. |
| `CfRevisions.RestoreSkipsFalsyRevisionValue` | cf-revision-manager.php:109 | A key whose revision value is falsy or missing leaves the post's values unchanged. |
| `CfRevisions.RestoreKeepsPresentFalsyValue` | cf-revision-manager.php:114-117 | A value on the post that is present but falsy stays unchanged, because the unique add refuses to add next to it. |
| `Metadata.WithAdded` | cf-revision-manager.php:116 | An add appends the value to the pair's list. With `unique`, it does nothing when the pair already holds a value. No other pair changes. |
| `Metadata.AddUniqueKeepsExisting` | cf-revision-manager.php:116 | A unique add to a pair that holds any value, even a falsy one, leaves the table as it was. |
| `Metadata.WithUpdated` | cf-revision-manager.php:112 | After an update the pair holds exactly the new value, and a single read returns it. No other pair changes. |
| `CfRevisionsAdmin.SelectableKeys` | cf-revision-manager.php:210 | A key is selectable iff it is among the stored meta keys and is neither excluded nor required. Each selectable key keeps its multiplicity. |
| `Php.ArrayDiff` | cf-revision-manager.php:210 | `array_diff` keeps exactly the values of the first list that do not occur in the second, each with its multiplicity. |
| `CfRevisionsAdmin.ExcludedKeys` | cf-revision-manager.php:267-275 | The filter is applied to the list `_edit_last`, `_edit_lock`. A filter that returns its argument yields exactly those two keys. |
| `CfRevisionsAdmin.HousekeepingKeysNeverSelectable` | cf-revision-manager.php:267-275 | With no filter hooked, `_edit_last` and `_edit_lock` are never selectable. |
| `CfRevisionsAdmin.SelectedKeys` | cf-revision-manager.php:277-283 | Nothing saved gives no keys. A saved list (empty included) gives exactly that list. |
| `CfRevisionsAdmin.Admin.SaveSettings` | cf-revision-manager.php:315-317 | It overwrites the option with the given keys, and reading the selection back gives exactly those keys. |
| `CfRevisionsAdmin.Admin.RegisterMeta` | cf-revision-manager.php:285-298 | The registry list becomes the old list, then `'foo'`, then one entry per selected key. The required set is the deduplicated keys after `'foo'` and before any selected key, so it contains `'foo'`. Every selected key and every required key is registered afterwards. |
| `CfRevisionsAdmin.RequiredKeysAreEarlierRegistrations` | cf-revision-manager.php:287-290 | The required set holds `'foo'` and the keys registered before the rebuild. It holds nothing else. |
| `CfRevisionsAdmin.RebuildRegistersSelectionAndRequired` | cf-revision-manager.php:285-298 | After a rebuild every selected key and every required key is registered. With an empty selection, the registered keys are exactly the required ones. |
| `CfRevisionsAdmin.SavedKeysAreRegisteredAfterRebuild` | cf-revision-manager.php:291-296 | A key that was saved as selected is registered after the next rebuild. |
| `CfRevisionsAdmin.Admin.RequestHandler` | cf-revision-manager.php:300-313 | Any action other than the save action is ignored. An unauthorised save dies with the option unchanged. An authorised save stores the submitted keys, or none when the field is missing or not an array, and redirects. |

## Left out

- `post_revision_fields` and `post_revision_field` (cf-revision-manager.php:123-163). They build the review page's HTML around host calls (`maybe_unserialize`, `print_r`, `htmlspecialchars`, `apply_filters`, `$_GET`). That is presentation.
- `admin_form`'s HTML, `admin_menu`, `admin_notices` and `admin_head` (cf-revision-manager.php:198-260, 319-441). This is markup, CSS and a jQuery script. Only the set difference at line 210 is modelled (`SelectableKeys`).
- `meta_keys` (cf-revision-manager.php:183-190) is an SQL query. Its result is a parameter of `SelectableKeys`.
- The `get_instance` singleton, the static registry in `cfr_register_metadata` (cf-revision-manager.php:14-20, 170-175) and the `add_action`/`add_filter` wiring (cf-revision-manager.php:28-38, 444-448). The registry is an explicit object, and the callbacks are called directly.
- The `function_exists('cfr_register_metadata')` test at line 286 always holds, because the function is defined in the same file. It is not modelled.
- `log` (cf-revision-manager.php:177-181) is diagnostic output, switched off by a constant. It does not affect control flow and is not modelled.
- The `cf_revision_manager_excluded_keys` filter is a function parameter of `ExcludedKeys`. A hooked filter can return any list, so only the unfiltered case is stated (`ExcludedKeys`, `HousekeepingKeysNeverSelectable`).
- `request_handler`'s capability and nonce checks are one `authorised` flag. `wp_die` and `wp_redirect` are outcomes of the method.
- WordPress's real metadata functions are not modelled: the rejection of empty keys and non-numeric ids, filters, caching, serialization, and storage failures. The store never fails.
- `add_metadata` and `update_metadata` pass the value through `wp_unslash`, so a value holding backslashes is stored changed. `MetaStore.Add` and `MetaStore.Update` store the value as given.
- The store's update is modelled as leaving one value. `update_metadata` in fact rewrites every stored row of the pair. The difference is invisible to the single reads the plugin performs, but it shows in the full list of values.
- PHP values that are floats or objects are not modelled. Neither are the original array keys that `array_unique` and `array_diff` keep.
- Before `register_meta` runs, `$CFR_KEYS_REQUIRED` is null in PHP. The model starts it as an empty list.
- Concurrency and crashes part-way through a loop are not modelled. Every call runs to completion in one request.
