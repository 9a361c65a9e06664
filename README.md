# Data Catalog facade: upsert and reconciliation policy

The connectors' commons library puts a facade, `DataCatalogFacade`, in front
of the Google Cloud Data Catalog client. Connectors hand it the entries and
tags they built from a source system. The facade reconciles them with what
the catalog already holds:

- An entry is looked up by name. If it is absent it is created. If it is
  present it is updated, but only when the source system's update time moved
  or one of five compared fields differs. A permission error at lookup means
  "does not exist". A failed-precondition error is logged and swallowed.
- The tags of an entry are listed once. Each incoming tag is matched to the
  persisted tags by template. It is then created, updated in place under the
  persisted tag's name, or left alone when its fields agree.

`ValuesComparableObject` is the attribute bag the entry comparison uses:
two instances are equal exactly when their attribute dictionaries are.

The model has five modules:

- `ValuesComparable`: the attribute bag, as a class over a `map`.
- `CatalogService`: the records the facade reads (`Entry`, `Tag`,
  `TagField`, `SearchResult`) and an in-memory stand-in for the remote
  service, the class `DataCatalogClient`. The client holds the entries, the
  tags of each entry, a fixed table of injected failures (so that every
  error path the facade routes can be reached), and a log of every request
  sent. A get, update or delete of an absent entry, and an update of an
  absent tag, are answered with PERMISSION_DENIED. Creating an existing
  entry name, or a second tag of a template, is answered with
  ALREADY_EXISTS (`Other`). Listing or creating tags does not check that
  the parent entry exists.
- `EntryPolicy`: the update decision (`NeedsUpdate`) and the effect of
  create and upsert (`CreateEntryEffect`, `UpsertEntryEffect`), as pure
  functions of the catalog state and the fault table.
- `TagPolicy`: the field comparison (`FieldsMatch`), the per-tag decision
  (`Decide`, a fold over the persisted tags), the plan for a list of tags
  and its run against the service (`RunActions`), and the whole tag upsert
  (`UpsertTagsEffect`).
- `Facade`: the `DataCatalogFacade` class. Its methods call the client step
  by step as the source does, and are proved equal to the policy functions.

## Model

| member | source | states |
|---|---|---|
| ValuesComparable.ValuesComparableObject.constructor | google-datacatalog-connectors-commons/src/google/datacatalog_connectors/commons/utils/values_comparable_object.py:18-32 | a new bag has no attributes; every key reads as KeyError |
| ValuesComparable.ValuesComparableObject.SetItem | google-datacatalog-connectors-commons/src/google/datacatalog_connectors/commons/utils/values_comparable_object.py:20-21 | setting an item binds the key to the value and leaves every other key as it read before |
| ValuesComparable.ValuesComparableObject.GetItem | google-datacatalog-connectors-commons/src/google/datacatalog_connectors/commons/utils/values_comparable_object.py:23-24 | reading an item succeeds exactly when the key was set, and then gives the bound value; otherwise KeyError |
| ValuesComparable.ValuesComparableObject.Equals | google-datacatalog-connectors-commons/src/google/datacatalog_connectors/commons/utils/values_comparable_object.py:26-32 | a bag equals itself; anything that is not a bag is never equal |
| ValuesComparable.EqualsSymmetric | google-datacatalog-connectors-commons/src/google/datacatalog_connectors/commons/utils/values_comparable_object.py:26-32 | equality between bags is symmetric |
| ValuesComparable.EqualsTransitive | google-datacatalog-connectors-commons/src/google/datacatalog_connectors/commons/utils/values_comparable_object.py:26-32 | equality between bags is transitive |
| ValuesComparable.EqualsIffSameItems | google-datacatalog-connectors-commons/src/google/datacatalog_connectors/commons/utils/values_comparable_object.py:20-32 | two bags are equal if and only if every key reads the same item (value or KeyError) in both |
| Facade.DataCatalogFacade.constructor | datacatalog-connectors-commons/src/google/datacatalog_connectors/commons/datacatalog_facade.py:29-31 | the facade keeps the project id and the client it is given |
| Facade.DataCatalogFacade.CreateEntry | datacatalog-connectors-commons/src/google/datacatalog_connectors/commons/datacatalog_facade.py:33-52 | sends one create request; the result and the new catalog state are those of `CreateEntryEffect` |
| EntryPolicy.CreateEntryEffect | datacatalog-connectors-commons/src/google/datacatalog_connectors/commons/datacatalog_facade.py:41-52 | creation sends exactly one create request and never raises PERMISSION_DENIED |
| EntryPolicy.CreateDeniedReturnsInput | datacatalog-connectors-commons/src/google/datacatalog_connectors/commons/datacatalog_facade.py:46-52 | when the service denies the creation, the caller's entry is returned unchanged and the catalog is unchanged |
| EntryPolicy.CreateNewEntryStoresIt | datacatalog-connectors-commons/src/google/datacatalog_connectors/commons/datacatalog_facade.py:41-45 | creating a new name stores the entry under `{group}/entries/{id}` and returns the stored copy |
| EntryPolicy.CreateOtherFailurePropagates | datacatalog-connectors-commons/src/google/datacatalog_connectors/commons/datacatalog_facade.py:41-52 | any creation failure other than permission denied, failed precondition included, reaches the caller with the catalog unchanged after the one create request |
| Facade.DataCatalogFacade.GetEntry | datacatalog-connectors-commons/src/google/datacatalog_connectors/commons/datacatalog_facade.py:54-60 | sends one get request and returns the service's answer, catalog unchanged |
| Facade.DataCatalogFacade.UpdateEntry | datacatalog-connectors-commons/src/google/datacatalog_connectors/commons/datacatalog_facade.py:62-70 | sends one update request; a success replaces the entry, a failure propagates with the catalog unchanged |
| Facade.DataCatalogFacade.UpsertEntry | datacatalog-connectors-commons/src/google/datacatalog_connectors/commons/datacatalog_facade.py:72-102 | the get, then update or create, calls made in that order; the result, the new catalog state and the requests sent are those of `UpsertEntryEffect` |
| EntryPolicy.UpsertEntryEffect | datacatalog-connectors-commons/src/google/datacatalog_connectors/commons/datacatalog_facade.py:82-102 | an upsert sends one to three requests, the first always the lookup of `{group}/entries/{id}` |
| CatalogService.EntryName | datacatalog-connectors-commons/src/google/datacatalog_connectors/commons/datacatalog_facade.py:83 | an entry's resource name is the group's name, then the separator `/entries/`, then the entry id |
| EntryPolicy.UpsertDeniedLookupCreates | datacatalog-connectors-commons/src/google/datacatalog_connectors/commons/datacatalog_facade.py:84-97 | a lookup denied for permission is followed by exactly the create path |
| EntryPolicy.UpsertAbsentEntryCreatesOnce | datacatalog-connectors-commons/src/google/datacatalog_connectors/commons/datacatalog_facade.py:84-97 | for an absent entry the requests are exactly [get, create] |
| EntryPolicy.UpsertUnchangedReturnsPersisted | datacatalog-connectors-commons/src/google/datacatalog_connectors/commons/datacatalog_facade.py:85-91 | a persisted entry that needs no update is returned as persisted; only the get is sent and nothing changes |
| EntryPolicy.UpsertChangedUpdatesOnce | datacatalog-connectors-commons/src/google/datacatalog_connectors/commons/datacatalog_facade.py:85-88 | a persisted entry that needs an update gets exactly one update after the get; if the update succeeds the incoming entry is stored and returned |
| EntryPolicy.UpsertPreconditionReturnsInput | datacatalog-connectors-commons/src/google/datacatalog_connectors/commons/datacatalog_facade.py:82-102 | a lookup failing with FAILED_PRECONDITION returns the incoming entry and changes nothing |
| EntryPolicy.UpsertPreconditionOnUpdateReturnsPersisted | datacatalog-connectors-commons/src/google/datacatalog_connectors/commons/datacatalog_facade.py:85-102 | an update failing with FAILED_PRECONDITION returns the persisted entry and changes nothing |
| EntryPolicy.UpsertDeniedUpdateCreates | datacatalog-connectors-commons/src/google/datacatalog_connectors/commons/datacatalog_facade.py:84-97 | an update denied for permission falls through to creation, after the get and the update |
| EntryPolicy.UpsertNeverRaisesPermissionDenied | datacatalog-connectors-commons/src/google/datacatalog_connectors/commons/datacatalog_facade.py:84-97 | no path of an upsert surfaces PERMISSION_DENIED to the caller |
| EntryPolicy.UpsertOtherFailurePropagates | datacatalog-connectors-commons/src/google/datacatalog_connectors/commons/datacatalog_facade.py:84-102 | a lookup or update raising anything but permission denied or failed precondition reaches the caller after [get] or [get, update] with the catalog unchanged; a non-permission creation failure on either path to creation does too |
| EntryPolicy.UpsertDisplayNameChangeScenario | datacatalog-connectors-commons/src/google/datacatalog_connectors/commons/datacatalog_facade.py:85-88 | a persisted entry whose display name differs from the incoming one, with no timestamps, is updated |
| EntryPolicy.NeedsUpdate | datacatalog-connectors-commons/src/google/datacatalog_connectors/commons/datacatalog_facade.py:104-117 | the change test of the update time and the five compared fields: no update is needed only when the incoming entry equals the persisted one apart from name and update time, and an entry that differs only in its name needs none |
| EntryPolicy.SameComparedFields | datacatalog-connectors-commons/src/google/datacatalog_connectors/commons/datacatalog_facade.py:119-135 | entry equality on system, type, display name, description and linked resource: holds exactly when the entries differ at most in name and update time |
| Facade.DataCatalogFacade.EntryWasUpdated | datacatalog-connectors-commons/src/google/datacatalog_connectors/commons/datacatalog_facade.py:104-117 | an update is needed exactly when the incoming update time is non-zero and differs from the persisted one, or the compared fields differ |
| EntryPolicy.ZeroTimestampSameFieldsNeedsNoUpdate | datacatalog-connectors-commons/src/google/datacatalog_connectors/commons/datacatalog_facade.py:113-117 | an incoming update time of 0 never by itself triggers an update |
| EntryPolicy.NeedsUpdateIgnoresName | datacatalog-connectors-commons/src/google/datacatalog_connectors/commons/datacatalog_facade.py:119-135 | the entry name is not among the compared fields |
| EntryPolicy.NeedsUpdateIrreflexive | datacatalog-connectors-commons/src/google/datacatalog_connectors/commons/datacatalog_facade.py:104-135 | an entry never needs an update against itself |
| Facade.DataCatalogFacade.ComparableEntry | datacatalog-connectors-commons/src/google/datacatalog_connectors/commons/datacatalog_facade.py:121-126 | a fresh bag holding exactly the five compared fields under their attribute names |
| Facade.DataCatalogFacade.EntriesAreEqual | datacatalog-connectors-commons/src/google/datacatalog_connectors/commons/datacatalog_facade.py:119-135 | two entries compare equal if and only if system, type, display name, description and linked resource all agree |
| Facade.DataCatalogFacade.DeleteEntry | datacatalog-connectors-commons/src/google/datacatalog_connectors/commons/datacatalog_facade.py:137-149 | sends one delete request; the entry is removed or, on any error, nothing changes; no error reaches the caller |
| Facade.DataCatalogFacade.CreateTag | datacatalog-connectors-commons/src/google/datacatalog_connectors/commons/datacatalog_facade.py:215-222 | sends one create-tag request; the answer and the new tag state are the service's |
| Facade.DataCatalogFacade.ListTags | datacatalog-connectors-commons/src/google/datacatalog_connectors/commons/datacatalog_facade.py:224-230 | sends one list request and returns the entry's tags, state unchanged |
| Facade.DataCatalogFacade.UpdateTag | datacatalog-connectors-commons/src/google/datacatalog_connectors/commons/datacatalog_facade.py:232-238 | sends one update-tag request; the answer and the new tag state are the service's |
| Facade.DataCatalogFacade.UpsertTags | datacatalog-connectors-commons/src/google/datacatalog_connectors/commons/datacatalog_facade.py:240-270 | the result, the new tag state, the requests sent and the renamed input tags are those of `UpsertTagsEffect` |
| Facade.DataCatalogFacade.ProcessTags | datacatalog-connectors-commons/src/google/datacatalog_connectors/commons/datacatalog_facade.py:251-270 | the loop over the input tags performs exactly the run of the plan against the single listing, stopping at the first error |
| Facade.DataCatalogFacade.CarryOut | datacatalog-connectors-commons/src/google/datacatalog_connectors/commons/datacatalog_facade.py:263-270 | one pass of the outer loop carries out the decided action: the create or update call (none when up to date) and its effect are exactly `ActionStep` |
| Facade.DataCatalogFacade.MatchPersisted | datacatalog-connectors-commons/src/google/datacatalog_connectors/commons/datacatalog_facade.py:254-262 | the inner loop over the persisted tags computes `Decide` |
| Facade.DataCatalogFacade.TagsFieldsAreEqual | datacatalog-connectors-commons/src/google/datacatalog_connectors/commons/datacatalog_facade.py:272-294 | the early-exit loop over the first tag's field ids computes `FieldsMatch` |
| TagPolicy.FieldOf | datacatalog-connectors-commons/src/google/datacatalog_connectors/commons/datacatalog_facade.py:274-276 | the field a tag holds under an id, or the all-default field when it holds none |
| TagPolicy.SameFieldValue | datacatalog-connectors-commons/src/google/datacatalog_connectors/commons/datacatalog_facade.py:278-289 | two fields agree on bool, double, string, timestamp seconds and enum display name: exactly when they are equal apart from the timestamp's nanoseconds |
| TagPolicy.FieldsMatch | datacatalog-connectors-commons/src/google/datacatalog_connectors/commons/datacatalog_facade.py:273-294 | the comparison visits the first tag's field ids only: a tag whose fields all appear unchanged in the other tag matches it |
| TagPolicy.ScanPersisted | datacatalog-connectors-commons/src/google/datacatalog_connectors/commons/datacatalog_facade.py:256-261 | the inner loop over persisted tags: the template is found if and only if some persisted tag has it; when it is not, no difference is recorded and the name is kept |
| TagPolicy.Decide | datacatalog-connectors-commons/src/google/datacatalog_connectors/commons/datacatalog_facade.py:254-270 | a tag is created if and only if no persisted tag has its template, and is then sent as given; every action carries the input tag with at most its name changed |
| TagPolicy.ActionStep | datacatalog-connectors-commons/src/google/datacatalog_connectors/commons/datacatalog_facade.py:263-268 | taking up one tag: its request (none when up to date) is appended; a successful create stores the input tag as given, under the name the service derives from entry and template; a successful update replaces the stored tag of the persisted name with the input tag, which carries that name and the input fields; a failing call leaves the tag store unchanged, and an up-to-date tag changes nothing but the count |
| TagPolicy.PlannedRequests | datacatalog-connectors-commons/src/google/datacatalog_connectors/commons/datacatalog_facade.py:263-270 | the requests of the loop when no call fails: at most one per tag and never a listing |
| TagPolicy.RunActions | datacatalog-connectors-commons/src/google/datacatalog_connectors/commons/datacatalog_facade.py:251-270 | the loop over the input tags, stopping at the first failure: a completed run takes up every tag, a failed one at least one and never more than given |
| TagPolicy.UpsertTagsEffect | datacatalog-connectors-commons/src/google/datacatalog_connectors/commons/datacatalog_facade.py:240-270 | the tag upsert yields one output tag per input tag, each only renamed, and any failure comes after the listing |
| TagPolicy.NoFieldsMatchesAnything | datacatalog-connectors-commons/src/google/datacatalog_connectors/commons/datacatalog_facade.py:273-294 | a tag with no fields matches every tag |
| TagPolicy.FieldsMatchIsNotSymmetric | datacatalog-connectors-commons/src/google/datacatalog_connectors/commons/datacatalog_facade.py:273-294 | the field comparison is one-sided: some pair matches one way and not the other |
| TagPolicy.DefaultFieldMatchesAbsentField | datacatalog-connectors-commons/src/google/datacatalog_connectors/commons/datacatalog_facade.py:274-276 | a field holding only defaults matches a field the other tag does not have |
| TagPolicy.NanosAreIgnored | datacatalog-connectors-commons/src/google/datacatalog_connectors/commons/datacatalog_facade.py:284-286 | timestamps are compared on seconds only: changing the nanoseconds of a field keeps the tags matching |
| TagPolicy.FieldsMatchReflexive | datacatalog-connectors-commons/src/google/datacatalog_connectors/commons/datacatalog_facade.py:273-294 | tags with the same fields match |
| TagPolicy.ScanCharacterised | datacatalog-connectors-commons/src/google/datacatalog_connectors/commons/datacatalog_facade.py:256-261 | the scan over persisted tags: matched iff some persisted tag has the template; differs iff some such tag's fields differ; the name is that of the last such tag, or unchanged |
| TagPolicy.DecideCharacterised | datacatalog-connectors-commons/src/google/datacatalog_connectors/commons/datacatalog_facade.py:254-270 | create if and only if no persisted tag has the template; update if and only if some persisted tag of the template differs; a created tag keeps its name, any other takes the last matching persisted name |
| TagPolicy.MatchingTagIsUpToDate | datacatalog-connectors-commons/src/google/datacatalog_connectors/commons/datacatalog_facade.py:256-270 | a tag whose template is persisted and whose fields match every persisted tag of that template is left alone |
| TagPolicy.Plan | datacatalog-connectors-commons/src/google/datacatalog_connectors/commons/datacatalog_facade.py:249-262 | every input tag is decided against the one listing taken before the loop |
| TagPolicy.ActionRequests | datacatalog-connectors-commons/src/google/datacatalog_connectors/commons/datacatalog_facade.py:263-270 | each tag sends at most one request, and none exactly when it is up to date |
| TagPolicy.UpToDateTagSendsNothing | datacatalog-connectors-commons/src/google/datacatalog_connectors/commons/datacatalog_facade.py:256-270 | a tag whose fields match every persisted tag of its template sends no request |
| TagPolicy.Renamed | datacatalog-connectors-commons/src/google/datacatalog_connectors/commons/datacatalog_facade.py:251-259 | the input tags after processing: those taken up carry their decided name, the rest are as given |
| TagPolicy.RunActionsShape | datacatalog-connectors-commons/src/google/datacatalog_connectors/commons/datacatalog_facade.py:251-270 | a run's requests are exactly those of the tags it took up |
| TagPolicy.RunActionsExtend | datacatalog-connectors-commons/src/google/datacatalog_connectors/commons/datacatalog_facade.py:251-270 | a run that has not failed goes on with the next tag |
| TagPolicy.RenamedExtend | datacatalog-connectors-commons/src/google/datacatalog_connectors/commons/datacatalog_facade.py:259 | taking up one more tag renames exactly that tag |
| TagPolicy.RunStopsAtFailure | datacatalog-connectors-commons/src/google/datacatalog_connectors/commons/datacatalog_facade.py:263-268 | once a create or update raises, the remaining tags change nothing and send nothing |
| TagPolicy.EmptyTagsSendNothing | datacatalog-connectors-commons/src/google/datacatalog_connectors/commons/datacatalog_facade.py:246-247 | with no input tags no request is sent, not even the listing |
| TagPolicy.UpsertTagsListsOnce | datacatalog-connectors-commons/src/google/datacatalog_connectors/commons/datacatalog_facade.py:246-270 | otherwise the tags are listed once, first, followed by at most one request per input tag |
| TagPolicy.UpsertTagsCompleted | datacatalog-connectors-commons/src/google/datacatalog_connectors/commons/datacatalog_facade.py:249-270 | a completed upsert sends the listing then exactly the plan's requests, and every input tag carries its decided name |
| Facade.RelativeResourceNames | datacatalog-connectors-commons/src/google/datacatalog_connectors/commons/datacatalog_facade.py:310-320 | one name per search result, in order, each the result's relative resource name |

## Left out

- The Google Cloud client library and the network are replaced by `DataCatalogClient`, an in-memory catalog with a fixed table of injected failures. Retries, paging, update masks and server-side validation are not modelled.
- Logging (`__log_entry_operation` and the `logging` calls) has no effect on the modelled state and is left out.
- `create_entry_group`, `delete_entry_group`, `create_tag_template`, `get_tag_template` and `delete_tag_template` are one-line pass-throughs to resources the reconciliation policy never reads; they are not part of this model.
- `search_catalog` builds a scoped request for the client library. Its results are taken as given; only the projection to resource names (`RelativeResourceNames`) is modelled.
- Facade.DataCatalogFacade.constructor: takes the client as a parameter instead of building one; the project id is kept but unused, since only the left-out pass-throughs read it.
- Double-valued tag fields are modelled as `real`, so NaN and rounding are not represented.
- Reading an absent key from a protobuf message map inserts a default value into it. The model reads a default without changing the tag.
- Facade.DataCatalogFacade.UpsertTags: the source renames each input tag in place, so callers holding the tag objects see the new names. The model is on values: it returns the renamed tags as `processedTags`, and aliasing between tags is not captured.
- Facade.DataCatalogFacade.ProcessTags: every input tag is matched against the same `persistedTags` sequence, so the model takes the one listing as a list that can be read again for each input tag. Whether the client library's `list_tags` result can be read more than once is outside the modelled code; a one-shot iterator would be read only for the first input tag.
- Facade.DataCatalogFacade.UpsertTags: `if tag_to_create:` tests a protobuf message's truth value. The model takes it as "is not None", which is how protobuf messages behave.
- Facade.DataCatalogFacade.UpsertTags: the source returns nothing and lets errors propagate. The model returns `Ok(())` or the error raised by the listing or by the first failing create or update.
- `ValuesComparableObject` holds any Python values; the model's values are strings, the only kind entry comparison stores.
- A created tag's name is derived by the model's service from its entry and template; the real service assigns an opaque id.
- The stand-in service answers a tag listing for an absent entry with an empty list and accepts a tag created on an absent entry; the real service refuses both, so the model's tag upsert on a missing entry creates every input tag instead of failing at the listing.
- `EntryName` formats entry names as `{group}/entries/{id}`; entry names are plain strings and no resource-name parsing is modelled.
