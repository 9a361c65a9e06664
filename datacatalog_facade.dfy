/** The Data Catalog facade: upserts, creation and deletion of entries, tag
    upserts and the projection of search results, over a client handle and
    a project id fixed at construction.
 */
module Facade {
  import opened CatalogService
  import opened ValuesComparable
  import opened EntryPolicy
  import opened TagPolicy

  /** The attribute names entry comparison stores the five fields under. */
  const SystemAttribute := "user_specified_system"
  const TypeAttribute := "user_specified_type"
  const DisplayNameAttribute := "display_name"
  const DescriptionAttribute := "description"
  const LinkedResourceAttribute := "linked_resource"

  /** `search_catalog_relative_resource_name`: the search results' resource
      names, one per result, in the results' order. */
  function RelativeResourceNames(results: seq<SearchResult>): (names: seq<string>)
    ensures |names| == |results|
    ensures forall i :: 0 <= i < |results| ==> names[i] == results[i].relativeResourceName
  {
    seq(|results|, i requires 0 <= i < |results| => results[i].relativeResourceName)
  }

  class DataCatalogFacade {
    const projectId: string
    const client: DataCatalogClient

    constructor (projectId: string, client: DataCatalogClient)
      ensures this.projectId == projectId && this.client == client
    {
      this.projectId := projectId;
      this.client := client;
    }

    // -------------------------------------------------------------------
    // Entries

    /** Creates an entry; a permission-denied creation returns the input. */
    method CreateEntry(group: string, entryId: string, entry: Entry) returns (r: Outcome<Entry>)
      modifies client`requests, client`entries
      ensures var e := CreateEntryEffect(old(client.entries), client.faults, group, entryId, entry);
              r == e.result && client.entries == e.entries && client.requests == old(client.requests) + e.requests
    {
      var created := client.CreateEntry(group, entryId, entry);
      match created
      case Ok(stored) => r := Ok(stored);
      case Raised(PermissionDenied()) => r := Ok(entry);
      case Raised(failure) => r := Raised(failure);
    }

    method GetEntry(name: string) returns (r: Outcome<Entry>)
      modifies client`requests
      ensures client.requests == old(client.requests) + [GetEntryRequest(name)]
      ensures r == GetEntryResult(client.entries, client.faults, name)
    {
      r := client.GetEntry(name);
    }

    method UpdateEntry(entry: Entry) returns (r: Outcome<Entry>)
      modifies client`requests, client`entries
      ensures client.requests == old(client.requests) + [UpdateEntryRequest(entry.name)]
      ensures Reply(r, client.entries) == UpdateEntryResult(old(client.entries), client.faults, entry)
    {
      r := client.UpdateEntry(entry);
    }

    /** Updates the entry if it exists and changed, creates it if the
        lookup is denied, and returns the input if the lookup fails a
        precondition. */
    method UpsertEntry(group: string, entryId: string, entry: Entry) returns (r: Outcome<Entry>)
      modifies client`requests, client`entries
      ensures var e := UpsertEntryEffect(old(client.entries), client.faults, group, entryId, entry);
              r == e.result && client.entries == e.entries && client.requests == old(client.requests) + e.requests
    {
      var persistedEntry := entry;
      var entryName := EntryName(group, entryId);
      var fetched := GetEntry(entryName);
      match fetched {
        case Ok(persisted) =>
          persistedEntry := persisted;
          var changed := EntryWasUpdated(persisted, entry);
          if changed {
            var updated := UpdateEntry(entry);
            match updated {
              case Ok(stored) =>
                persistedEntry := stored;
              case Raised(PermissionDenied()) =>
                r := CreateEntry(group, entryId, entry);
                return;
              case Raised(FailedPrecondition()) =>
              case Raised(Other()) =>
                r := Raised(Other);
                return;
            }
          }
        case Raised(PermissionDenied()) =>
          r := CreateEntry(group, entryId, entry);
          return;
        case Raised(FailedPrecondition()) =>
        case Raised(Other()) =>
          r := Raised(Other);
          return;
      }
      r := Ok(persistedEntry);
    }

    /** Whether the incoming entry differs from the persisted one. */
    static method EntryWasUpdated(current: Entry, incoming: Entry) returns (updated: bool)
      ensures updated <==>
                || (incoming.updateTimeSeconds != 0 && incoming.updateTimeSeconds != current.updateTimeSeconds)
                || current.userSpecifiedSystem != incoming.userSpecifiedSystem
                || current.userSpecifiedType != incoming.userSpecifiedType
                || current.displayName != incoming.displayName
                || current.description != incoming.description
                || current.linkedResource != incoming.linkedResource
    {
      var updatedTimeChanged := incoming.updateTimeSeconds != 0 && current.updateTimeSeconds != incoming.updateTimeSeconds;
      var equal := EntriesAreEqual(current, incoming);
      updated := updatedTimeChanged || !equal;
    }

    /** The five compared fields of an entry in a fresh attribute bag. The
        source assigns them as attributes; `SetItem` writes the same
        `__dict__` entry, so the bag ends up the same. */
    static method ComparableEntry(entry: Entry) returns (bag: ValuesComparableObject)
      ensures fresh(bag)
      ensures bag.attributes == map[
                SystemAttribute := entry.userSpecifiedSystem,
                TypeAttribute := entry.userSpecifiedType,
                DisplayNameAttribute := entry.displayName,
                DescriptionAttribute := entry.description,
                LinkedResourceAttribute := entry.linkedResource]
    {
      bag := new ValuesComparableObject();
      bag.SetItem(SystemAttribute, entry.userSpecifiedSystem);
      bag.SetItem(TypeAttribute, entry.userSpecifiedType);
      bag.SetItem(DisplayNameAttribute, entry.displayName);
      bag.SetItem(DescriptionAttribute, entry.description);
      bag.SetItem(LinkedResourceAttribute, entry.linkedResource);
    }

    /** Entry equality through two attribute bags: equal exactly when the
        five compared fields are pairwise equal. */
    static method EntriesAreEqual(entry1: Entry, entry2: Entry) returns (equal: bool)
      ensures equal <==> SameComparedFields(entry1, entry2)
    {
      var object1 := ComparableEntry(entry1);
      var object2 := ComparableEntry(entry2);
      equal := object1.Equals(object2);
      if equal {
        assert object1.attributes[SystemAttribute] == object2.attributes[SystemAttribute];
        assert object1.attributes[TypeAttribute] == object2.attributes[TypeAttribute];
        assert object1.attributes[DisplayNameAttribute] == object2.attributes[DisplayNameAttribute];
        assert object1.attributes[DescriptionAttribute] == object2.attributes[DescriptionAttribute];
        assert object1.attributes[LinkedResourceAttribute] == object2.attributes[LinkedResourceAttribute];
      }
    }

    /** Deletes an entry; no failure escapes. */
    method DeleteEntry(name: string)
      modifies client`requests, client`entries
      ensures client.requests == old(client.requests) + [DeleteEntryRequest(name)]
      ensures client.entries == old(client.entries) - {name} || client.entries == old(client.entries)
      ensures client.entries == DeleteEntryResult(old(client.entries), client.faults, name).state
    {
      var deleted := client.DeleteEntry(name);
    }

    // -------------------------------------------------------------------
    // Tags

    method ListTags(entryName: string) returns (r: Outcome<seq<Tag>>)
      modifies client`requests
      ensures client.requests == old(client.requests) + [ListTagsRequest(entryName)]
      ensures r == ListTagsResult(client.tags, client.faults, entryName)
    {
      r := client.ListTags(entryName);
    }

    method CreateTag(entryName: string, tag: Tag) returns (r: Outcome<Tag>)
      modifies client`requests, client`tags
      ensures client.requests == old(client.requests) + [CreateTagRequest(entryName, tag.template)]
      ensures Reply(r, client.tags) == CreateTagResult(old(client.tags), client.faults, entryName, tag)
    {
      r := client.CreateTag(entryName, tag);
    }

    method UpdateTag(tag: Tag) returns (r: Outcome<Tag>)
      modifies client`requests, client`tags
      ensures client.requests == old(client.requests) + [UpdateTagRequest(tag.name)]
      ensures Reply(r, client.tags) == UpdateTagResult(old(client.tags), client.faults, tag)
    {
      r := client.UpdateTag(tag);
    }

    /** Creates or updates each input tag against one listing of the
        entry's tags. The input tags come back renamed as the loop left
        them; a failed listing, create or update is raised. */
    method UpsertTags(entry: Entry, tags: seq<Tag>) returns (r: Outcome<()>, processedTags: seq<Tag>)
      modifies client`requests, client`tags
      ensures var e := UpsertTagsEffect(old(client.tags), client.faults, entry.name, tags);
              && r == e.result && client.tags == e.store && processedTags == e.tags
              && client.requests == old(client.requests) + e.requests
    {
      if tags == [] {
        return Ok(()), tags;
      }
      var listed := ListTags(entry.name);
      if listed.Raised? {
        return Raised(listed.failure), tags;
      }
      r, processedTags := ProcessTags(entry.name, tags, listed.value);
    }

    /** The outer loop of the tag upsert: each input tag's action, decided
        against the same persisted tags, is carried out in order until one
        fails. */
    method ProcessTags(entryName: string, tags: seq<Tag>, persistedTags: seq<Tag>)
      returns (r: Outcome<()>, processedTags: seq<Tag>)
      modifies client`requests, client`tags
      ensures var run := RunActions(old(client.tags), client.faults, entryName, Plan(tags, persistedTags));
              && r == run.result && client.tags == run.store
              && client.requests == old(client.requests) + run.requests
              && processedTags == Renamed(tags, Plan(tags, persistedTags), run.processed)
    {
      ghost var actions := Plan(tags, persistedTags);
      ghost var sent: seq<Request> := [];
      processedTags := tags;
      r := Ok(());
      var i := 0;
      while i < |tags| && r == Ok(())
        invariant 0 <= i <= |tags|
        invariant r == Ok(()) || r.Raised?
        invariant RunActions(old(client.tags), client.faults, entryName, actions[..i]) == TagRun(r, client.tags, sent, i)
        invariant client.requests == old(client.requests) + sent
        invariant processedTags == Renamed(tags, actions, i)
      {
        var action := MatchPersisted(tags[i], persistedTags);
        RunActionsExtend(old(client.tags), client.faults, entryName, actions, i);
        RenamedExtend(tags, actions, i);
        processedTags := processedTags[i := action.tag];
        assert action == actions[i];
        r := CarryOut(entryName, action, sent, i);
        sent := sent + ActionRequests(entryName, action);
        i := i + 1;
      }
      if r.Raised? {
        RunStopsAtFailure(old(client.tags), client.faults, entryName, actions, i);
      } else {
        assert actions[..i] == actions;
      }
    }

    /** One pass of the outer loop after the tag's action is decided: create
        it, update it, or leave it alone when it is up to date. The ghost
        parameters `sent` and `i` are proof-only: they are the loop's request
        log and count so far, and only phrase the postcondition as one
        `ActionStep` of the run. */
    method CarryOut(entryName: string, action: TagAction, ghost sent: seq<Request>, ghost i: nat) returns (r: Outcome<()>)
      modifies client`requests, client`tags
      ensures TagRun(r, client.tags, sent + ActionRequests(entryName, action), i + 1)
                == ActionStep(TagRun(Ok(()), old(client.tags), sent, i), client.faults, entryName, action)
      ensures client.requests == old(client.requests) + ActionRequests(entryName, action)
    {
      r := Ok(());
      match action {
        case CreateAction(tag) =>
          var created := CreateTag(entryName, tag);
          if created.Raised? {
            r := Raised(created.failure);
          }
        case UpdateAction(tag) =>
          var updated := UpdateTag(tag);
          if updated.Raised? {
            r := Raised(updated.failure);
          }
        case UpToDate(_) =>
      }
    }

    /** The inner loop: one input tag against every persisted tag. */
    static method MatchPersisted(tag: Tag, persisted: seq<Tag>) returns (action: TagAction)
      ensures action == Decide(tag, persisted)
    {
      var current := tag;
      var toCreate := true;   // `tag_to_create` still refers to the tag
      var toUpdate := false;  // `tag_to_update` refers to the tag
      for j := 0 to |persisted|
        invariant ScanPersisted(tag, persisted[..j]) == Scan(!toCreate, toUpdate, current.name)
        invariant current == tag.(name := current.name)
      {
        assert persisted[..j + 1][..j] == persisted[..j];
        var persistedTag := persisted[j];
        if current.template == persistedTag.template {
          toCreate := false;
          current := current.(name := persistedTag.name);
          var equal := TagsFieldsAreEqual(current, persistedTag);
          if !equal {
            toUpdate := true;
          }
        }
      }
      assert persisted[..|persisted|] == persisted;
      if toCreate {
        action := CreateAction(tag);
      } else if toUpdate {
        action := UpdateAction(current);
      } else {
        action := UpToDate(current);
      }
    }

    /** Compares the values of every field id of the first tag, stopping at
        the first difference. */
    static method TagsFieldsAreEqual(tag1: Tag, tag2: Tag) returns (equal: bool)
      ensures equal == FieldsMatch(tag1, tag2)
    {
      var unvisited := tag1.fields.Keys;
      while unvisited != {}
        invariant unvisited <= tag1.fields.Keys
        invariant forall fieldId :: fieldId in tag1.fields && fieldId !in unvisited ==>
                    SameFieldValue(tag1.fields[fieldId], FieldOf(tag2, fieldId))
        decreases unvisited
      {
        var fieldId :| fieldId in unvisited;
        var field1 := tag1.fields[fieldId];
        var field2 := FieldOf(tag2, fieldId);
        var valuesAreEqual := field1.boolValue == field2.boolValue;
        valuesAreEqual := valuesAreEqual && field1.doubleValue == field2.doubleValue;
        valuesAreEqual := valuesAreEqual && field1.stringValue == field2.stringValue;
        valuesAreEqual := valuesAreEqual && field1.timestampSeconds == field2.timestampSeconds;
        valuesAreEqual := valuesAreEqual && field1.enumDisplayName == field2.enumDisplayName;
        if !valuesAreEqual {
          return false;
        }
        unvisited := unvisited - {fieldId};
      }
      return true;
    }
  }
}
