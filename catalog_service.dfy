/** The Data Catalog records the facade reads, and a stand-in for the
    service behind the client library.

    The service is an in-memory catalog: entries by resource name and, per
    entry, the tags attached to it. Which requests fail is decided up front
    by a fault table, so that every failure the facade routes (permission
    denied, failed precondition, anything else) can be reached; a request
    without an injected fault is answered from the catalog's state. Every
    request is appended to a log, which is how the facade's contracts say
    which remote calls it made.
 */
module CatalogService {

  /** The Entry fields the facade reads. `updateTimeSeconds` is
      `source_system_timestamps.update_time.seconds` (0 when unset). */
  datatype Entry = Entry(
    name: string,
    userSpecifiedSystem: string,
    userSpecifiedType: string,
    displayName: string,
    description: string,
    linkedResource: string,
    updateTimeSeconds: int)

  /** One tag field's value accessors. A field holds one kind of value; the
      others read as their defaults. Doubles are modelled as reals. */
  datatype TagField = TagField(
    boolValue: bool,
    doubleValue: real,
    stringValue: string,
    timestampSeconds: int,
    timestampNanos: int,
    enumDisplayName: string)

  /** What a protobuf message map hands back for a field id it does not hold. */
  const DefaultTagField := TagField(false, 0.0, "", 0, 0, "")

  datatype Tag = Tag(name: string, template: string, fields: map<string, TagField>)

  datatype SearchResult = SearchResult(relativeResourceName: string)

  /** The failures the facade tells apart; `Other` is every other error. */
  datatype Failure = PermissionDenied | FailedPrecondition | Other

  /** A remote call either answers or raises. */
  datatype Outcome<+T> = Ok(value: T) | Raised(failure: Failure)

  /** The requests the facade sends, identified by their arguments. */
  datatype Request =
    | GetEntryRequest(name: string)
    | CreateEntryRequest(parent: string, entryId: string)
    | UpdateEntryRequest(name: string)
    | DeleteEntryRequest(name: string)
    | ListTagsRequest(parent: string)
    | CreateTagRequest(parent: string, template: string)
    | UpdateTagRequest(name: string)

  /** A state-changing request's answer together with the state after it. */
  datatype Reply<+T, +S> = Reply(outcome: Outcome<T>, state: S)

  type Entries = map<string, Entry>
  type TagStore = map<string, seq<Tag>>
  type Faults = map<Request, Failure>

  /** `projects/.../entryGroups/{g}` and `e` give `projects/.../entryGroups/{g}/entries/{e}`. */
  function EntryName(group: string, entryId: string): (name: string)
    ensures |name| == |group| + |"/entries/"| + |entryId|
    ensures name[..|group|] == group && name[|name| - |entryId|..] == entryId
    ensures name[|group|..|group| + |"/entries/"|] == "/entries/"
  {
    group + "/entries/" + entryId
  }

  /** The service keeps at most one tag per template on an entry, so the
      model names a created tag after its entry and template. */
  function TagName(parent: string, template: string): (name: string)
  {
    parent + "/tags/" + template
  }

  function TagsOf(store: TagStore, parent: string): (tags: seq<Tag>)
  {
    if parent in store then store[parent] else []
  }

  predicate HasTemplate(tags: seq<Tag>, template: string)
  {
    exists i :: 0 <= i < |tags| && tags[i].template == template
  }

  predicate TagStored(store: TagStore, name: string)
  {
    exists parent, i :: parent in store && 0 <= i < |store[parent]| && store[parent][i].name == name
  }

  /** Every tag of `tags` named like `tag` replaced by `tag`. */
  function ReplaceNamed(tags: seq<Tag>, tag: Tag): (r: seq<Tag>)
    ensures |r| == |tags|
    ensures forall i :: 0 <= i < |tags| ==> r[i] == if tags[i].name == tag.name then tag else tags[i]
  {
    seq(|tags|, i requires 0 <= i < |tags| => if tags[i].name == tag.name then tag else tags[i])
  }

  // The service's answers. An injected fault wins; otherwise the catalog's
  // state decides. A get, update or delete of an absent entry, and an
  // update of an absent tag, is reported as PERMISSION_DENIED (the service
  // does not reveal whether a resource it will not show exists); an
  // existing name or template on creation as ALREADY_EXISTS (`Other`).
  // Listing and creating tags do not check that the parent entry exists.

  function GetEntryResult(entries: Entries, faults: Faults, name: string): (r: Outcome<Entry>)
    ensures r.Ok? ==> name in entries && r.value == entries[name]
    ensures GetEntryRequest(name) !in faults && name !in entries ==> r == Raised(PermissionDenied)
  {
    if GetEntryRequest(name) in faults then Raised(faults[GetEntryRequest(name)])
    else if name in entries then Ok(entries[name])
    else Raised(PermissionDenied)
  }

  function CreateEntryResult(entries: Entries, faults: Faults, parent: string, entryId: string, entry: Entry)
    : (r: Reply<Entry, Entries>)
    ensures r.outcome.Raised? ==> r.state == entries
    ensures r.outcome.Ok? ==>
              var name := EntryName(parent, entryId);
              name !in entries && r.outcome.value == entry.(name := name) && r.state == entries[name := r.outcome.value]
  {
    var name := EntryName(parent, entryId);
    var request := CreateEntryRequest(parent, entryId);
    if request in faults then Reply(Raised(faults[request]), entries)
    else if name in entries then Reply(Raised(Other), entries)
    else Reply(Ok(entry.(name := name)), entries[name := entry.(name := name)])
  }

  /** A full replace of the entry named by `entry.name`. */
  function UpdateEntryResult(entries: Entries, faults: Faults, entry: Entry): (r: Reply<Entry, Entries>)
    ensures r.outcome.Raised? ==> r.state == entries
    ensures r.outcome.Ok? ==> entry.name in entries && r.outcome.value == entry && r.state == entries[entry.name := entry]
  {
    var request := UpdateEntryRequest(entry.name);
    if request in faults then Reply(Raised(faults[request]), entries)
    else if entry.name in entries then Reply(Ok(entry), entries[entry.name := entry])
    else Reply(Raised(PermissionDenied), entries)
  }

  function DeleteEntryResult(entries: Entries, faults: Faults, name: string): (r: Reply<(), Entries>)
    ensures r.outcome.Raised? ==> r.state == entries
    ensures r.outcome.Ok? ==> name in entries && r.state == entries - {name}
  {
    var request := DeleteEntryRequest(name);
    if request in faults then Reply(Raised(faults[request]), entries)
    else if name in entries then Reply(Ok(()), entries - {name})
    else Reply(Raised(PermissionDenied), entries)
  }

  function ListTagsResult(store: TagStore, faults: Faults, parent: string): (r: Outcome<seq<Tag>>)
    ensures ListTagsRequest(parent) !in faults ==> r == Ok(TagsOf(store, parent))
  {
    var request := ListTagsRequest(parent);
    if request in faults then Raised(faults[request]) else Ok(TagsOf(store, parent))
  }

  function CreateTagResult(store: TagStore, faults: Faults, parent: string, tag: Tag): (r: Reply<Tag, TagStore>)
    ensures r.outcome.Raised? ==> r.state == store
    ensures r.outcome.Ok? ==>
              !HasTemplate(TagsOf(store, parent), tag.template) &&
              r.outcome.value == tag.(name := TagName(parent, tag.template)) &&
              r.state == store[parent := TagsOf(store, parent) + [r.outcome.value]]
  {
    var request := CreateTagRequest(parent, tag.template);
    var created := tag.(name := TagName(parent, tag.template));
    if request in faults then Reply(Raised(faults[request]), store)
    else if HasTemplate(TagsOf(store, parent), tag.template) then Reply(Raised(Other), store)
    else Reply(Ok(created), store[parent := TagsOf(store, parent) + [created]])
  }

  /** A full replace of the tag named by `tag.name`. */
  function UpdateTagResult(store: TagStore, faults: Faults, tag: Tag): (r: Reply<Tag, TagStore>)
    ensures r.outcome.Raised? ==> r.state == store
    ensures r.outcome.Ok? ==> TagStored(store, tag.name) && r.state.Keys == store.Keys
  {
    var request := UpdateTagRequest(tag.name);
    if request in faults then Reply(Raised(faults[request]), store)
    else if TagStored(store, tag.name) then Reply(Ok(tag), map parent | parent in store :: ReplaceNamed(store[parent], tag))
    else Reply(Raised(PermissionDenied), store)
  }

  /** The client library's handle on the service: the catalog's state, the
      faults injected into it, and the log of requests sent so far. */
  class DataCatalogClient {
    var entries: Entries
    var tags: TagStore
    const faults: Faults
    var requests: seq<Request>

    constructor (entries: Entries, tags: TagStore, faults: Faults)
      ensures this.entries == entries && this.tags == tags && this.faults == faults
      ensures requests == []
    {
      this.entries := entries;
      this.tags := tags;
      this.faults := faults;
      requests := [];
    }

    method GetEntry(name: string) returns (r: Outcome<Entry>)
      modifies this`requests
      ensures requests == old(requests) + [GetEntryRequest(name)]
      ensures r == GetEntryResult(entries, faults, name)
    {
      requests := requests + [GetEntryRequest(name)];
      r := GetEntryResult(entries, faults, name);
    }

    method CreateEntry(parent: string, entryId: string, entry: Entry) returns (r: Outcome<Entry>)
      modifies this`requests, this`entries
      ensures requests == old(requests) + [CreateEntryRequest(parent, entryId)]
      ensures Reply(r, entries) == CreateEntryResult(old(entries), faults, parent, entryId, entry)
    {
      requests := requests + [CreateEntryRequest(parent, entryId)];
      var reply := CreateEntryResult(entries, faults, parent, entryId, entry);
      r, entries := reply.outcome, reply.state;
    }

    method UpdateEntry(entry: Entry) returns (r: Outcome<Entry>)
      modifies this`requests, this`entries
      ensures requests == old(requests) + [UpdateEntryRequest(entry.name)]
      ensures Reply(r, entries) == UpdateEntryResult(old(entries), faults, entry)
    {
      requests := requests + [UpdateEntryRequest(entry.name)];
      var reply := UpdateEntryResult(entries, faults, entry);
      r, entries := reply.outcome, reply.state;
    }

    method DeleteEntry(name: string) returns (r: Outcome<()>)
      modifies this`requests, this`entries
      ensures requests == old(requests) + [DeleteEntryRequest(name)]
      ensures Reply(r, entries) == DeleteEntryResult(old(entries), faults, name)
    {
      requests := requests + [DeleteEntryRequest(name)];
      var reply := DeleteEntryResult(entries, faults, name);
      r, entries := reply.outcome, reply.state;
    }

    method ListTags(parent: string) returns (r: Outcome<seq<Tag>>)
      modifies this`requests
      ensures requests == old(requests) + [ListTagsRequest(parent)]
      ensures r == ListTagsResult(tags, faults, parent)
    {
      requests := requests + [ListTagsRequest(parent)];
      r := ListTagsResult(tags, faults, parent);
    }

    method CreateTag(parent: string, tag: Tag) returns (r: Outcome<Tag>)
      modifies this`requests, this`tags
      ensures requests == old(requests) + [CreateTagRequest(parent, tag.template)]
      ensures Reply(r, tags) == CreateTagResult(old(tags), faults, parent, tag)
    {
      requests := requests + [CreateTagRequest(parent, tag.template)];
      var reply := CreateTagResult(tags, faults, parent, tag);
      r, tags := reply.outcome, reply.state;
    }

    method UpdateTag(tag: Tag) returns (r: Outcome<Tag>)
      modifies this`requests, this`tags
      ensures requests == old(requests) + [UpdateTagRequest(tag.name)]
      ensures Reply(r, tags) == UpdateTagResult(old(tags), faults, tag)
    {
      requests := requests + [UpdateTagRequest(tag.name)];
      var reply := UpdateTagResult(tags, faults, tag);
      r, tags := reply.outcome, reply.state;
    }
  }
}
