/** The facade's tag policy stated over values: when two tags' fields
    count as equal, which action one input tag gets against the persisted
    tags listed for its entry, and what a whole `upsert_tags` run does to
    the catalog and to the input tags.
 */
module TagPolicy {
  import opened CatalogService

  // ---------------------------------------------------------------------
  // Field equality

  /** `tag.fields[field_id]`: a field id the tag does not hold reads as the
      default field, as a protobuf message map hands it back. */
  function FieldOf(tag: Tag, fieldId: string): (field: TagField)
    ensures fieldId in tag.fields ==> field == tag.fields[fieldId]
    ensures fieldId !in tag.fields ==> field == DefaultTagField
  {
    if fieldId in tag.fields then tag.fields[fieldId] else DefaultTagField
  }

  /** The five accessors compared: bool, double, string, the timestamp's
      seconds and the enum value's display name. */
  predicate SameFieldValue(f1: TagField, f2: TagField)
    ensures SameFieldValue(f1, f2) <==> f1.(timestampNanos := f2.timestampNanos) == f2
  {
    && f1.boolValue == f2.boolValue
    && f1.doubleValue == f2.doubleValue
    && f1.stringValue == f2.stringValue
    && f1.timestampSeconds == f2.timestampSeconds
    && f1.enumDisplayName == f2.enumDisplayName
  }

  /** Every field id of the FIRST tag reads the same in the second. */
  predicate FieldsMatch(tag1: Tag, tag2: Tag)
    ensures (forall fieldId :: fieldId in tag1.fields ==> fieldId in tag2.fields && tag1.fields[fieldId] == tag2.fields[fieldId])
              ==> FieldsMatch(tag1, tag2)
  {
    forall fieldId :: fieldId in tag1.fields ==> SameFieldValue(tag1.fields[fieldId], FieldOf(tag2, fieldId))
  }

  /** A tag without fields matches every tag. */
  lemma NoFieldsMatchesAnything(tag1: Tag, tag2: Tag)
    requires tag1.fields == map[]
    ensures FieldsMatch(tag1, tag2)
  {
  }

  /** Only the first tag's field ids are visited, so the comparison is not
      symmetric: a tag with no fields matches a tag with one, not conversely. */
  lemma FieldsMatchIsNotSymmetric()
    ensures exists tag1: Tag, tag2: Tag :: FieldsMatch(tag1, tag2) && !FieldsMatch(tag2, tag1)
  {
    var set1 := TagField(true, 0.0, "", 0, 0, "");
    var bare := Tag("", "template", map[]);
    var withField := Tag("", "template", map["flag" := set1]);
    assert FieldOf(bare, "flag") == DefaultTagField;
    assert !SameFieldValue(withField.fields["flag"], FieldOf(bare, "flag"));
    assert FieldsMatch(bare, withField) && !FieldsMatch(withField, bare);
  }

  /** A field holding only default values matches the same field id being
      absent from the second tag. */
  lemma DefaultFieldMatchesAbsentField(tag1: Tag, tag2: Tag, fieldId: string)
    requires tag1.fields == map[fieldId := DefaultTagField] && fieldId !in tag2.fields
    ensures FieldsMatch(tag1, tag2)
  {
  }

  /** Timestamps are compared by their seconds only. */
  lemma NanosAreIgnored(tag: Tag, fieldId: string, nanos: int)
    requires fieldId in tag.fields
    ensures var field := tag.fields[fieldId];
            FieldsMatch(tag.(fields := tag.fields[fieldId := field.(timestampNanos := nanos)]), tag)
  {
    var field := tag.fields[fieldId];
    var changed := tag.(fields := tag.fields[fieldId := field.(timestampNanos := nanos)]);
    forall id | id in changed.fields
      ensures SameFieldValue(changed.fields[id], FieldOf(tag, id))
    {
      if id != fieldId {
        assert changed.fields[id] == tag.fields[id];
      }
    }
  }

  /** Every tag matches itself, and a tag's name and template play no part. */
  lemma FieldsMatchReflexive(tag1: Tag, tag2: Tag)
    requires tag1.fields == tag2.fields
    ensures FieldsMatch(tag1, tag2)
  {
  }

  // ---------------------------------------------------------------------
  // One input tag against the persisted tags

  /** What the inner loop has found after some persisted tags: whether one
      had the tag's template (`tag_to_create` cleared), whether one of those
      differed (`tag_to_update` set), and the name the tag now carries. */
  datatype Scan = Scan(matched: bool, differs: bool, name: string)

  /** The inner loop over `persisted`, one persisted tag at a time. */
  function ScanPersisted(tag: Tag, persisted: seq<Tag>): (scan: Scan)
    ensures scan.matched <==> HasTemplate(persisted, tag.template)
    ensures !scan.matched ==> !scan.differs && scan.name == tag.name
    decreases |persisted|
  {
    if persisted == [] then Scan(false, false, tag.name)
    else
      var before := ScanPersisted(tag, persisted[..|persisted| - 1]);
      var last := persisted[|persisted| - 1];
      if last.template == tag.template then Scan(true, before.differs || !FieldsMatch(tag, last), last.name)
      else before
  }

  /** The one action an input tag gets, carrying the tag as it leaves the
      loop (renamed after the persisted tag it matched, if any). */
  datatype TagAction = CreateAction(tag: Tag) | UpdateAction(tag: Tag) | UpToDate(tag: Tag)

  function Decide(tag: Tag, persisted: seq<Tag>): (action: TagAction)
    ensures action.CreateAction? <==> !HasTemplate(persisted, tag.template)
    ensures action.CreateAction? ==> action.tag == tag
    ensures action.tag == tag.(name := action.tag.name)
  {
    var scan := ScanPersisted(tag, persisted);
    if !scan.matched then CreateAction(tag)
    else if scan.differs then UpdateAction(tag.(name := scan.name))
    else UpToDate(tag.(name := scan.name))
  }

  /** `k` is the last index of a persisted tag with the given template. */
  ghost predicate LastMatch(persisted: seq<Tag>, template: string, k: int)
  {
    && 0 <= k < |persisted|
    && persisted[k].template == template
    && forall j :: k < j < |persisted| ==> persisted[j].template != template
  }

  ghost predicate SomeMatchDiffers(tag: Tag, persisted: seq<Tag>)
  {
    exists i :: 0 <= i < |persisted| && persisted[i].template == tag.template && !FieldsMatch(tag, persisted[i])
  }

  lemma {:induction false} ScanCharacterised(tag: Tag, persisted: seq<Tag>)
    ensures ScanPersisted(tag, persisted).matched <==> HasTemplate(persisted, tag.template)
    ensures ScanPersisted(tag, persisted).differs <==> SomeMatchDiffers(tag, persisted)
    ensures !HasTemplate(persisted, tag.template) ==> ScanPersisted(tag, persisted).name == tag.name
    ensures HasTemplate(persisted, tag.template) ==>
              exists k :: LastMatch(persisted, tag.template, k) && ScanPersisted(tag, persisted).name == persisted[k].name
    decreases |persisted|
  {
    if persisted != [] {
      var n := |persisted| - 1;
      var init, last := persisted[..n], persisted[n];
      ScanCharacterised(tag, init);
      assert forall i :: 0 <= i < n ==> persisted[i] == init[i];
      if last.template == tag.template {
        assert LastMatch(persisted, tag.template, n);
        assert HasTemplate(persisted, tag.template);
        if !FieldsMatch(tag, last) {
          assert SomeMatchDiffers(tag, persisted);
        }
      } else {
        if HasTemplate(persisted, tag.template) {
          var i :| 0 <= i < |persisted| && persisted[i].template == tag.template;
          assert init[i].template == tag.template;
          var k :| LastMatch(init, tag.template, k) && ScanPersisted(tag, init).name == init[k].name;
          assert LastMatch(persisted, tag.template, k);
        }
        if SomeMatchDiffers(tag, persisted) {
          var i :| 0 <= i < |persisted| && persisted[i].template == tag.template && !FieldsMatch(tag, persisted[i]);
          assert init[i] == persisted[i];
        }
      }
    }
  }

  /** Exactly one action per input tag: create iff no persisted tag has its
      template (and then it keeps its name); otherwise it takes the name of
      the last persisted tag with that template, and it is updated iff some
      persisted tag with that template has different field values. */
  lemma DecideCharacterised(tag: Tag, persisted: seq<Tag>)
    ensures Decide(tag, persisted).CreateAction? <==> !HasTemplate(persisted, tag.template)
    ensures Decide(tag, persisted).UpdateAction? <==> SomeMatchDiffers(tag, persisted)
    ensures Decide(tag, persisted).CreateAction? ==> Decide(tag, persisted).tag == tag
    ensures !Decide(tag, persisted).CreateAction? ==>
              exists k :: LastMatch(persisted, tag.template, k) && Decide(tag, persisted).tag == tag.(name := persisted[k].name)
  {
    ScanCharacterised(tag, persisted);
    if SomeMatchDiffers(tag, persisted) {
      var i :| 0 <= i < |persisted| && persisted[i].template == tag.template && !FieldsMatch(tag, persisted[i]);
      assert HasTemplate(persisted, tag.template);
    }
  }

  /** A tag whose template is persisted, with every persisted tag of that
      template holding the same field values, is left alone. */
  lemma MatchingTagIsUpToDate(tag: Tag, persisted: seq<Tag>)
    requires HasTemplate(persisted, tag.template)
    requires forall i :: 0 <= i < |persisted| && persisted[i].template == tag.template ==> FieldsMatch(tag, persisted[i])
    ensures Decide(tag, persisted).UpToDate?
  {
    DecideCharacterised(tag, persisted);
  }

  // ---------------------------------------------------------------------
  // The whole run

  /** The action of every input tag, all decided against the one listing. */
  function Plan(tags: seq<Tag>, persisted: seq<Tag>): (actions: seq<TagAction>)
    ensures |actions| == |tags|
    ensures forall i :: 0 <= i < |tags| ==> actions[i] == Decide(tags[i], persisted)
  {
    seq(|tags|, i requires 0 <= i < |tags| => Decide(tags[i], persisted))
  }

  /** The request an action sends: none for a tag that is up to date. */
  function ActionRequests(parent: string, action: TagAction): (r: seq<Request>)
    ensures |r| <= 1
    ensures r == [] <==> action.UpToDate?
  {
    match action
    case CreateAction(tag) => [CreateTagRequest(parent, tag.template)]
    case UpdateAction(tag) => [UpdateTagRequest(tag.name)]
    case UpToDate(_) => []
  }

  /** A tag whose fields match every persisted tag of its template sends
      no request at all. */
  lemma UpToDateTagSendsNothing(parent: string, tag: Tag, persisted: seq<Tag>)
    requires HasTemplate(persisted, tag.template)
    requires forall i :: 0 <= i < |persisted| && persisted[i].template == tag.template ==> FieldsMatch(tag, persisted[i])
    ensures ActionRequests(parent, Decide(tag, persisted)) == []
  {
    MatchingTagIsUpToDate(tag, persisted);
  }

  /** The requests of a sequence of actions, in order. */
  function PlannedRequests(parent: string, actions: seq<TagAction>): (requests: seq<Request>)
    ensures |requests| <= |actions|
    ensures forall i :: 0 <= i < |requests| ==> !requests[i].ListTagsRequest?
    decreases |actions|
  {
    if actions == [] then []
    else PlannedRequests(parent, actions[..|actions| - 1]) + ActionRequests(parent, actions[|actions| - 1])
  }

  /** Where the outer loop stands: the failure that stopped it (if any), the
      tags on the catalog, the requests sent and how many input tags it has
      taken up (a failing tag included). */
  datatype TagRun = TagRun(result: Outcome<()>, store: TagStore, requests: seq<Request>, processed: nat)

  /** Carrying out one action; a failed create or update stops the loop. */
  function ActionStep(run: TagRun, faults: Faults, parent: string, action: TagAction): (next: TagRun)
    ensures next.processed == run.processed + 1
    ensures next.requests == run.requests + ActionRequests(parent, action)
    ensures next.result.Raised? ==> next.store == run.store
    ensures action.UpToDate? ==> next.result == run.result && next.store == run.store
    ensures action.CreateAction? && next.result.Ok? ==>
              next.store == run.store[parent := TagsOf(run.store, parent) + [action.tag.(name := TagName(parent, action.tag.template))]]
    ensures action.UpdateAction? && next.result.Ok? ==>
              && TagStored(run.store, action.tag.name)
              && next.store.Keys == run.store.Keys
              && forall p :: p in run.store ==> next.store[p] == ReplaceNamed(run.store[p], action.tag)
  {
    match action
    case CreateAction(tag) =>
      var reply := CreateTagResult(run.store, faults, parent, tag);
      TagRun(if reply.outcome.Ok? then Ok(()) else Raised(reply.outcome.failure), reply.state,
             run.requests + ActionRequests(parent, action), run.processed + 1)
    case UpdateAction(tag) =>
      var reply := UpdateTagResult(run.store, faults, tag);
      TagRun(if reply.outcome.Ok? then Ok(()) else Raised(reply.outcome.failure), reply.state,
             run.requests + ActionRequests(parent, action), run.processed + 1)
    case UpToDate(_) =>
      run.(processed := run.processed + 1)
  }

  /** The outer loop over the actions, stopping at the first failure. */
  function RunActions(store: TagStore, faults: Faults, parent: string, actions: seq<TagAction>): (run: TagRun)
    ensures run.processed <= |actions|
    ensures run.result.Ok? ==> run.processed == |actions|
    ensures run.result.Raised? ==> run.processed >= 1
    decreases |actions|
  {
    if actions == [] then TagRun(Ok(()), store, [], 0)
    else
      var before := RunActions(store, faults, parent, actions[..|actions| - 1]);
      if before.result.Raised? then before
      else ActionStep(before, faults, parent, actions[|actions| - 1])
  }

  /** An input tag's name after the run: the first `processed` tags carry
      the names their actions gave them, the rest are untouched. */
  function Renamed(tags: seq<Tag>, actions: seq<TagAction>, processed: nat): (r: seq<Tag>)
    requires |actions| == |tags|
    ensures |r| == |tags|
    ensures forall i :: 0 <= i < |tags| ==> r[i] == if i < processed then actions[i].tag else tags[i]
  {
    seq(|tags|, i requires 0 <= i < |tags| => if i < processed then actions[i].tag else tags[i])
  }

  /** What `upsert_tags` did: the failure it let through (if any), the tags
      on the catalog, the requests sent, and the input tags afterwards. */
  datatype TagsEffect = TagsEffect(result: Outcome<()>, store: TagStore, requests: seq<Request>, tags: seq<Tag>)

  function UpsertTagsEffect(store: TagStore, faults: Faults, entryName: string, tags: seq<Tag>): (e: TagsEffect)
    ensures |e.tags| == |tags|
    ensures forall i :: 0 <= i < |tags| ==> e.tags[i] == tags[i].(name := e.tags[i].name)
    ensures e.result.Raised? ==> tags != [] && |e.requests| >= 1 && e.requests[0] == ListTagsRequest(entryName)
  {
    if tags == [] then TagsEffect(Ok(()), store, [], tags)
    else
      match ListTagsResult(store, faults, entryName)
      case Raised(failure) => TagsEffect(Raised(failure), store, [ListTagsRequest(entryName)], tags)
      case Ok(persisted) =>
        var actions := Plan(tags, persisted);
        var run := RunActions(store, faults, entryName, actions);
        TagsEffect(run.result, run.store, [ListTagsRequest(entryName)] + run.requests, Renamed(tags, actions, run.processed))
  }

  // ---------------------------------------------------------------------
  // Properties of the run

  /** The requests of a run are those of the actions it took up, so at
      most one per input tag and never a listing. */
  lemma {:induction false} RunActionsShape(store: TagStore, faults: Faults, parent: string, actions: seq<TagAction>)
    ensures var run := RunActions(store, faults, parent, actions);
            run.requests == PlannedRequests(parent, actions[..run.processed])
    decreases |actions|
  {
    if actions != [] {
      var n := |actions| - 1;
      RunActionsShape(store, faults, parent, actions[..n]);
      var before := RunActions(store, faults, parent, actions[..n]);
      assert actions[..n][..before.processed] == actions[..before.processed];
      if before.result.Ok? {
        assert actions[..n + 1] == actions;
        assert actions[..n] == actions[..|actions| - 1];
      }
    }
  }

  /** A run that has not failed on the first `i` actions goes on with action `i`. */
  lemma RunActionsExtend(store: TagStore, faults: Faults, parent: string, actions: seq<TagAction>, i: nat)
    requires i < |actions|
    requires RunActions(store, faults, parent, actions[..i]).result.Ok?
    ensures RunActions(store, faults, parent, actions[..i + 1])
              == ActionStep(RunActions(store, faults, parent, actions[..i]), faults, parent, actions[i])
  {
    assert actions[..i + 1][..i] == actions[..i];
  }

  /** Taking up one more tag renames exactly that tag. */
  lemma RenamedExtend(tags: seq<Tag>, actions: seq<TagAction>, i: nat)
    requires |actions| == |tags| && i < |tags|
    ensures Renamed(tags, actions, i)[i := actions[i].tag] == Renamed(tags, actions, i + 1)
  {
  }

  /** Once the run has failed on a prefix of the actions, the rest change nothing. */
  lemma {:induction false} RunStopsAtFailure(store: TagStore, faults: Faults, parent: string, actions: seq<TagAction>, k: nat)
    requires k <= |actions|
    requires RunActions(store, faults, parent, actions[..k]).result.Raised?
    ensures RunActions(store, faults, parent, actions) == RunActions(store, faults, parent, actions[..k])
    decreases |actions| - k
  {
    if k < |actions| {
      var n := |actions| - 1;
      assert actions[..n][..k] == actions[..k];
      RunStopsAtFailure(store, faults, parent, actions[..n], k);
    } else {
      assert actions[..k] == actions;
    }
  }

  /** With no input tags nothing is sent, not even the listing, and nothing changes. */
  lemma EmptyTagsSendNothing(store: TagStore, faults: Faults, entryName: string)
    ensures UpsertTagsEffect(store, faults, entryName, []) == TagsEffect(Ok(()), store, [], [])
  {
  }

  /** Otherwise the tags are listed once, first, and every later request is
      a create or update: at most one per input tag. */
  lemma UpsertTagsListsOnce(store: TagStore, faults: Faults, entryName: string, tags: seq<Tag>)
    requires tags != []
    ensures var e := UpsertTagsEffect(store, faults, entryName, tags);
            && 1 <= |e.requests| <= 1 + |tags|
            && e.requests[0] == ListTagsRequest(entryName)
            && forall i :: 1 <= i < |e.requests| ==> !e.requests[i].ListTagsRequest?
  {
    var e := UpsertTagsEffect(store, faults, entryName, tags);
    var listed := ListTagsResult(store, faults, entryName);
    if listed.Ok? {
      var actions := Plan(tags, listed.value);
      var run := RunActions(store, faults, entryName, actions);
      RunActionsShape(store, faults, entryName, actions);
      assert e.requests == [ListTagsRequest(entryName)] + run.requests;
      forall i | 1 <= i < |e.requests| ensures !e.requests[i].ListTagsRequest? {
        assert e.requests[i] == run.requests[i - 1];
      }
    }
  }

  /** A run that completes has sent exactly the requests of the plan after
      the listing (none for an up-to-date tag) and renamed every input tag. */
  lemma UpsertTagsCompleted(store: TagStore, faults: Faults, entryName: string, tags: seq<Tag>)
    requires tags != []
    requires UpsertTagsEffect(store, faults, entryName, tags).result.Ok?
    ensures var persisted := ListTagsResult(store, faults, entryName).value;
            var e := UpsertTagsEffect(store, faults, entryName, tags);
            && ListTagsResult(store, faults, entryName).Ok?
            && e.requests == [ListTagsRequest(entryName)] + PlannedRequests(entryName, Plan(tags, persisted))
            && forall i :: 0 <= i < |tags| ==> e.tags[i] == Decide(tags[i], persisted).tag
  {
    var persisted := ListTagsResult(store, faults, entryName).value;
    var actions := Plan(tags, persisted);
    RunActionsShape(store, faults, entryName, actions);
    assert actions[..|actions|] == actions;
  }
}
