/**
 * The plugin's event wiring (src/Reliquary.php) and its queue job
 * (src/jobs/ProcessIndexes.php): which element classes keep no index,
 * what a save queues and clears, what deleting an element drops, and what
 * the control panel's "rebuild search indexes" utility does to the
 * plugin's own tables.
 *
 * The request's body parameters, the sites and the element classes'
 * localisation are inputs; the index tables are the `NgramIndex` of the
 * index writer and Craft's job queue is a `JobQueue` of its own.
 */
module PluginEvents {
  import opened Optional
  import opened PhpValues
  import opened Ngram
  import opened IndexWriter

  const MatrixBlockClass := "craft\\elements\\MatrixBlock"
  const SuperTableBlockClass := "verbb\\supertable\\elements\\SuperTableBlockElement"

  /** `ELEMENT_NOINDEX_LIST`: the element classes whose values are never indexed. */
  const NoIndexList: set<string> := {MatrixBlockClass, SuperTableBlockClass}

  /** The id of the utility action that rebuilds Craft's search index. */
  const RebuildAction := "search-index-perform-action"

  /** `shouldDiscardIndex`: whether the class is on the no-index list. */
  predicate ShouldDiscardIndex(elementClass: string)
  {
    elementClass in NoIndexList
  }

  /** Matrix blocks and Super Table blocks are discarded, and no other class is. */
  lemma DiscardedClasses(elementClass: string)
    ensures ShouldDiscardIndex(elementClass) <==>
      elementClass == "craft\\elements\\MatrixBlock" || elementClass == "verbb\\supertable\\elements\\SuperTableBlockElement"
    ensures !ShouldDiscardIndex("craft\\elements\\Entry")
  {
  }

  // ---------------------------------------------------------------------
  // Saving and deleting elements

  /** A `ProcessIndexes` job: the saved element's id (`null` for none) and site. */
  datatype Job = ProcessIndexes(elementId: Option<int>, siteId: int)

  /** Craft's job queue, as far as the plugin pushes to it. */
  class JobQueue {
    var jobs: seq<Job>

    constructor ()
      ensures jobs == []
    {
      jobs := [];
    }

    /** `Craft::$app->queue->push($job)`. */
    method Push(job: Job)
      modifies this
      ensures jobs == old(jobs) + [job]
    {
      jobs := jobs + [job];
    }
  }

  /** PHP truthiness of an element id: `null` and 0 are false. */
  predicate HasId(id: Option<int>)
  {
    id.Some? && id.value != 0
  }

  /** The jobs a save adds: one for the element and site, unless its class keeps no index. */
  function SaveJobs(elementClass: string, id: Option<int>, siteId: int): (r: seq<Job>)
    ensures |r| <= 1
    ensures r == [] <==> ShouldDiscardIndex(elementClass)
    ensures forall job :: job in r ==> job.elementId == id && job.siteId == siteId
  {
    if ShouldDiscardIndex(elementClass) then [] else [ProcessIndexes(id, siteId)]
  }

  /** The queue a save leaves: an element that already has an id has its pending values on the site dropped. */
  function QueueBeforeSave(q: seq<QueueItem>, id: Option<int>, siteId: int): (r: seq<QueueItem>)
    ensures !HasId(id) ==> r == q
    ensures HasId(id) ==> forall x :: x in r <==> x in q && !(x.elementId == id.value && x.siteId == siteId)
  {
    if HasId(id) then WithoutElement(q, id.value, siteId) else q
  }

  /**
   * `EVENT_BEFORE_SAVE_ELEMENT`: a save of an element that already has an
   * id drops the values still queued for it on its site; a new element
   * has none to drop.
   */
  method BeforeSaveElement(index: NgramIndex, id: Option<int>, siteId: int)
    modifies index`queue
    ensures index.queue == QueueBeforeSave(old(index.queue), id, siteId)
  {
    if HasId(id) {
      index.ClearPendingIndexQueue(id.value, siteId);
    }
  }

  /** `EVENT_AFTER_SAVE_ELEMENT`: queue the job that indexes the element on its site, unless its class keeps no index. */
  method AfterSaveElement(queue: JobQueue, elementClass: string, id: Option<int>, siteId: int)
    modifies queue
    ensures queue.jobs == old(queue.jobs) + SaveJobs(elementClass, id, siteId)
  {
    if ShouldDiscardIndex(elementClass) {
      return;
    }
    queue.Push(ProcessIndexes(id, siteId));
  }

  /** `EVENT_AFTER_DELETE_ELEMENT`: the element's index rows and postings go, on every site. */
  method AfterDeleteElement(index: NgramIndex, elementId: int)
    requires index.Valid()
    modifies index`rows, index`postings
    ensures index.Valid()
    ensures forall id :: id in index.rows <==> id in old(index.rows) && old(index.rows)[id].elementId != elementId
    ensures forall id :: id in index.rows ==> index.rows[id] == old(index.rows)[id]
  {
    index.DeleteIndexDataForElement(elementId);
  }

  /**
   * `ProcessIndexes::execute`: index the element's queued values on the
   * site. A job without an element id finds nothing queued, since every
   * queued value has one.
   */
  method RunJob(index: NgramIndex, job: Job, lib: TextLib, intl: bool)
    requires index.Valid()
    modifies index
    ensures index.Valid()
    ensures job.elementId.None? ==> index.queue == old(index.queue) && index.rows == old(index.rows)
    ensures job.elementId.Some? ==> index.queue == WithoutElement(old(index.queue), job.elementId.value, job.siteId)
  {
    if job.elementId.Some? {
      index.ProcessElementIndex(job.elementId.value, job.siteId, lib, intl);
    }
  }

  // ---------------------------------------------------------------------
  // Rebuilding the search index

  /** Why a handler stops the request. */
  datatype EventError =
    | BadRequest          // `getRequiredBodyParam('params')` without the parameter
    | TypeError           // `type` is not a string
    | UnknownClass(name: string)  // `$class::isLocalized()` on a name that is no element class

  /** `$params[$name]`: the entry of an array; reading a key of `null`, a boolean or a number gives `null`. */
  function Param(params: Value, name: string): (r: Value)
    ensures !params.Arr? ==> r == Null
  {
    if params.Arr? then At(params, StrKey(name)) else Null
  }

  /** Whether the rebuild request empties the index tables: the rebuild action with a non-empty `start`. */
  predicate ClearsTables(actionId: string, params: Option<Value>)
  {
    actionId == RebuildAction && params.Some? && !PhpEmpty(Param(params.value, "start"))
  }

  /**
   * `EVENT_BEFORE_ACTION` of the utilities controller: on the first call
   * of a rebuild (a non-empty `start`) the index tables are emptied; the
   * queue stays.
   */
  method BeforeUtilityAction(index: NgramIndex, actionId: string, params: Option<Value>) returns (error: Option<EventError>)
    requires index.Valid()
    modifies index`rows, index`postings
    ensures index.Valid()
    ensures error == (if actionId == RebuildAction && params.None? then Some(BadRequest) else None)
    ensures ClearsTables(actionId, params) ==> index.rows == map[] && index.postings == map[]
    ensures !ClearsTables(actionId, params) ==> index.rows == old(index.rows) && index.postings == old(index.postings)
  {
    if actionId != RebuildAction {
      return None;
    }
    if params.None? {
      return Some(BadRequest);
    }
    if !PhpEmpty(Param(params.value, "start")) {
      index.ClearIndexTables();
    }
    return None;
  }

  /**
   * The sites a rebuild call reindexes the element on: none for another
   * action, without an element id or for a class that keeps no index;
   * every site for a localised class, the primary site otherwise.
   */
  function ReindexSites(actionId: string, params: Option<Value>, localized: map<string, bool>,
                        allSiteIds: seq<int>, primarySiteId: int): Outcome<seq<int>, EventError>
  {
    if actionId != RebuildAction then Done([])
    else if params.None? then Thrown(BadRequest)
    else if PhpEmpty(Param(params.value, "id")) then Done([])
    else
      var elementClass := Param(params.value, "type");
      if !elementClass.Str? then Thrown(TypeError)
      else if ShouldDiscardIndex(elementClass.s) then Done([])
      else if elementClass.s !in localized then Thrown(UnknownClass(elementClass.s))
      else if localized[elementClass.s] then Done(allSiteIds)
      else Done([primarySiteId])
  }

  /**
   * A rebuild call does nothing without an element id or for a class that
   * keeps no index; otherwise a known class is reindexed on every site
   * when localised and only on the primary site when not.
   */
  lemma ReindexSitesSound(actionId: string, params: Value, localized: map<string, bool>, allSiteIds: seq<int>, primarySiteId: int)
    requires actionId == RebuildAction
    ensures PhpEmpty(Param(params, "id")) ==> ReindexSites(actionId, Some(params), localized, allSiteIds, primarySiteId) == Done([])
    ensures Param(params, "type").Str? && ShouldDiscardIndex(Param(params, "type").s) ==>
      ReindexSites(actionId, Some(params), localized, allSiteIds, primarySiteId) == Done([])
    ensures var c := Param(params, "type");
      !PhpEmpty(Param(params, "id")) && c.Str? && !ShouldDiscardIndex(c.s) && c.s in localized ==>
        ReindexSites(actionId, Some(params), localized, allSiteIds, primarySiteId)
          == Done(if localized[c.s] then allSiteIds else [primarySiteId])
    ensures !params.Arr? ==> ReindexSites(actionId, Some(params), localized, allSiteIds, primarySiteId) == Done([])
  {
  }

  /** The element id `processElementIndex` receives: `params.id`, compared with the queue's integer ids. */
  function ElementIdParam(params: Option<Value>): int
  {
    if params.Some? then IntVal(Param(params.value, "id")) else 0
  }

  /** The queue after `processElementIndex(elementId, s)` ran for each site `s` in turn. */
  function ClearedSites(q: seq<QueueItem>, elementId: int, sites: seq<int>): (r: seq<QueueItem>)
    decreases |sites|
  {
    if sites == [] then q
    else WithoutElement(ClearedSites(q, elementId, sites[..|sites| - 1]), elementId, sites[|sites| - 1])
  }

  /** Reindexing on some sites drops exactly the element's queued values on those sites. */
  lemma {:induction false} ClearedSitesSpec(q: seq<QueueItem>, elementId: int, sites: seq<int>)
    ensures forall x :: x in ClearedSites(q, elementId, sites) <==> x in q && !(x.elementId == elementId && x.siteId in sites)
    decreases |sites|
  {
    if sites != [] {
      var init := sites[..|sites| - 1];
      ClearedSitesSpec(q, elementId, init);
      assert forall s :: s in sites <==> s in init || s == sites[|sites| - 1] by {
        assert sites == init + [sites[|sites| - 1]];
      }
    }
  }

  /** The `foreach ($siteIds as $siteId)` loop of a rebuild call. */
  method ProcessSites(index: NgramIndex, elementId: int, sites: seq<int>, lib: TextLib, intl: bool)
    requires index.Valid()
    modifies index
    ensures index.Valid()
    ensures index.queue == ClearedSites(old(index.queue), elementId, sites)
  {
    var i := 0;
    while i < |sites|
      invariant 0 <= i <= |sites|
      invariant index.Valid()
      invariant index.queue == ClearedSites(old(index.queue), elementId, sites[..i])
    {
      assert sites[..i + 1][..i] == sites[..i];
      index.ProcessElementIndex(elementId, sites[i], lib, intl);
      i := i + 1;
    }
    assert sites[..i] == sites;
  }

  /**
   * `EVENT_AFTER_ACTION` of the utilities controller: after Craft
   * reindexed one element, the plugin processes that element's queued
   * values on the sites `ReindexSites` names.
   */
  method AfterUtilityAction(index: NgramIndex, actionId: string, params: Option<Value>, localized: map<string, bool>,
                            allSiteIds: seq<int>, primarySiteId: int, lib: TextLib, intl: bool)
    returns (error: Option<EventError>)
    requires index.Valid()
    modifies index
    ensures index.Valid()
    ensures match ReindexSites(actionId, params, localized, allSiteIds, primarySiteId)
      case Thrown(e) => error == Some(e) && index.queue == old(index.queue) && index.rows == old(index.rows)
      case Done(sites) =>
        && error.None?
        && index.queue == ClearedSites(old(index.queue), ElementIdParam(params), sites)
  {
    if actionId != RebuildAction {
      return None;
    }
    if params.None? {
      return Some(BadRequest);
    }
    var id := Param(params.value, "id");
    if PhpEmpty(id) {
      return None;
    }
    var elementClass := Param(params.value, "type");
    if !elementClass.Str? {
      return Some(TypeError);
    }
    if ShouldDiscardIndex(elementClass.s) {
      return None;
    }
    if elementClass.s !in localized {
      return Some(UnknownClass(elementClass.s));
    }
    var siteIds := if localized[elementClass.s] then allSiteIds else [primarySiteId];
    ProcessSites(index, IntVal(id), siteIds, lib, intl);
    return None;
  }
}
