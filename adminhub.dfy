/**
 * The stateful part of components/AdminHub.tsx: the component's React state
 * as the fields of a class, each handler as a method, and the two storage
 * keys it writes through the shared store.
 */
module AdminHub {
  import opened Wrappers
  import opened Text
  import opened Records
  import opened App
  import opened Registry

  /**
   * What the lead load leaves in the list, given the stored value; `None` when
   * reading it throws. A load that succeeds from a stored list keeps its
   * length, its order and every field but the status; every lead then has a
   * status, and a status that was present is kept.
   */
  function LoadedLeads(current: seq<Lead>, saved: Option<Value>): (r: Option<seq<Lead>>)
    ensures r.None? <==> saved.Some? && AsLeads(saved.value).None?
    ensures saved.None? ==> r == Some(current)
    ensures saved.Some? && r.Some? ==>
              var stored := AsLeads(saved.value).value;
              |r.value| == |stored| &&
              forall i :: 0 <= i < |stored| ==>
                r.value[i].status.Some? && r.value[i] == stored[i].(status := r.value[i].status) &&
                (stored[i].status.Some? ==> r.value[i] == stored[i])
  {
    match saved
    case None => Some(current)
    case Some(v) => if AsLeads(v).Some? then Some(BackfillStatus(AsLeads(v).value)) else None
  }

  /** The stored text `[]`, whichever collection wrote it, empties the lead list. */
  lemma StoredEmptyListLoadsNoLeads(current: seq<Lead>)
    ensures LoadedLeads(current, Some(ItemList([]))) == Some([])
    ensures LoadedLeads(current, Some(LeadList([]))) == Some([])
  {
  }

  /** The fields save validation looks at; an edited item's `videoUrl` may be absent. */
  datatype SaveFields = SaveFields(title: string, url: string, isVideo: bool, videoUrl: Option<string>)

  /**
   * `editingItem || newItem`: the fields of the edit buffer when editing, else
   * of the new-item buffer. The new-item buffer always holds a `videoUrl`, so
   * the video source is missing exactly for an edited item that has none.
   */
  function SaveTarget(editing: Option<PortfolioItem>, draft: ItemDraft): (t: SaveFields)
    ensures t.videoUrl.None? <==> editing.Some? && editing.value.videoUrl.None?
  {
    if editing.Some? then
      SaveFields(editing.value.title, editing.value.url, editing.value.isVideo, editing.value.videoUrl)
    else SaveFields(draft.title, draft.url, draft.isVideo, Some(draft.videoUrl))
  }

  /** While an edit is open, the new-item buffer plays no part in the save check. */
  lemma SaveTargetIgnoresDraftWhileEditing(edited: PortfolioItem, d1: ItemDraft, d2: ItemDraft)
    ensures SaveTarget(Some(edited), d1) == SaveTarget(Some(edited), d2)
    ensures SaveTarget(Some(edited), d1).title == edited.title && SaveTarget(Some(edited), d1).url == edited.url
    ensures SaveTarget(Some(edited), d1).isVideo == edited.isVideo
  {
  }

  /** Only an edit can make the save check throw: a new item always carries a video source. */
  lemma OnlyAnEditCanThrow(editing: Option<PortfolioItem>, draft: ItemDraft)
    ensures var t := SaveTarget(editing, draft);
            CheckSave(t.title, t.url, t.isVideo, t.videoUrl) == Throws ==>
              editing.Some? && editing.value.isVideo && editing.value.videoUrl.None?
  {
  }

  /** The collection `finalizeSave` writes: the edited item replaced by id, or the new item prepended. */
  function SavedItems(items: seq<PortfolioItem>, editing: Option<PortfolioItem>, draft: ItemDraft, now: int): seq<PortfolioItem> {
    if editing.Some? then ReplaceById(items, editing.value) else [NewItem(draft, now)] + items
  }

  /** The log line `finalizeSave` writes. */
  function SaveLogAction(editing: Option<PortfolioItem>, draft: ItemDraft, now: int): string {
    if editing.Some? then "Asset re-configured: " + editing.value.title
    else "New asset deployed: " + NewItem(draft, now).title
  }

  /**
   * An uploaded thumbnail does not survive a reload for a seeded title: editing
   * the Ember item to an uploaded `data:` image stores that image, and the next
   * load replaces it by the canonical Ember thumbnail.
   */
  lemma UploadedThumbnailRevertsOnReload(draft: ItemDraft, now: int)
    ensures var upload := "data:image/png;base64,AAAA";
            var saved := SavedItems(DefaultItems, Some(DefaultItems[2].(url := upload)), draft, now);
            |saved| == 3 && saved[2].url == upload &&
            InitialItems(Some(ItemList(saved)))[2].url == EmberUrl
  {
    var upload := "data:image/png;base64,AAAA";
    assert LacksPair(upload, 'u', 'n');
    AbsentPair(upload, HostMarker, 0);
  }

  /** A create puts exactly one well-formed item first and keeps the existing ones after it. */
  lemma CreatePrependsOne(items: seq<PortfolioItem>, draft: ItemDraft, now: int)
    requires CheckSave(draft.title, draft.url, draft.isVideo, Some(draft.videoUrl)) == Pass
    ensures |SavedItems(items, None, draft, now)| == |items| + 1
    ensures SavedItems(items, None, draft, now)[1..] == items
    ensures WellFormed(SavedItems(items, None, draft, now)[0])
  {
    CreatedItemIsWellFormed(draft, now);
  }

  /** An edit keeps the length and every id, and the edited item sits where its id was. */
  lemma EditReplacesInPlace(items: seq<PortfolioItem>, edited: PortfolioItem, draft: ItemDraft, now: int)
    ensures |SavedItems(items, Some(edited), draft, now)| == |items|
    ensures forall i :: 0 <= i < |items| ==> SavedItems(items, Some(edited), draft, now)[i].id == items[i].id
    ensures forall i :: 0 <= i < |items| && items[i].id == edited.id ==> SavedItems(items, Some(edited), draft, now)[i] == edited
  {
    ReplaceKeepsIds(items, edited);
  }

  /**
   * The component. Each handler's `modifies` clause names the state it may
   * set, so every other piece of state is unchanged by it.
   */
  class AdminHub {
    /** The App component that owns the portfolio collection. */
    const app: AppState
    const storage: LocalStorage

    var leads: seq<Lead>
    var auditLogs: seq<LogEntry>
    var error: Option<string>
    var isRefreshing: bool
    var searchQuery: string
    var leadFilter: StatusFilter
    var editingItem: Option<PortfolioItem>
    var newItem: ItemDraft
    var uploadProgress: int
    var isUploading: bool

    /** The shared store, the bounded log, and a status on every loaded lead. */
    ghost predicate Valid()
      reads this`auditLogs, this`leads
    {
      && app.storage == storage
      && |auditLogs| <= LogCapacity
      && forall i :: 0 <= i < |leads| ==> leads[i].status.Some?
    }

    /** The `useState` initial values. */
    constructor (app: AppState)
      ensures this.app == app && storage == app.storage
      ensures leads == [] && auditLogs == [] && error == None && !isRefreshing
      ensures searchQuery == "" && leadFilter == All && editingItem == None && newItem == EmptyDraft
      ensures uploadProgress == 0 && !isUploading
      ensures Valid()
    {
      this.app := app;
      storage := app.storage;
      leads := [];
      auditLogs := [];
      error := None;
      isRefreshing := false;
      searchQuery := "";
      leadFilter := All;
      editingItem := None;
      newItem := EmptyDraft;
      uploadProgress := 0;
      isUploading := false;
    }

    /** `addLog`: records one entry, newest first, keeping at most ten. */
    method AddLog(action: string, severity: Severity, time: string)
      requires Valid()
      modifies this`auditLogs
      ensures Valid()
      ensures auditLogs == PushLog(old(auditLogs), LogEntry(time, action, severity))
    {
      auditLogs := PushLog(auditLogs, LogEntry(time, action, severity));
    }

    /**
     * `loadLeads` up to the point where it schedules the refresh timer. `ok` is
     * false when the stored value does not decode to a lead list: the handler
     * throws there, after raising the refresh flag and before the timer.
     */
    method LoadLeads() returns (ok: bool)
      requires Valid()
      modifies this`leads, this`isRefreshing
      ensures Valid()
      ensures isRefreshing
      ensures ok == LoadedLeads(old(leads), storage.GetItem(LeadsKey)).Some?
      ensures leads == LoadedLeads(old(leads), storage.GetItem(LeadsKey)).GetOr(old(leads))
    {
      isRefreshing := true;
      var loaded := LoadedLeads(leads, storage.GetItem(LeadsKey));
      ok := loaded.Some?;
      if ok {
        BackfillGivesEveryLeadAStatus(loaded.value);
        leads := loaded.value;
      }
    }

    /** The refresh timer's callback. */
    method FinishRefresh(time: string)
      requires Valid()
      modifies this`isRefreshing, this`auditLogs
      ensures Valid()
      ensures !isRefreshing
      ensures auditLogs == PushLog(old(auditLogs), LogEntry(time, "Intelligence database synchronized", Info))
    {
      isRefreshing := false;
      AddLog("Intelligence database synchronized", Info, time);
    }

    /** The mount effect: load the leads, then log the start-up (unless the load threw). */
    method Mount(time: string) returns (ok: bool)
      requires Valid()
      modifies this`leads, this`isRefreshing, this`auditLogs
      ensures Valid()
      ensures isRefreshing
      ensures ok == LoadedLeads(old(leads), storage.GetItem(LeadsKey)).Some?
      ensures leads == LoadedLeads(old(leads), storage.GetItem(LeadsKey)).GetOr(old(leads))
      ensures auditLogs == if ok then PushLog(old(auditLogs), LogEntry(time, "Control Core initialized", Info))
                           else old(auditLogs)
    {
      ok := LoadLeads();
      if ok {
        AddLog("Control Core initialized", Info, time);
      }
    }

    /**
     * `handleFileUpload` up to the reader's start event. No file is a no-op;
     * a file over 2 MiB is refused with an error and a critical log entry,
     * and neither buffer changes; any other file starts the upload.
     */
    method HandleFileUpload(file: Option<FileInfo>, time: string) returns (accepted: bool)
      requires Valid()
      modifies this`error, this`auditLogs, this`isUploading, this`uploadProgress
      ensures Valid()
      ensures accepted <==> file.Some? && file.value.size <= MaxUploadBytes
      ensures file.None? ==>
                error == old(error) && auditLogs == old(auditLogs)
                && isUploading == old(isUploading) && uploadProgress == old(uploadProgress)
      ensures file.Some? && !accepted ==>
                && error == Some(OversizedMessage)
                && auditLogs == PushLog(old(auditLogs), LogEntry(time, "Upload rejected: Oversized asset", Critical))
                && isUploading == old(isUploading) && uploadProgress == old(uploadProgress)
      ensures accepted ==>
                && error == old(error)
                && auditLogs == PushLog(old(auditLogs), LogEntry(time, "Processing file: " + file.value.name, Info))
                && isUploading && uploadProgress == 0
    {
      if file.None? {
        return false;
      }
      var f := file.value;
      if f.size > MaxUploadBytes {
        error := Some(OversizedMessage);
        AddLog("Upload rejected: Oversized asset", Critical, time);
        return false;
      }
      isUploading := true;
      uploadProgress := 0;
      AddLog("Processing file: " + f.name, Info, time);
      accepted := true;
    }

    /** The reader's load event: the data URL becomes the thumbnail of the buffer being edited. */
    method OnFileLoaded(result: string)
      requires Valid()
      modifies this`editingItem, this`newItem
      ensures Valid()
      ensures old(editingItem).Some? ==>
                editingItem == Some(old(editingItem).value.(url := result)) && newItem == old(newItem)
      ensures old(editingItem).None? ==>
                editingItem == None && newItem == old(newItem).(url := result)
    {
      if editingItem.Some? {
        editingItem := Some(editingItem.value.(url := result));
      } else {
        newItem := newItem.(url := result);
      }
    }

    /** The post-processing timer after a load; `kbLabel` is the formatted size in KiB. */
    method OnUploadSettled(name: string, kbLabel: string, time: string)
      requires Valid()
      modifies this`isUploading, this`uploadProgress, this`auditLogs
      ensures Valid()
      ensures !isUploading && uploadProgress == 0
      ensures auditLogs == PushLog(old(auditLogs), LogEntry(time, "Asset cached: " + name + " (" + kbLabel + " KB)", Info))
    {
      isUploading := false;
      uploadProgress := 0;
      AddLog("Asset cached: " + name + " (" + kbLabel + " KB)", Info, time);
    }

    /** `handleDeleteItem`: drops every item with the id, and logs the title of the first (or `undefined`). */
    method HandleDeleteItem(id: int, time: string)
      requires Valid()
      modifies app, storage, this`auditLogs
      ensures Valid()
      ensures app.portfolioItems == RemoveById(old(app.portfolioItems), id)
      ensures storage.entries == old(storage.entries)[PortfolioKey := ItemList(app.portfolioItems)]
      ensures app.Mirrored()
      ensures auditLogs == PushLog(old(auditLogs), LogEntry(time,
                "Asset removed: " + FindTitle(old(app.portfolioItems), id).GetOr("undefined"), Warning))
    {
      var title := FindTitle(app.portfolioItems, id);
      app.SetPortfolioItems(RemoveById(app.portfolioItems, id));
      AddLog("Asset removed: " + title.GetOr("undefined"), Warning, time);
    }

    /** `updateLeadStatus` on a stored position: only that lead's status changes, and the list is stored. */
    method UpdateLeadStatus(index: nat, status: LeadStatus, time: string)
      requires Valid() && index < |leads|
      modifies this`leads, this`auditLogs, storage
      ensures Valid()
      ensures |leads| == |old(leads)|
      ensures leads[index] == old(leads[index]).(status := Some(status))
      ensures forall j :: 0 <= j < |leads| && j != index ==> leads[j] == old(leads[j])
      ensures storage.entries == old(storage.entries)[LeadsKey := LeadList(leads)]
      ensures auditLogs == PushLog(old(auditLogs), LogEntry(time,
                "Lead status updated: " + old(leads[index]).fullName + " -> " + StatusName(status), Info))
    {
      leads := leads[index := leads[index].(status := Some(status))];
      storage.SetItem(LeadsKey, LeadList(leads));
      AddLog("Lead status updated: " + leads[index].fullName + " -> " + StatusName(status), Info, time);
    }

    /** `handleDeleteLead` on a stored position: exactly that lead goes, the rest keep their order. */
    method HandleDeleteLead(index: nat, time: string)
      requires Valid() && index < |leads|
      modifies this`leads, this`auditLogs, storage
      ensures Valid()
      ensures leads == old(leads[..index]) + old(leads[index + 1..])
      ensures |leads| == |old(leads)| - 1
      ensures storage.entries == old(storage.entries)[LeadsKey := LeadList(leads)]
      ensures auditLogs == PushLog(old(auditLogs), LogEntry(time,
                "Lead purged from registry: " + old(leads[index]).fullName, Critical))
    {
      var leadName := leads[index].fullName;
      leads := leads[..index] + leads[index + 1..];
      storage.SetItem(LeadsKey, LeadList(leads));
      AddLog("Lead purged from registry: " + leadName, Critical, time);
    }

    /** The status select of table row `row`, corrected to change the lead that row shows. */
    method UpdateLeadStatusAtRow(row: nat, status: LeadStatus, time: string)
      requires Valid() && row < |FilterLeads(leads, searchQuery, leadFilter)|
      modifies this`leads, this`auditLogs, storage
      ensures Valid()
      ensures var k := RowIndex(old(leads), searchQuery, leadFilter, row);
              && old(leads[k]) == FilterLeads(old(leads), searchQuery, leadFilter)[row]
              && leads == old(leads)[k := old(leads[k]).(status := Some(status))]
              && auditLogs == PushLog(old(auditLogs), LogEntry(time,
                   "Lead status updated: " + old(leads[k]).fullName + " -> " + StatusName(status), Info))
      ensures storage.entries == old(storage.entries)[LeadsKey := LeadList(leads)]
    {
      var k := RowIndex(leads, searchQuery, leadFilter, row);
      UpdateLeadStatus(k, status, time);
    }

    /** The delete button of table row `row`, corrected to delete the lead that row shows. */
    method HandleDeleteLeadAtRow(row: nat, time: string)
      requires Valid() && row < |FilterLeads(leads, searchQuery, leadFilter)|
      modifies this`leads, this`auditLogs, storage
      ensures Valid()
      ensures var k := RowIndex(old(leads), searchQuery, leadFilter, row);
              && old(leads[k]) == FilterLeads(old(leads), searchQuery, leadFilter)[row]
              && leads == old(leads[..k]) + old(leads[k + 1..])
              && auditLogs == PushLog(old(auditLogs), LogEntry(time,
                   "Lead purged from registry: " + old(leads[k]).fullName, Critical))
      ensures storage.entries == old(storage.entries)[LeadsKey := LeadList(leads)]
    {
      var k := RowIndex(leads, searchQuery, leadFilter, row);
      HandleDeleteLead(k, time);
    }

    /** `finalizeSave` in edit mode: the edited item replaces its id, and edit mode ends. */
    method FinalizeEdit(time: string)
      requires Valid() && editingItem.Some?
      modifies app, storage, this`auditLogs, this`editingItem, this`isUploading, this`uploadProgress
      ensures Valid()
      ensures app.portfolioItems == ReplaceById(old(app.portfolioItems), old(editingItem).value)
      ensures storage.entries == old(storage.entries)[PortfolioKey := ItemList(app.portfolioItems)]
      ensures auditLogs == PushLog(old(auditLogs), LogEntry(time, "Asset re-configured: " + old(editingItem).value.title, Info))
      ensures editingItem == None && !isUploading && uploadProgress == 0
    {
      var edited := editingItem.value;
      app.SetPortfolioItems(ReplaceById(app.portfolioItems, edited));
      AddLog("Asset re-configured: " + edited.title, Info, time);
      editingItem := None;
      isUploading := false;
      uploadProgress := 0;
    }

    /** `finalizeSave` in create mode: the new item goes first, and the buffer is reset. */
    method FinalizeCreate(now: int, time: string)
      requires Valid() && editingItem.None?
      modifies app, storage, this`auditLogs, this`newItem, this`isUploading, this`uploadProgress
      ensures Valid()
      ensures app.portfolioItems == [NewItem(old(newItem), now)] + old(app.portfolioItems)
      ensures storage.entries == old(storage.entries)[PortfolioKey := ItemList(app.portfolioItems)]
      ensures auditLogs == PushLog(old(auditLogs), LogEntry(time, "New asset deployed: " + NewItem(old(newItem), now).title, Info))
      ensures newItem == EmptyDraft && !isUploading && uploadProgress == 0
    {
      var item := NewItem(newItem, now);
      app.SetPortfolioItems([item] + app.portfolioItems);
      AddLog("New asset deployed: " + item.title, Info, time);
      newItem := EmptyDraft;
      isUploading := false;
      uploadProgress := 0;
    }

    /** `finalizeSave`: store the edited or the created item, log it, and reset the buffer and the progress. */
    method FinalizeSave(now: int, time: string)
      requires Valid()
      modifies app, storage, this`auditLogs, this`editingItem, this`newItem, this`isUploading, this`uploadProgress
      ensures Valid()
      ensures app.portfolioItems == SavedItems(old(app.portfolioItems), old(editingItem), old(newItem), now)
      ensures storage.entries == old(storage.entries)[PortfolioKey := ItemList(app.portfolioItems)]
      ensures auditLogs == PushLog(old(auditLogs), LogEntry(time, SaveLogAction(old(editingItem), old(newItem), now), Info))
      ensures editingItem == None
      ensures newItem == if old(editingItem).Some? then old(newItem) else EmptyDraft
      ensures !isUploading && uploadProgress == 0
    {
      if editingItem.Some? {
        FinalizeEdit(time);
      } else {
        FinalizeCreate(now, time);
      }
    }

    /**
     * `handleSaveItem`: clear the error, validate the buffer being saved, and
     * on success run the deploy ticker to 100 in steps of 5, finalizing once,
     * on the tick that reaches it. `trace` is the progress after each tick.
     * A rejected save shows its message; a save whose check throws (a video
     * with no `videoUrl` field) stops with the error cleared and no message.
     */
    method HandleSaveItem(now: int, time: string) returns (check: SaveCheck, trace: seq<int>, finalizations: nat)
      requires Valid()
      modifies app, storage, this`error, this`auditLogs, this`editingItem, this`newItem, this`isUploading, this`uploadProgress
      ensures Valid()
      ensures var t := SaveTarget(old(editingItem), old(newItem));
              check == CheckSave(t.title, t.url, t.isVideo, t.videoUrl)
      ensures !check.Pass? ==>
                && error == (if check.Reject? then Some(SaveErrorMessage(check.reason)) else None)
                && app.portfolioItems == old(app.portfolioItems) && storage.entries == old(storage.entries)
                && auditLogs == old(auditLogs) && editingItem == old(editingItem) && newItem == old(newItem)
                && isUploading == old(isUploading) && uploadProgress == old(uploadProgress)
                && trace == [] && finalizations == 0
      ensures check.Pass? ==>
                && error == None
                && |trace| == 20
                && (forall i :: 0 <= i < |trace| ==> trace[i] == TickIncrement * (i + 1))
                && finalizations == 1
                && app.portfolioItems == SavedItems(old(app.portfolioItems), old(editingItem), old(newItem), now)
                && storage.entries == old(storage.entries)[PortfolioKey := ItemList(app.portfolioItems)]
                && auditLogs == PushLog(old(auditLogs), LogEntry(time, SaveLogAction(old(editingItem), old(newItem), now), Info))
                && editingItem == None
                && newItem == (if old(editingItem).Some? then old(newItem) else EmptyDraft)
                && !isUploading && uploadProgress == 0
    {
      error := None;
      trace := [];
      finalizations := 0;
      var target := SaveTarget(editingItem, newItem);
      check := CheckSave(target.title, target.url, target.isVideo, target.videoUrl);
      if check.Reject? {
        error := Some(SaveErrorMessage(check.reason));
        return;
      } else if check.Throws? {
        return;
      }
      isUploading := true;
      var prog := 0;
      var cleared := false;
      while !cleared
        invariant Valid()
        invariant 0 <= prog <= 100 && prog % TickIncrement == 0
        invariant |trace| == prog / TickIncrement
        invariant forall i :: 0 <= i < |trace| ==> trace[i] == TickIncrement * (i + 1)
        invariant cleared <==> prog == 100
        invariant finalizations == if cleared then 1 else 0
        invariant error == None
        invariant !cleared ==>
                    && app.portfolioItems == old(app.portfolioItems) && storage.entries == old(storage.entries)
                    && auditLogs == old(auditLogs) && editingItem == old(editingItem) && newItem == old(newItem)
                    && isUploading
        invariant cleared ==>
                    && app.portfolioItems == SavedItems(old(app.portfolioItems), old(editingItem), old(newItem), now)
                    && storage.entries == old(storage.entries)[PortfolioKey := ItemList(app.portfolioItems)]
                    && auditLogs == PushLog(old(auditLogs), LogEntry(time, SaveLogAction(old(editingItem), old(newItem), now), Info))
                    && editingItem == None
                    && newItem == (if old(editingItem).Some? then old(newItem) else EmptyDraft)
                    && !isUploading && uploadProgress == 0
        decreases 100 - prog
      {
        prog := prog + TickIncrement;
        uploadProgress := prog;
        trace := trace + [prog];
        if prog >= 100 {
          cleared := true;
          FinalizeSave(now, time);
          finalizations := finalizations + 1;
        }
      }
    }

    /** The edit button of a grid card: the card's item becomes the edit buffer. */
    method BeginEdit(item: PortfolioItem)
      requires Valid()
      modifies this`editingItem
      ensures Valid()
      ensures editingItem == Some(item)
    {
      editingItem := Some(item);
    }

    /** The abort button: leave edit mode. */
    method CancelEdit()
      requires Valid()
      modifies this`editingItem
      ensures Valid()
      ensures editingItem == None
    {
      editingItem := None;
    }

    /** `copyToClipboard`: the clipboard write is outside the model; the log entry is not. */
    method CopyToClipboard(text: string, time: string)
      requires Valid()
      modifies this`auditLogs
      ensures Valid()
      ensures auditLogs == PushLog(old(auditLogs), LogEntry(time, "Registry transmission: Copied \"" + text + "\"", Info))
    {
      AddLog("Registry transmission: Copied \"" + text + "\"", Info, time);
    }

    method SetSearchQuery(query: string)
      requires Valid()
      modifies this`searchQuery
      ensures Valid()
      ensures searchQuery == query
    {
      searchQuery := query;
    }

    method SetLeadFilter(filter: StatusFilter)
      requires Valid()
      modifies this`leadFilter
      ensures Valid()
      ensures leadFilter == filter
    {
      leadFilter := filter;
    }
  }
}
