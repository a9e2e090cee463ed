/**
 * The pure parts of components/AdminHub.tsx: the bounded audit log, the
 * status back-fill on lead load, the lead search/status view, the portfolio
 * list updates by id, save validation and the shape of a created item.
 */
module Registry {
  import opened Wrappers
  import opened Text
  import opened Records

  // ---------------------------------------------------------------------------
  // Audit log

  const LogCapacity: nat := 10

  function Min(a: nat, b: nat): nat {
    if a < b then a else b
  }

  /** `[log, ...prev].slice(0, 10)`: the new entry first, then the newest of the previous ones. */
  function PushLog(logs: seq<LogEntry>, entry: LogEntry): (r: seq<LogEntry>)
    ensures |r| == Min(|logs| + 1, LogCapacity)
    ensures r[0] == entry
    ensures r[1..] == logs[..|r| - 1]
  {
    ([entry] + logs)[..Min(|logs| + 1, LogCapacity)]
  }

  function Reversed(s: seq<LogEntry>): (r: seq<LogEntry>)
    ensures |r| == |s|
  {
    if s == [] then [] else [s[|s| - 1]] + Reversed(s[..|s| - 1])
  }

  /** The log after recording `entries` in order, starting from an empty log. */
  function LogAfter(entries: seq<LogEntry>): seq<LogEntry> {
    if entries == [] then [] else PushLog(LogAfter(entries[..|entries| - 1]), entries[|entries| - 1])
  }

  /** Whatever is recorded, the log holds the ten most recent entries, newest first. */
  lemma {:induction false} LogKeepsNewestFirst(entries: seq<LogEntry>)
    ensures LogAfter(entries) == Reversed(entries)[..Min(|entries|, LogCapacity)]
  {
    if entries != [] {
      var n := |entries|;
      var p, e := entries[..n - 1], entries[n - 1];
      LogKeepsNewestFirst(p);
      var m := Min(n - 1, LogCapacity);
      var k := Min(n, LogCapacity);
      assert Reversed(entries) == [e] + Reversed(p);
      calc {
        LogAfter(entries);
        PushLog(Reversed(p)[..m], e);
        ([e] + Reversed(p)[..m])[..k];
        { assert k <= m + 1; }
        ([e] + Reversed(p))[..k];
      }
    }
  }

  // ---------------------------------------------------------------------------
  // Leads

  /** `{ ...l, status: l.status || 'new' }`. */
  function BackfillLead(l: Lead): Lead {
    l.(status := Some(l.status.GetOr(New)))
  }

  /** The lead load: a missing status becomes `new`; nothing else, and not the order, changes. */
  function BackfillStatus(leads: seq<Lead>): (r: seq<Lead>)
    ensures |r| == |leads|
    ensures forall i :: 0 <= i < |leads| ==> r[i] == leads[i].(status := r[i].status)
    ensures forall i :: 0 <= i < |leads| ==>
              r[i].status == if leads[i].status.Some? then leads[i].status else Some(New)
  {
    if leads == [] then [] else [BackfillLead(leads[0])] + BackfillStatus(leads[1..])
  }

  /** Loading twice back-fills nothing more. */
  lemma BackfillIdempotent(leads: seq<Lead>)
    ensures BackfillStatus(BackfillStatus(leads)) == BackfillStatus(leads)
  {
  }

  /** After the back-fill every lead has a status. */
  lemma BackfillGivesEveryLeadAStatus(leads: seq<Lead>)
    ensures forall i :: 0 <= i < |leads| ==> BackfillStatus(leads)[i].status.Some?
  {
  }

  /** The status choice of the lead view: `'all'` or one status. */
  datatype StatusFilter = All | Only(status: LeadStatus)

  predicate MatchesSearch(lead: Lead, query: string) {
    || Contains(ToLower(lead.fullName), ToLower(query))
    || Contains(ToLower(lead.handle), ToLower(query))
  }

  predicate MatchesFilter(lead: Lead, filter: StatusFilter) {
    filter.All? || lead.status == Some(filter.status)
  }

  /** A lead is listed when it passes both the search and the status test. */
  predicate IsShown(lead: Lead, query: string, filter: StatusFilter) {
    MatchesSearch(lead, query) && MatchesFilter(lead, filter)
  }

  /** The test of the lead view, as the callback the filter takes. */
  function ShownBy(query: string, filter: StatusFilter): Lead -> bool {
    (lead: Lead) => IsShown(lead, query, filter)
  }

  /** `Array.prototype.filter`: the elements that pass `keep`, in their order. */
  function Select<T(==)>(s: seq<T>, keep: T -> bool): (r: seq<T>)
    ensures |r| <= |s|
  {
    if s == [] then [] else (if keep(s[0]) then [s[0]] else []) + Select(s[1..], keep)
  }

  /** The filter keeps an element exactly when it is in the input and passes. */
  lemma {:induction false} SelectMembers<T>(s: seq<T>, keep: T -> bool)
    ensures forall x :: x in Select(s, keep) <==> x in s && keep(x)
  {
    if s != [] {
      SelectMembers(s[1..], keep);
      assert s == [s[0]] + s[1..];
    }
  }

  /** Filtering distributes over concatenation, so the relative order of the kept elements is kept. */
  lemma {:induction false} SelectConcat<T>(a: seq<T>, b: seq<T>, keep: T -> bool)
    ensures Select(a + b, keep) == Select(a, keep) + Select(b, keep)
  {
    if a == [] {
      assert a + b == b;
    } else {
      var ab := a + b;
      assert ab[0] == a[0];
      assert ab[1..] == a[1..] + b;
      SelectConcat(a[1..], b, keep);
      var head := if keep(a[0]) then [a[0]] else [];
      calc {
        Select(ab, keep);
        head + Select(a[1..] + b, keep);
        head + (Select(a[1..], keep) + Select(b, keep));
        (head + Select(a[1..], keep)) + Select(b, keep);
      }
    }
  }

  /** When every element passes, the filter keeps the sequence as it is. */
  lemma {:induction false} SelectEverything<T>(s: seq<T>, keep: T -> bool)
    requires forall i :: 0 <= i < |s| ==> keep(s[i])
    ensures Select(s, keep) == s
  {
    if s != [] {
      SelectEverything(s[1..], keep);
    }
  }

  /** Filtering a longer prefix never keeps fewer elements. */
  lemma SelectPrefixMonotone<T>(s: seq<T>, j: nat, k: nat, keep: T -> bool)
    requires j <= k <= |s|
    ensures |Select(s[..j], keep)| <= |Select(s[..k], keep)|
  {
    assert s[..k] == s[..j] + s[j..k];
    SelectConcat(s[..j], s[j..k], keep);
  }

  /** Extending a prefix by one element adds one kept element exactly when that element passes. */
  lemma SelectStep<T>(s: seq<T>, k: nat, keep: T -> bool)
    requires k < |s|
    ensures |Select(s[..k + 1], keep)| == |Select(s[..k], keep)| + (if keep(s[k]) then 1 else 0)
  {
    assert s[..k + 1] == s[..k] + [s[k]];
    SelectConcat(s[..k], [s[k]], keep);
  }

  /** The kept elements of a prefix of length `k + 1`: the head if it passes, then those of the tail's prefix. */
  lemma SelectPrefixCons<T>(s: seq<T>, k: nat, keep: T -> bool)
    requires k < |s|
    ensures |Select(s[..k + 1], keep)| == (if keep(s[0]) then 1 else 0) + |Select(s[1..][..k], keep)|
  {
    var p := s[..k + 1];
    assert p[0] == s[0];
    assert p[1..] == s[1..][..k];
  }

  /** The position in `s` of the element the filter puts at index `row`: a kept element with `row` kept ones before it. */
  function Position<T(==)>(s: seq<T>, keep: T -> bool, row: nat): (k: nat)
    requires row < |Select(s, keep)|
    ensures k < |s| && keep(s[k])
    ensures s[k] == Select(s, keep)[row]
    ensures |Select(s[..k], keep)| == row
  {
    if keep(s[0]) && row == 0 then
      assert s[..0] == [];
      0
    else
      var k' := Position(s[1..], keep, if keep(s[0]) then row - 1 else row);
      SelectPrefixCons(s, k', keep);
      k' + 1
  }

  /** Later filter indices come from later positions. */
  lemma PositionIncreasing<T>(s: seq<T>, keep: T -> bool, r1: nat, r2: nat)
    requires r1 < r2 < |Select(s, keep)|
    ensures Position(s, keep, r1) < Position(s, keep, r2)
  {
  }

  /** Every kept element is found at the filter index that counts the kept elements before it. */
  lemma PositionOfKept<T>(s: seq<T>, keep: T -> bool, i: nat)
    requires i < |s| && keep(s[i])
    ensures |Select(s[..i], keep)| < |Select(s, keep)|
    ensures Position(s, keep, |Select(s[..i], keep)|) == i
  {
    var row := |Select(s[..i], keep)|;
    SelectStep(s, i, keep);
    SelectPrefixMonotone(s, i + 1, |s|, keep);
    assert s[..|s|] == s;
    var k := Position(s, keep, row);
    if k < i {
      SelectStep(s, k, keep);
      SelectPrefixMonotone(s, k + 1, i, keep);
    } else if k > i {
      SelectPrefixMonotone(s, i + 1, k, keep);
    }
  }

  /** `filteredLeads`: exactly the listed leads, in their stored order. */
  function FilterLeads(leads: seq<Lead>, query: string, filter: StatusFilter): (r: seq<Lead>)
    ensures |r| <= |leads|
    ensures forall x :: x in r ==> x in leads && IsShown(x, query, filter)
    ensures forall i :: 0 <= i < |leads| && IsShown(leads[i], query, filter) ==> leads[i] in r
  {
    SelectMembers(leads, ShownBy(query, filter));
    Select(leads, ShownBy(query, filter))
  }

  /** The empty search with the `'all'` filter lists every lead. */
  lemma FilterEverything(leads: seq<Lead>)
    ensures FilterLeads(leads, "", All) == leads
  {
    assert ToLower("") == "";
    forall i | 0 <= i < |leads| ensures ShownBy("", All)(leads[i]) {
      ContainsEmpty(ToLower(leads[i].fullName));
    }
    SelectEverything(leads, ShownBy("", All));
  }

  /**
   * The stored position of the lead shown in row `row` of the view: a listed
   * lead with exactly `row` listed leads before it.
   */
  function RowIndex(leads: seq<Lead>, query: string, filter: StatusFilter, row: nat): (k: nat)
    requires row < |FilterLeads(leads, query, filter)|
    ensures k < |leads|
    ensures IsShown(leads[k], query, filter)
    ensures leads[k] == FilterLeads(leads, query, filter)[row]
    ensures |FilterLeads(leads[..k], query, filter)| == row
  {
    Position(leads, ShownBy(query, filter), row)
  }

  /** Rows follow the stored order: a later row shows a lead stored later. */
  lemma RowIndexIncreasing(leads: seq<Lead>, query: string, filter: StatusFilter, r1: nat, r2: nat)
    requires r1 < r2 < |FilterLeads(leads, query, filter)|
    ensures RowIndex(leads, query, filter, r1) < RowIndex(leads, query, filter, r2)
  {
    PositionIncreasing(leads, ShownBy(query, filter), r1, r2);
  }

  /** Every listed lead is shown in exactly the row that counts the listed leads before it. */
  lemma EveryShownLeadHasItsRow(leads: seq<Lead>, query: string, filter: StatusFilter, i: nat)
    requires i < |leads| && IsShown(leads[i], query, filter)
    ensures |FilterLeads(leads[..i], query, filter)| < |FilterLeads(leads, query, filter)|
    ensures RowIndex(leads, query, filter, |FilterLeads(leads[..i], query, filter)|) == i
  {
    PositionOfKept(leads, ShownBy(query, filter), i);
  }

  /** The index the lead table passes to the status and delete handlers: the row number itself. */
  function RowTargetAsWritten(leads: seq<Lead>, query: string, filter: StatusFilter, row: nat): (k: nat)
    requires row < |FilterLeads(leads, query, filter)|
    ensures k < |leads|
  {
    row
  }

  /** Without an active search or status filter, the row number is the stored position. */
  lemma AsWrittenRowTargetRightWithoutFilter(leads: seq<Lead>, row: nat)
    requires row < |FilterLeads(leads, "", All)|
    ensures RowTargetAsWritten(leads, "", All, row) == RowIndex(leads, "", All, row)
  {
    FilterEverything(leads);
    var k := RowIndex(leads, "", All, row);
    FilterEverything(leads[..k]);
  }

  /** With a status filter active, row 0 can show one lead while the handler edits another. */
  lemma AsWrittenRowTargetWrongUnderFilter()
    ensures
      var newcomer := Lead("Avery Stone", "@avery", "Content", "2024-05-01", Some(New), None);
      var called := Lead("Blake Reed", "@blake", "Leads", "2024-04-01", Some(Contacted), None);
      var leads := [newcomer, called];
      && FilterLeads(leads, "", Only(Contacted)) == [called]
      && RowIndex(leads, "", Only(Contacted), 0) == 1
      && leads[RowTargetAsWritten(leads, "", Only(Contacted), 0)] == newcomer
      && newcomer != called
  {
    var newcomer := Lead("Avery Stone", "@avery", "Content", "2024-05-01", Some(New), None);
    var called := Lead("Blake Reed", "@blake", "Leads", "2024-04-01", Some(Contacted), None);
    var leads := [newcomer, called];
    assert ToLower("") == "";
    ContainsEmpty(ToLower(called.fullName));
    var keep := ShownBy("", Only(Contacted));
    assert !keep(newcomer);
    assert keep(called);
    assert leads[1..] == [called];
    assert [called][1..] == [];
    assert Select([called], keep) == [called] + Select([], keep);
    assert Select(leads, keep) == [] + Select([called], keep);
  }

  // ---------------------------------------------------------------------------
  // Portfolio items

  /** `prev.map(item => item.id === edited.id ? { ...edited } : item)`. */
  function ReplaceById(items: seq<PortfolioItem>, edited: PortfolioItem): (r: seq<PortfolioItem>)
    ensures |r| == |items|
    ensures forall i :: 0 <= i < |items| ==> r[i] == if items[i].id == edited.id then edited else items[i]
  {
    if items == [] then [] else
      [if items[0].id == edited.id then edited else items[0]] + ReplaceById(items[1..], edited)
  }

  /** An edit keeps every position's id. */
  lemma ReplaceKeepsIds(items: seq<PortfolioItem>, edited: PortfolioItem)
    ensures forall i :: 0 <= i < |items| ==> ReplaceById(items, edited)[i].id == items[i].id
  {
  }

  /** Editing an id that is not in the collection changes nothing (and reports nothing). */
  lemma ReplaceAbsentIdIsNoOp(items: seq<PortfolioItem>, edited: PortfolioItem)
    requires forall i :: 0 <= i < |items| ==> items[i].id != edited.id
    ensures ReplaceById(items, edited) == items
  {
  }

  /** The callback of the delete filter: keep every item whose id differs. */
  function OtherThan(id: int): PortfolioItem -> bool {
    (item: PortfolioItem) => item.id != id
  }

  /** `prev.filter(item => item.id !== id)`: the items with another id, in their order. */
  function RemoveById(items: seq<PortfolioItem>, id: int): (r: seq<PortfolioItem>)
    ensures |r| <= |items|
    ensures forall x :: x in r <==> x in items && x.id != id
  {
    SelectMembers(items, OtherThan(id));
    Select(items, OtherThan(id))
  }

  /** Removal distributes over concatenation, so the kept items keep their order. */
  lemma RemoveByIdConcat(a: seq<PortfolioItem>, b: seq<PortfolioItem>, id: int)
    ensures RemoveById(a + b, id) == RemoveById(a, id) + RemoveById(b, id)
  {
    SelectConcat(a, b, OtherThan(id));
  }

  /** Deleting an id that is not in the collection is a no-op. */
  lemma RemoveAbsentIdIsNoOp(items: seq<PortfolioItem>, id: int)
    requires forall i :: 0 <= i < |items| ==> items[i].id != id
    ensures RemoveById(items, id) == items
  {
    SelectEverything(items, OtherThan(id));
  }

  /** Deleting the same id twice is deleting it once. */
  lemma RemoveByIdIdempotent(items: seq<PortfolioItem>, id: int)
    ensures RemoveById(RemoveById(items, id), id) == RemoveById(items, id)
  {
    var r := RemoveById(items, id);
    forall i | 0 <= i < |r| ensures r[i].id != id {
      assert r[i] in r;
    }
    RemoveAbsentIdIsNoOp(r, id);
  }

  /** `portfolioItems.find(i => i.id === id)?.title`: the title of the first item with that id. */
  function FindTitle(items: seq<PortfolioItem>, id: int): (r: Option<string>)
    ensures r.None? <==> forall i :: 0 <= i < |items| ==> items[i].id != id
    ensures r.Some? ==> exists i :: 0 <= i < |items| && items[i].id == id && items[i].title == r.value
                          && forall j :: 0 <= j < i ==> items[j].id != id
  {
    if items == [] then None
    else if items[0].id == id then Some(items[0].title)
    else
      var r := FindTitle(items[1..], id);
      if r.Some? then
        var i :| 0 <= i < |items| - 1 && items[1..][i].id == id && items[1..][i].title == r.value
                 && forall j :: 0 <= j < i ==> items[1..][j].id != id;
        assert items[i + 1].id == id && items[i + 1].title == r.value;
        r
      else r
  }

  /** The new-item buffer: an item without its id. */
  datatype ItemDraft = ItemDraft(title: string, url: string, isVideo: bool, videoUrl: string, status: ItemStatus)

  const EmptyDraft: ItemDraft := ItemDraft("", "", false, "", Active)

  datatype SaveError = MissingTitle | MissingThumbnail | MissingVideoSource

  function SaveErrorMessage(e: SaveError): string {
    match e
    case MissingTitle => "Asset Title is required."
    case MissingThumbnail => "Thumbnail source is required."
    case MissingVideoSource => "Cinematic Source URL is required for video items."
  }

  /**
   * How the checks of `handleSaveItem` end: all pass, one reports its error,
   * or the video check calls `trim` on an absent `videoUrl` and throws.
   */
  datatype SaveCheck = Pass | Reject(reason: SaveError) | Throws

  /** The three checks of `handleSaveItem`, in order, stopping at the first that fails. */
  function CheckSave(title: string, url: string, isVideo: bool, videoUrl: Option<string>): SaveCheck {
    if IsBlank(title) then Reject(MissingTitle)
    else if IsBlank(url) then Reject(MissingThumbnail)
    else if isVideo && videoUrl.None? then Throws
    else if isVideo && IsBlank(videoUrl.value) then Reject(MissingVideoSource)
    else Pass
  }

  /**
   * Each error is reported exactly when its check fails and every earlier
   * check passed; the third check throws exactly when it meets no video source.
   */
  lemma CheckSaveReportsFirstFailure(title: string, url: string, isVideo: bool, videoUrl: Option<string>)
    ensures CheckSave(title, url, isVideo, videoUrl) == Reject(MissingTitle) <==> IsBlank(title)
    ensures CheckSave(title, url, isVideo, videoUrl) == Reject(MissingThumbnail)
            <==> !IsBlank(title) && IsBlank(url)
    ensures CheckSave(title, url, isVideo, videoUrl) == Throws
            <==> !IsBlank(title) && !IsBlank(url) && isVideo && videoUrl.None?
    ensures CheckSave(title, url, isVideo, videoUrl) == Reject(MissingVideoSource)
            <==> !IsBlank(title) && !IsBlank(url) && isVideo && videoUrl.Some? && IsBlank(videoUrl.value)
    ensures CheckSave(title, url, isVideo, videoUrl) == Pass
            <==> !IsBlank(title) && !IsBlank(url) && (isVideo ==> videoUrl.Some? && !IsBlank(videoUrl.value))
  {
  }

  /** The item `finalizeSave` creates from the new-item buffer. */
  function NewItem(d: ItemDraft, now: int): PortfolioItem {
    PortfolioItem(now, Trim(d.title), Trim(d.url), d.isVideo,
                  Some(if d.isVideo then Trim(d.videoUrl) else ""),
                  Some(if d.isVideo then Video else Image), Some(Active))
  }

  /**
   * The record invariant of a created item: non-empty trimmed title and
   * thumbnail, a video source exactly for a video, the derived tag, `active`.
   */
  predicate WellFormed(item: PortfolioItem) {
    && item.title != "" && Trim(item.title) == item.title
    && item.url != "" && Trim(item.url) == item.url
    && (item.isVideo ==> item.videoUrl.Some? && item.videoUrl.value != "" && Trim(item.videoUrl.value) == item.videoUrl.value)
    && (!item.isVideo ==> item.videoUrl == Some(""))
    && item.kind == Some(if item.isVideo then Video else Image)
    && item.status == Some(Active)
  }

  /** A buffer that passes save validation yields a well-formed item carrying the given id. */
  lemma CreatedItemIsWellFormed(d: ItemDraft, now: int)
    requires CheckSave(d.title, d.url, d.isVideo, Some(d.videoUrl)) == Pass
    ensures WellFormed(NewItem(d, now)) && NewItem(d, now).id == now
  {
    TrimIdempotent(d.title);
    TrimIdempotent(d.url);
    TrimIdempotent(d.videoUrl);
  }

  // ---------------------------------------------------------------------------
  // Upload

  /** The largest file the upload accepts: 2 MiB. */
  const MaxUploadBytes: nat := 2 * 1024 * 1024

  datatype FileInfo = FileInfo(name: string, size: nat)

  const OversizedMessage: string := "Asset exceeds size limit (2MB). Use external URL for high-res files."

  /** The save ticker's step. */
  const TickIncrement: int := 5
}

