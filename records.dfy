/**
 * The two record collections of the registry (portfolio items and leads), the
 * audit log entry, and the browser's key-value store that persists them.
 */
module Records {
  import opened Wrappers

  /** The derived `type` tag written on a created item. */
  datatype MediaKind = Video | Image

  datatype ItemStatus = Active | Draft

  /**
   * A portfolio item. `videoUrl`, `kind` and `status` are optional fields:
   * the default image item has no `videoUrl`, the default items carry no
   * `kind` or `status`, and a created item carries all three.
   */
  datatype PortfolioItem = PortfolioItem(
    id: int,
    title: string,
    url: string,
    isVideo: bool,
    videoUrl: Option<string>,
    kind: Option<MediaKind>,
    status: Option<ItemStatus>)

  datatype LeadStatus = New | Contacted | Partnered | Archived

  /** A lead. `status` is absent on a lead written by the intake form. */
  datatype Lead = Lead(
    fullName: string,
    handle: string,
    goal: string,
    date: string,
    status: Option<LeadStatus>,
    notes: Option<string>)

  /** The text a status is stored and displayed as. */
  function StatusName(s: LeadStatus): string {
    match s
    case New => "new"
    case Contacted => "contacted"
    case Partnered => "partnered"
    case Archived => "archived"
  }

  datatype Severity = Info | Warning | Critical

  datatype LogEntry = LogEntry(time: string, action: string, severity: Severity)

  /**
   * What a stored text decodes to: a list of portfolio items, a list of leads,
   * or anything on which decoding (or the code that walks the decoded value) throws.
   */
  datatype Value = ItemList(items: seq<PortfolioItem>) | LeadList(leads: seq<Lead>) | Unparsable

  /**
   * The stored value read as a list of portfolio items. The text `[]` decodes
   * to the empty list whichever collection wrote it, so an empty lead list
   * reads as an empty item list too.
   */
  function AsItems(v: Value): Option<seq<PortfolioItem>> {
    match v
    case ItemList(items) => Some(items)
    case LeadList(leads) => if leads == [] then Some([]) else None
    case Unparsable => None
  }

  /** The stored value read as a list of leads; an empty item list reads as an empty lead list. */
  function AsLeads(v: Value): Option<seq<Lead>> {
    match v
    case LeadList(leads) => Some(leads)
    case ItemList(items) => if items == [] then Some([]) else None
    case Unparsable => None
  }

  /** Whatever list a collection writes, it reads back unchanged. */
  lemma ListsReadBack(items: seq<PortfolioItem>, leads: seq<Lead>)
    ensures AsItems(ItemList(items)) == Some(items)
    ensures AsLeads(LeadList(leads)) == Some(leads)
  {
  }

  /**
   * Only the empty list reads as both kinds, and then as the empty list of
   * each; a value that reads as neither kind is one that cannot be decoded
   * or holds a non-empty list of the other kind.
   */
  lemma OnlyEmptyListReadsAsBoth(v: Value)
    ensures AsItems(v).Some? && AsLeads(v).Some? <==> v == ItemList([]) || v == LeadList([])
    ensures AsItems(v).Some? && AsLeads(v).Some? ==> AsItems(v) == Some([]) && AsLeads(v) == Some([])
    ensures AsItems(v).None? && AsLeads(v).None? <==> v == Unparsable
    ensures AsItems(v).None? <==> v == Unparsable || (v.LeadList? && v.leads != [])
  {
  }

  const PortfolioKey: string := "legends_portfolio"
  const LeadsKey: string := "legends_leads"

  /** `localStorage`: one map from key to stored value, shared by every component. */
  class LocalStorage {
    var entries: map<string, Value>

    constructor (initial: map<string, Value>)
      ensures entries == initial
    {
      entries := initial;
    }

    /** `getItem`: `None` plays the part of `null` for a missing key. */
    function GetItem(key: string): Option<Value>
      reads this
    {
      if key in entries then Some(entries[key]) else None
    }

    /** `setItem`: replaces the value under `key` and nothing else. */
    method SetItem(key: string, v: Value)
      modifies this
      ensures entries == old(entries)[key := v]
    {
      entries := entries[key := v];
    }
  }
}
