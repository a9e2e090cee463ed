/**
 * App.tsx: the default portfolio, the load of the stored portfolio with its
 * title-keyed self-healing migration, and the effect that mirrors the
 * collection to storage whenever it changes.
 */
module App {
  import opened Wrappers
  import opened Text
  import opened Records

  const GlassHouseTitle: string := "The Industrial Glass House"
  const SkylineTitle: string := "Campaign: Midnight Skyline"
  const EmberTitle: string := "Ember Lifestyle Feature"

  // The canonical thumbnails share their host path and their query.
  const UnsplashPhoto: string := "https://images.unsplash.com/photo-"
  const ImageQuery: string := "?auto=format&fit=crop&q=80&w=1200"

  const GlassHouseUrl: string := UnsplashPhoto + "1600585154340-be6161a56a0c" + ImageQuery
  const SkylineUrl: string := UnsplashPhoto + "1477959858617-67f85cf4f1df" + ImageQuery
  const EmberUrl: string := UnsplashPhoto + "1600566753190-17f0baa2a6c3" + ImageQuery

  /** The marker of the host every canonical thumbnail lives on. */
  const HostMarker: string := "unsplash"
  /** A Skyline thumbnail naming this photo is stale (it is the Ember photo). */
  const SkylineStaleMarker: string := "1600566753190"
  /** An Ember thumbnail naming this photo is stale (a superseded photo). */
  const EmberStaleMarker: string := "1600607687940"

  /** The three items shown when nothing (usable) is stored; the image item has no `videoUrl` field. */
  const DefaultItems: seq<PortfolioItem> := [
    PortfolioItem(1, GlassHouseTitle, GlassHouseUrl, true,
                  Some("https://www.youtube.com/watch?v=dQw4w9WgXcQ"), None, None),
    PortfolioItem(2, SkylineTitle, SkylineUrl, false, None, None, None),
    PortfolioItem(3, EmberTitle, EmberUrl, true, Some("https://vimeo.com/148750015"), None, None)
  ]

  predicate IsKnownTitle(t: string) {
    t == SkylineTitle || t == GlassHouseTitle || t == EmberTitle
  }

  /** The condition under which the stored thumbnail of a known title is rewritten. */
  predicate IsStale(title: string, url: string)
    requires IsKnownTitle(title)
  {
    if title == SkylineTitle then Contains(url, SkylineStaleMarker) || !Contains(url, HostMarker)
    else if title == GlassHouseTitle then !Contains(url, HostMarker)
    else Contains(url, EmberStaleMarker) || !Contains(url, HostMarker)
  }

  /** The thumbnail a known title is healed to. */
  function CanonicalUrl(title: string): string
    requires IsKnownTitle(title)
  {
    if title == SkylineTitle then SkylineUrl
    else if title == GlassHouseTitle then GlassHouseUrl
    else EmberUrl
  }

  /** The migration of one stored item, as the `map` callback writes it. */
  function MigrateItem(item: PortfolioItem): (r: PortfolioItem)
    ensures r == item.(url := r.url)
    ensures !IsKnownTitle(item.title) ==> r == item
    ensures r.url != item.url ==> IsKnownTitle(item.title) && r.url == CanonicalUrl(item.title)
  {
    if item.title == SkylineTitle
       && (Contains(item.url, SkylineStaleMarker) || !Contains(item.url, HostMarker)) then
      item.(url := SkylineUrl)
    else if item.title == GlassHouseTitle && !Contains(item.url, HostMarker) then
      item.(url := GlassHouseUrl)
    else if item.title == EmberTitle
       && (Contains(item.url, EmberStaleMarker) || !Contains(item.url, HostMarker)) then
      item.(url := EmberUrl)
    else
      item
  }

  /** The migration pass over the whole stored collection. */
  function Migrate(items: seq<PortfolioItem>): (r: seq<PortfolioItem>)
    ensures |r| == |items|
    ensures forall i :: 0 <= i < |items| ==> r[i] == MigrateItem(items[i])
  {
    if items == [] then [] else [MigrateItem(items[0])] + Migrate(items[1..])
  }

  /**
   * The initial collection, given what is stored under the portfolio key: the
   * defaults when nothing is stored or the stored text does not decode to a
   * list, otherwise the stored list item by item, only thumbnails healed.
   */
  function InitialItems(saved: Option<Value>): (r: seq<PortfolioItem>)
    ensures saved.None? || AsItems(saved.value).None? ==> r == DefaultItems
    ensures saved.Some? && AsItems(saved.value).Some? ==>
              var xs := AsItems(saved.value).value;
              |r| == |xs| && forall i :: 0 <= i < |xs| ==> r[i] == xs[i].(url := r[i].url)
  {
    if saved.Some? && AsItems(saved.value).Some? then Migrate(AsItems(saved.value).value)
    else DefaultItems
  }

  /** The stored text `[]`, whichever collection wrote it, loads as no items at all. */
  lemma StoredEmptyListLoadsNoItems()
    ensures InitialItems(Some(ItemList([]))) == []
    ensures InitialItems(Some(LeadList([]))) == []
  {
  }

  /** With nothing stored, or a stored value that does not decode, the defaults (ids 1, 2, 3) are used. */
  lemma DefaultsOnMissingOrMalformed(saved: Option<Value>)
    requires saved.None? || AsItems(saved.value).None?
    ensures InitialItems(saved) == DefaultItems
    ensures |InitialItems(saved)| == 3
    ensures InitialItems(saved)[0].id == 1 && InitialItems(saved)[1].id == 2 && InitialItems(saved)[2].id == 3
  {
  }

  /** A known title's thumbnail is replaced by its canonical one exactly when its stale condition holds. */
  lemma MigrateItemHealsExactlyStale(item: PortfolioItem)
    requires IsKnownTitle(item.title)
    ensures MigrateItem(item).url == if IsStale(item.title, item.url) then CanonicalUrl(item.title) else item.url
  {
  }

  /** Each canonical thumbnail is on the host. */
  lemma CanonicalUrlsOnHost()
    ensures Contains(SkylineUrl, HostMarker)
    ensures Contains(GlassHouseUrl, HostMarker)
    ensures Contains(EmberUrl, HostMarker)
  {
    assert OccursAt(SkylineUrl, HostMarker, 15);
    assert OccursAt(GlassHouseUrl, HostMarker, 15);
    assert OccursAt(EmberUrl, HostMarker, 15);
  }

  /** The canonical Skyline thumbnail does not name the Ember photo: it has no `1` followed by `6`. */
  lemma SkylineUrlLacksStaleMarker()
    ensures !Contains(SkylineUrl, SkylineStaleMarker)
  {
    var photo := "1477959858617-67f85cf4f1df";
    assert LacksPair(UnsplashPhoto, '1', '6');
    assert LacksPair(photo, '1', '6');
    assert LacksPair(ImageQuery, '1', '6');
    LacksPairConcat(UnsplashPhoto, photo, '1', '6');
    LacksPairConcat(UnsplashPhoto + photo, ImageQuery, '1', '6');
    AbsentPair(SkylineUrl, SkylineStaleMarker, 0);
  }

  /** The canonical Ember thumbnail does not name the superseded photo: it has no `0` followed by `6`. */
  lemma EmberUrlLacksStaleMarker()
    ensures !Contains(EmberUrl, EmberStaleMarker)
  {
    var photo := "1600566753190-17f0baa2a6c3";
    assert LacksPair(UnsplashPhoto, '0', '6');
    assert LacksPair(photo, '0', '6');
    assert LacksPair(ImageQuery, '0', '6');
    LacksPairConcat(UnsplashPhoto, photo, '0', '6');
    LacksPairConcat(UnsplashPhoto + photo, ImageQuery, '0', '6');
    AbsentPair(EmberUrl, EmberStaleMarker, 3);
  }

  /** No canonical thumbnail meets its own title's stale condition. */
  lemma CanonicalUrlsAreFresh()
    ensures forall t :: IsKnownTitle(t) ==> !IsStale(t, CanonicalUrl(t))
  {
    CanonicalUrlsOnHost();
    SkylineUrlLacksStaleMarker();
    EmberUrlLacksStaleMarker();
  }

  /** Migrating an item twice is migrating it once. */
  lemma MigrateItemIdempotent(item: PortfolioItem)
    ensures MigrateItem(MigrateItem(item)) == MigrateItem(item)
  {
    CanonicalUrlsAreFresh();
    var m := MigrateItem(item);
    if IsKnownTitle(item.title) {
      MigrateItemHealsExactlyStale(item);
      MigrateItemHealsExactlyStale(m);
    }
  }

  /** The migration pass is idempotent: a second pass changes nothing. */
  lemma MigrateIdempotent(items: seq<PortfolioItem>)
    ensures Migrate(Migrate(items)) == Migrate(items)
  {
    forall i | 0 <= i < |items| ensures Migrate(Migrate(items))[i] == Migrate(items)[i] {
      MigrateItemIdempotent(items[i]);
    }
  }

  /** The migration leaves an item as it is exactly when it is not a known title with a stale thumbnail. */
  lemma MigrateItemFixedIffFresh(item: PortfolioItem)
    ensures MigrateItem(item) == item <==> !(IsKnownTitle(item.title) && IsStale(item.title, item.url))
  {
    CanonicalUrlsAreFresh();
    if IsKnownTitle(item.title) {
      MigrateItemHealsExactlyStale(item);
    }
  }

  /**
   * A stored collection loads back unchanged exactly when none of its items is
   * a known title whose thumbnail is stale. Any thumbnail of the three seeded
   * titles that lacks the host marker, an uploaded `data:` image included, is
   * therefore replaced on load.
   */
  lemma {:induction false} ReloadUnchangedIffFresh(items: seq<PortfolioItem>)
    ensures InitialItems(Some(ItemList(items))) == items <==>
              forall i :: 0 <= i < |items| && IsKnownTitle(items[i].title) ==> !IsStale(items[i].title, items[i].url)
  {
    forall i | 0 <= i < |items| {
      MigrateItemFixedIffFresh(items[i]);
    }
    if InitialItems(Some(ItemList(items))) == items {
      assert forall i :: 0 <= i < |items| ==> MigrateItem(items[i]) == items[i];
    } else {
      var r := InitialItems(Some(ItemList(items)));
      assert r == Migrate(items);
      var k :| 0 <= k < |items| && r[k] != items[k];
      assert MigrateItem(items[k]) != items[k];
    }
  }

  /** The default items are already healed. */
  lemma DefaultsAreMigrated()
    ensures Migrate(DefaultItems) == DefaultItems
  {
    CanonicalUrlsAreFresh();
    forall i | 0 <= i < 3 ensures MigrateItem(DefaultItems[i]) == DefaultItems[i] {
      MigrateItemHealsExactlyStale(DefaultItems[i]);
    }
  }

  /** Persisting the loaded collection and loading again gives the same collection. */
  lemma ReloadIsStable(saved: Option<Value>)
    ensures InitialItems(Some(ItemList(InitialItems(saved)))) == InitialItems(saved)
  {
    if saved.Some? && AsItems(saved.value).Some? {
      MigrateIdempotent(AsItems(saved.value).value);
    } else {
      DefaultsAreMigrated();
    }
  }

  /** The App component's portfolio state and the storage it mirrors itself to. */
  class AppState {
    const storage: LocalStorage
    var portfolioItems: seq<PortfolioItem>

    /** What is stored under the portfolio key is the current collection. */
    ghost predicate Mirrored()
      reads this, storage
    {
      storage.GetItem(PortfolioKey) == Some(ItemList(portfolioItems))
    }

    /** The lazy `useState` initialiser, followed by the effect's first run on mount. */
    constructor (storage: LocalStorage)
      modifies storage
      ensures this.storage == storage
      ensures portfolioItems == InitialItems(old(storage.GetItem(PortfolioKey)))
      ensures storage.entries == old(storage.entries)[PortfolioKey := ItemList(portfolioItems)]
      ensures Mirrored()
    {
      this.storage := storage;
      var items := InitialItems(storage.GetItem(PortfolioKey));
      portfolioItems := items;
      new;
      storage.SetItem(PortfolioKey, ItemList(items));
    }

    /** `setPortfolioItems`, followed by the effect that writes the whole collection back. */
    method SetPortfolioItems(items: seq<PortfolioItem>)
      modifies this, storage
      ensures portfolioItems == items
      ensures storage.entries == old(storage.entries)[PortfolioKey := ItemList(items)]
      ensures Mirrored()
    {
      portfolioItems := items;
      storage.SetItem(PortfolioKey, ItemList(items));
    }
  }
}
