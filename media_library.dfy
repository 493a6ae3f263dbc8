/**
 * The media library page: the item list with its derived statistics, the five-part filter, the
 * selection list, and single delete, bulk delete, upload and preview save.
 */
module MediaLibrary {
  import opened Optional
  import opened Text
  import opened Seqs
  import IsoDate
  import opened MediaUpload

  /** A library item; times are milliseconds. The URLs are left out. */
  datatype MediaItem = MediaItem(
    id: int,
    name: string,
    description: string,
    mediaType: string,
    category: string,
    size: int,
    tags: seq<string>,
    createdAt: int,
    modifiedAt: int,
    uploadedBy: string)

  // ---------------------------------------------------------------------
  // Statistics

  datatype Stats = Stats(totalFiles: nat, images: nat, videos: nat, audio: nat, documents: nat, storageUsed: int)

  /** The number of items of one type. */
  function CountType(items: seq<MediaItem>, t: string): (n: nat)
    ensures n <= |items|
  {
    if items == [] then 0 else (if items[0].mediaType == t then 1 else 0) + CountType(items[1..], t)
  }

  /** `reduce((total, item) => total + item.size, 0)`. */
  function TotalSize(items: seq<MediaItem>): int {
    if items == [] then 0 else items[0].size + TotalSize(items[1..])
  }

  /** The statistics effect, recomputed from the list after every change to it. */
  function ComputeStats(items: seq<MediaItem>): (st: Stats)
    ensures st.totalFiles == |items| && st.storageUsed == TotalSize(items)
    ensures st.images == CountType(items, "image") && st.videos == CountType(items, "video")
    ensures st.audio == CountType(items, "audio") && st.documents == CountType(items, "document")
  {
    Stats(|items|, CountType(items, "image"), CountType(items, "video"), CountType(items, "audio"),
          CountType(items, "document"), TotalSize(items))
  }

  /** An item has one type, so the four type counts never exceed the total. */
  lemma {:induction false} TypeCountsBounded(items: seq<MediaItem>)
    ensures CountType(items, "image") + CountType(items, "video") + CountType(items, "audio")
      + CountType(items, "document") <= |items|
  {
    if items != [] {
      TypeCountsBounded(items[1..]);
    }
  }

  lemma StatsBounded(items: seq<MediaItem>)
    ensures var st := ComputeStats(items);
      st.images + st.videos + st.audio + st.documents <= st.totalFiles
  {
    TypeCountsBounded(items);
  }

  lemma {:induction false} TotalSizeAppend(a: seq<MediaItem>, b: seq<MediaItem>)
    ensures TotalSize(a + b) == TotalSize(a) + TotalSize(b)
  {
    if a != [] {
      assert (a + b)[1..] == a[1..] + b;
      TotalSizeAppend(a[1..], b);
    } else {
      assert a + b == b;
    }
  }

  // ---------------------------------------------------------------------
  // The filter

  /** Search text, category, type, a date range of `YYYY-MM-DD` strings and selected tags. */
  datatype MediaFilters = MediaFilters(
    search: string,
    category: string,
    mediaType: string,
    start: string,
    end: string,
    tags: seq<string>)

  /** `handleClearFilters`: no text, 'all' categories and types, no dates, no tags. */
  const ClearedFilters := MediaFilters("", "all", "all", "", "", [])

  predicate MatchesSearch(item: MediaItem, query: string) {
    query == "" || IncludesIgnoringCase(item.name, query) || IncludesIgnoringCase(item.description, query)
  }

  /** Any one selected tag is enough; with none selected every item passes. */
  predicate MatchesTags(item: MediaItem, tags: seq<string>) {
    |tags| == 0 || exists i :: 0 <= i < |tags| && tags[i] in item.tags
  }

  /** The conjunction of the five tests; an empty bound is no bound. */
  predicate Matches(item: MediaItem, f: MediaFilters) {
    && MatchesSearch(item, f.search)
    && (f.category == "all" || item.category == f.category)
    && (f.mediaType == "all" || item.mediaType == f.mediaType)
    && (f.start == "" || IsoDate.AtOrAfter(item.createdAt, f.start))
    && (f.end == "" || IsoDate.AtOrBefore(item.createdAt, f.end))
    && MatchesTags(item, f.tags)
  }

  function MatchesFn(f: MediaFilters): MediaItem -> bool {
    (item: MediaItem) => Matches(item, f)
  }

  /** `filteredMediaItems`: the matching items in list order. */
  function Filtered(items: seq<MediaItem>, f: MediaFilters): (r: seq<MediaItem>)
    ensures forall i :: 0 <= i < |r| ==> r[i] in items && Matches(r[i], f)
    ensures forall i :: 0 <= i < |items| && Matches(items[i], f) ==> items[i] in r
    ensures multiset(r) <= multiset(items)
  {
    Filter(items, MatchesFn(f))
  }

  /** After clearing the filters every item is shown. */
  lemma ClearedFiltersShowAll(items: seq<MediaItem>)
    ensures Filtered(items, ClearedFilters) == items
  {
    forall item | item in items ensures Matches(item, ClearedFilters) {
    }
    FilterKeepsAll(items, MatchesFn(ClearedFilters));
  }

  /** Tags are any-of: selecting one more tag, next to others, can only show more items. */
  lemma MoreTagsShowMore(items: seq<MediaItem>, f: MediaFilters, t: string)
    requires f.tags != []
    ensures multiset(Filtered(items, f)) <= multiset(Filtered(items, f.(tags := f.tags + [t])))
  {
    var g := f.(tags := f.tags + [t]);
    forall item | item in items && Matches(item, f) ensures Matches(item, g) {
      var i :| 0 <= i < |f.tags| && f.tags[i] in item.tags;
      assert g.tags[i] == f.tags[i];
    }
    FilterMonotone(items, MatchesFn(f), MatchesFn(g));
  }

  // ---------------------------------------------------------------------
  // Changes to the list

  /** `prev.filter(item => item.id !== itemId)`. */
  function RemoveId(items: seq<MediaItem>, itemId: int): (r: seq<MediaItem>)
    ensures forall i :: 0 <= i < |r| ==> r[i] in items && r[i].id != itemId
    ensures forall i :: 0 <= i < |items| && items[i].id != itemId ==> items[i] in r
  {
    Filter(items, (item: MediaItem) => item.id != itemId)
  }

  /** `prev.filter(item => !selectedItems.includes(item.id))`. */
  function RemoveIds(items: seq<MediaItem>, ids: seq<int>): (r: seq<MediaItem>)
    ensures forall i :: 0 <= i < |r| ==> r[i] in items && r[i].id !in ids
    ensures forall i :: 0 <= i < |items| && items[i].id !in ids ==> items[i] in r
  {
    Filter(items, (item: MediaItem) => item.id !in ids)
  }

  /** The items `handleUpload` makes from the queue: new ids `now + index`, uploaded now. */
  function NewItems(files: seq<QueuedFile>, now: int): (r: seq<MediaItem>)
    ensures |r| == |files|
    ensures forall i :: 0 <= i < |files| ==>
      (&& r[i].id == now + i && r[i].name == files[i].name && r[i].description == files[i].description
       && r[i].mediaType == files[i].fileType && r[i].category == files[i].category
       && r[i].size == files[i].size && r[i].tags == files[i].tags
       && r[i].createdAt == now && r[i].modifiedAt == now && r[i].uploadedBy == "Current User")
  {
    seq(|files|, i requires 0 <= i < |files| =>
      MediaItem(now + i, files[i].name, files[i].description, files[i].fileType, files[i].category,
                files[i].size, files[i].tags, now, now, "Current User"))
  }

  /** Uploading adds the queue's count and sizes to the statistics. */
  lemma UploadStats(items: seq<MediaItem>, files: seq<QueuedFile>, now: int)
    ensures var st := ComputeStats(NewItems(files, now) + items);
      st.totalFiles == |files| + |items| && st.storageUsed == TotalSize(NewItems(files, now)) + TotalSize(items)
  {
    TotalSizeAppend(NewItems(files, now), items);
  }

  /** `handleSavePreview`: the item with the edited id is replaced, stamped as modified now. */
  function SaveItem(items: seq<MediaItem>, updated: MediaItem, now: int): (r: seq<MediaItem>)
    ensures |r| == |items|
    ensures forall i :: 0 <= i < |items| ==>
      r[i] == (if items[i].id == updated.id then updated.(modifiedAt := now) else items[i])
  {
    Map(items, (item: MediaItem) => if item.id == updated.id then updated.(modifiedAt := now) else item)
  }

  class Library {
    var mediaItems: seq<MediaItem>
    var selectedItems: seq<int>
    var filters: MediaFilters
    var previewItem: Option<MediaItem>

    constructor (seed: seq<MediaItem>)
      ensures mediaItems == seed && selectedItems == [] && filters == ClearedFilters && previewItem.None?
    {
      mediaItems := seed;
      selectedItems := [];
      filters := ClearedFilters;
      previewItem := None;
    }

    /** The statistics shown, kept equal to the list's by the effect. */
    function CurrentStats(): (st: Stats)
      reads this
      ensures st == ComputeStats(mediaItems)
      ensures st.totalFiles == |mediaItems| && st.storageUsed == TotalSize(mediaItems)
      ensures st.images + st.videos + st.audio + st.documents <= st.totalFiles
    {
      StatsBounded(mediaItems);
      ComputeStats(mediaItems)
    }

    /** `handleSelectItem`: selecting appends without a duplicate check; deselecting removes every copy. */
    method SelectItem(itemId: int, selected: bool)
      modifies this
      ensures selected ==> selectedItems == old(selectedItems) + [itemId]
      ensures !selected ==> selectedItems == Without(old(selectedItems), itemId) && itemId !in selectedItems
      ensures mediaItems == old(mediaItems) && filters == old(filters) && previewItem == old(previewItem)
    {
      if selected {
        selectedItems := selectedItems + [itemId];
      } else {
        selectedItems := Without(selectedItems, itemId);
      }
    }

    /** `handleDeleteItem`: after a confirmation, the item leaves both the list and the selection. */
    method DeleteItem(itemId: int, confirmed: bool)
      modifies this
      ensures confirmed ==> mediaItems == RemoveId(old(mediaItems), itemId)
      ensures confirmed ==> selectedItems == Without(old(selectedItems), itemId)
      ensures !confirmed ==> mediaItems == old(mediaItems) && selectedItems == old(selectedItems)
      ensures filters == old(filters) && previewItem == old(previewItem)
    {
      if confirmed {
        mediaItems := RemoveId(mediaItems, itemId);
        selectedItems := Without(selectedItems, itemId);
      }
    }

    /** `handleUpload`: the new items, in queue order, go before every existing item. */
    method Upload(files: seq<QueuedFile>, now: int)
      modifies this
      ensures mediaItems == NewItems(files, now) + old(mediaItems)
      ensures mediaItems[|files|..] == old(mediaItems)
      ensures selectedItems == old(selectedItems) && filters == old(filters) && previewItem == old(previewItem)
    {
      mediaItems := NewItems(files, now) + mediaItems;
    }

    /** `handleSavePreview`: the preview keeps the edited item as passed, without the new stamp. */
    method SavePreview(updated: MediaItem, now: int)
      modifies this
      ensures mediaItems == SaveItem(old(mediaItems), updated, now) && previewItem == Some(updated)
      ensures selectedItems == old(selectedItems) && filters == old(filters)
    {
      mediaItems := SaveItem(mediaItems, updated, now);
      previewItem := Some(updated);
    }

    method ClearFilters()
      modifies this
      ensures filters == ClearedFilters
      ensures mediaItems == old(mediaItems) && selectedItems == old(selectedItems) && previewItem == old(previewItem)
    {
      filters := ClearedFilters;
    }

    /** `handleBulkDelete`: nothing without a selection; after a confirmation, every selected item goes. */
    method BulkDelete(confirmed: bool)
      modifies this
      ensures old(selectedItems) == [] || !confirmed ==>
        mediaItems == old(mediaItems) && selectedItems == old(selectedItems)
      ensures old(selectedItems) != [] && confirmed ==>
        mediaItems == RemoveIds(old(mediaItems), old(selectedItems)) && selectedItems == []
      ensures filters == old(filters) && previewItem == old(previewItem)
    {
      if |selectedItems| == 0 {
        return;
      }
      if confirmed {
        mediaItems := RemoveIds(mediaItems, selectedItems);
        selectedItems := [];
      }
    }
  }
}
