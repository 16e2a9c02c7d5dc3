/** The browser-side history of generated timestamps: a list of records kept
    under one storage key, updated by the history panel and read by the
    generator before it calls the server. */
module History {
  import opened Optional
  import opened Entries

  /** The video details a record keeps: `{title, thumbnail}`. */
  datatype VideoData = VideoData(title: string, thumbnail: string)

  /** One history record. `savedAt` is the record's `timestamp` field, the
      save time, modelled as the instant it denotes. */
  datatype HistoryItem = HistoryItem(url: string, videoData: VideoData, timestamps: seq<Entry>, savedAt: int)

  /** The storage slot: nothing stored (or the empty string), text that does
      not parse as an array of records, or the parsed records in stored
      order. */
  datatype Slot = Empty | Corrupt | Holds(items: seq<HistoryItem>)

  /** The panel's view of history: the storage slot and the list it shows. */
  datatype HistoryView = HistoryView(slot: Slot, shown: seq<HistoryItem>)

  /** The most records a save leaves in storage. */
  const MaxItems: nat := 50

  // ---------------------------------------------------------------- lookup

  /** `items.findIndex(item => item.url === url)`: the first record for `url`. */
  function FindIndex(items: seq<HistoryItem>, url: string): (r: Option<nat>)
    ensures r.Some? ==> r.value < |items| && items[r.value].url == url
    ensures r.Some? ==> forall k :: 0 <= k < r.value ==> items[k].url != url
    ensures r.None? ==> forall k :: 0 <= k < |items| ==> items[k].url != url
  {
    if |items| == 0 then None
    else if items[0].url == url then Some(0)
    else
      match FindIndex(items[1..], url)
      case None => None
      case Some(i) => Some(i + 1)
  }

  /** `checkHistory(url)`: the first stored record for `url`; nothing when
      the slot is empty or does not parse. */
  function Lookup(slot: Slot, url: string): (r: Option<HistoryItem>)
    ensures r.Some? <==> slot.Holds? && exists k :: 0 <= k < |slot.items| && slot.items[k].url == url
    ensures r.Some? ==>
              && r.value.url == url
              && exists i :: 0 <= i < |slot.items| && slot.items[i] == r.value &&
                             forall k :: 0 <= k < i ==> slot.items[k].url != url
  {
    if slot.Holds? then
      match FindIndex(slot.items, url)
      case None => None
      case Some(i) => Some(slot.items[i])
    else None
  }

  // ---------------------------------------------------------------- sorting

  /** Most recent first: save times never increase along the list. */
  predicate Descending(s: seq<HistoryItem>) {
    forall i, j :: 0 <= i < j < |s| ==> s[i].savedAt >= s[j].savedAt
  }

  /** The records of `s` saved at instant `t`, in their order in `s`. */
  function SavedAt(s: seq<HistoryItem>, t: int): (r: seq<HistoryItem>)
    ensures |r| <= |s|
    ensures forall k :: 0 <= k < |r| ==> r[k].savedAt == t && r[k] in s
  {
    if |s| == 0 then []
    else (if s[0].savedAt == t then [s[0]] else []) + SavedAt(s[1..], t)
  }

  /** Puts `x` in front of the first record not more recent than it, so that
      `x` stays ahead of records saved at the same instant. */
  function InsertByRecency(x: HistoryItem, s: seq<HistoryItem>): (r: seq<HistoryItem>)
    ensures |r| == |s| + 1
    ensures multiset(r) == multiset(s) + multiset{x}
    ensures s == [] ==> r == [x]
    ensures s != [] ==> r[0] == x || r[0] == s[0]
  {
    if |s| == 0 || s[0].savedAt <= x.savedAt then
      [x] + s
    else
      assert s == [s[0]] + s[1..];
      [s[0]] + InsertByRecency(x, s[1..])
  }

  lemma {:induction false} InsertKeepsDescending(x: HistoryItem, s: seq<HistoryItem>)
    requires Descending(s)
    ensures Descending(InsertByRecency(x, s))
  {
    if |s| > 0 && s[0].savedAt > x.savedAt {
      var rest := InsertByRecency(x, s[1..]);
      DescendingTail(s);
      InsertKeepsDescending(x, s[1..]);
      assert rest[0].savedAt <= s[0].savedAt by {
        if rest[0] != x {
          assert rest[0] == s[1];
        }
      }
      var r := [s[0]] + rest;
      forall i, j | 0 <= i < j < |r|
        ensures r[i].savedAt >= r[j].savedAt
      {
        assert r[j] == rest[j - 1];
        if i > 0 {
          assert r[i] == rest[i - 1];
        } else if j > 1 {
          assert rest[0].savedAt >= rest[j - 1].savedAt;
        }
      }
    }
  }

  /** `items.sort((a, b) => new Date(b.timestamp) - new Date(a.timestamp))`:
      a stable sort, most recent first. */
  function SortByRecency(s: seq<HistoryItem>): (r: seq<HistoryItem>)
    ensures |r| == |s|
    ensures multiset(r) == multiset(s)
    ensures Descending(r)
  {
    if |s| == 0 then []
    else
      assert s == [s[0]] + s[1..];
      var rest := SortByRecency(s[1..]);
      InsertKeepsDescending(s[0], rest);
      InsertByRecency(s[0], rest)
  }

  lemma {:induction false} InsertKeepsSavedAt(x: HistoryItem, s: seq<HistoryItem>, t: int)
    ensures SavedAt(InsertByRecency(x, s), t) == (if x.savedAt == t then [x] else []) + SavedAt(s, t)
  {
    if |s| == 0 || s[0].savedAt <= x.savedAt {
      SavedAtCons(x, s, t);
    } else {
      var y, tail := s[0], s[1..];
      var rest := InsertByRecency(x, tail);
      assert s == [y] + tail;
      assert InsertByRecency(x, s) == [y] + rest;
      InsertKeepsSavedAt(x, tail, t);
      SavedAtCons(y, rest, t);
      SavedAtCons(y, tail, t);
      var own, head := (if y.savedAt == t then [y] else []), (if x.savedAt == t then [x] else []);
      SwapEmpty(own, head, SavedAt(tail, t));
    }
  }

  /** Two pieces of which one is empty can be swapped. */
  lemma SwapEmpty<T>(a: seq<T>, b: seq<T>, c: seq<T>)
    requires a == [] || b == []
    ensures a + (b + c) == b + (a + c)
  {
    if a == [] {
      assert a + (b + c) == b + c;
    } else {
      assert b + (a + c) == a + c;
    }
  }

  lemma SavedAtCons(y: HistoryItem, s: seq<HistoryItem>, t: int)
    ensures SavedAt([y] + s, t) == (if y.savedAt == t then [y] else []) + SavedAt(s, t)
  {
    assert ([y] + s)[1..] == s;
  }

  /** The sort is stable: records saved at the same instant keep their
      stored order. */
  lemma {:induction false} SortIsStable(s: seq<HistoryItem>, t: int)
    ensures SavedAt(SortByRecency(s), t) == SavedAt(s, t)
  {
    if |s| > 0 {
      SortIsStable(s[1..], t);
      InsertKeepsSavedAt(s[0], SortByRecency(s[1..]), t);
    }
  }

  /** A list already most recent first is left as it is. */
  lemma {:induction false} SortKeepsDescending(s: seq<HistoryItem>)
    requires Descending(s)
    ensures SortByRecency(s) == s
  {
    if |s| > 0 {
      DescendingTail(s);
      SortKeepsDescending(s[1..]);
      assert SortByRecency(s) == InsertByRecency(s[0], s[1..]);
      InsertAhead(s[0], s[1..]);
      assert s == [s[0]] + s[1..];
    }
  }

  lemma DescendingTail(s: seq<HistoryItem>)
    requires |s| > 0 && Descending(s)
    ensures Descending(s[1..])
  {
    forall i, j | 0 <= i < j < |s| - 1
      ensures s[1..][i].savedAt >= s[1..][j].savedAt
    {
      assert s[1..][i] == s[i + 1] && s[1..][j] == s[j + 1];
    }
  }

  /** A record at least as recent as the head of `s` goes in front. */
  lemma InsertAhead(x: HistoryItem, s: seq<HistoryItem>)
    requires s == [] || s[0].savedAt <= x.savedAt
    ensures InsertByRecency(x, s) == [x] + s
  {
  }

  // ---------------------------------------------------------------- operations

  /** `loadHistory`: when the slot holds records, the panel shows them most
      recent first; an empty or unreadable slot leaves the panel as it is.
      Storage itself keeps its order. */
  function Load(view: HistoryView): (r: HistoryView)
    ensures r.slot == view.slot
    ensures view.slot.Holds? ==> multiset(r.shown) == multiset(view.slot.items) && Descending(r.shown)
    ensures !view.slot.Holds? ==> r.shown == view.shown
  {
    match view.slot
    case Holds(items) => HistoryView(view.slot, SortByRecency(items))
    case _ => view
  }

  /** The stored records after saving `item`: it replaces the first record
      with its URL, or is appended; then only the first `MaxItems` records
      are kept. */
  function SaveItems(items: seq<HistoryItem>, item: HistoryItem): (r: seq<HistoryItem>)
    ensures |r| <= MaxItems
    ensures FindIndex(items, item.url).Some? ==>
              var i := FindIndex(items, item.url).value;
              && |r| == (if |items| > MaxItems then MaxItems else |items|)
              && (forall k :: 0 <= k < |r| && k != i ==> r[k] == items[k])
              && (i < MaxItems ==> r[i] == item)
    ensures FindIndex(items, item.url).None? && |items| < MaxItems ==> r == items + [item]
    ensures FindIndex(items, item.url).None? && |items| >= MaxItems ==> r == items[..MaxItems]
  {
    var upserted :=
      match FindIndex(items, item.url)
      case Some(i) => items[i := item]
      case None => items + [item];
    if |upserted| > MaxItems then upserted[..MaxItems] else upserted
  }

  /** `saveToHistory`: writes the records and reloads the panel. An
      unreadable slot makes the save fail, and nothing changes. */
  function Save(view: HistoryView, item: HistoryItem): (r: HistoryView)
    ensures view.slot.Corrupt? ==> r == view
    ensures view.slot.Empty? ==> r.slot == Holds([item]) && r.shown == [item]
    ensures view.slot.Holds? ==> r.slot == Holds(SaveItems(view.slot.items, item))
    ensures !view.slot.Corrupt? ==> Descending(r.shown) && multiset(r.shown) == multiset(r.slot.items)
  {
    match view.slot
    case Corrupt => view
    case Empty => Load(HistoryView(Holds([item]), view.shown))
    case Holds(items) => Load(HistoryView(Holds(SaveItems(items, item)), view.shown))
  }

  /** The records left after `items.filter(item => item.url !== url)`. */
  function Remove(items: seq<HistoryItem>, url: string): (r: seq<HistoryItem>)
    ensures |r| <= |items|
    ensures forall x :: x in r <==> x in items && x.url != url
  {
    if |items| == 0 then []
    else
      var rest := Remove(items[1..], url);
      assert items == [items[0]] + items[1..];
      if items[0].url == url then rest else [items[0]] + rest
  }

  /** `deleteFromHistory`: drops every record for `url` and reloads. An
      empty slot is left alone; an unreadable one makes the delete fail. */
  function Delete(view: HistoryView, url: string): (r: HistoryView)
    ensures !view.slot.Holds? ==> r == view
    ensures view.slot.Holds? ==> r.slot == Holds(Remove(view.slot.items, url))
    ensures view.slot.Holds? ==> Descending(r.shown) && multiset(r.shown) == multiset(r.slot.items)
  {
    match view.slot
    case Holds(items) => Load(HistoryView(Holds(Remove(items, url)), view.shown))
    case _ => view
  }

  /** `clearHistory`: removes the slot and empties the panel. */
  function Clear(view: HistoryView): (r: HistoryView)
    ensures r.slot.Empty? && r.shown == []
    ensures forall url :: Lookup(r.slot, url).None?
  {
    HistoryView(Empty, [])
  }

  /** The save trigger: a save happens when there is a URL, video details and
      a non-empty list of timestamps. */
  predicate ShouldSave(url: string, videoData: Option<VideoData>, timestamps: Option<seq<Entry>>) {
    url != [] && videoData.Some? && timestamps.Some? && |timestamps.value| > 0
  }

  /** Storage keeps a record saved for `url`: the slot is readable, and it
      either holds the URL within its first `MaxItems` records or has room
      for one more. */
  predicate KeepsSaveOf(slot: Slot, url: string) {
    match slot
    case Corrupt => false
    case Empty => true
    case Holds(items) =>
      match FindIndex(items, url)
      case Some(i) => i < MaxItems
      case None => |items| < MaxItems
  }

  /** The save effect with the save time `now`: without a URL, video
      details or a non-empty list nothing changes; otherwise the list is
      saved, and where storage keeps it the next lookup finds it. */
  function SaveEffect(view: HistoryView, url: string, videoData: Option<VideoData>,
                      timestamps: Option<seq<Entry>>, now: int): (r: HistoryView)
    ensures url == [] || videoData.None? || timestamps.None? || timestamps.value == [] ==> r == view
    ensures view.slot.Corrupt? ==> r == view
    ensures ShouldSave(url, videoData, timestamps) && KeepsSaveOf(view.slot, url) ==>
              Lookup(r.slot, url) == Some(HistoryItem(url, videoData.value, timestamps.value, now))
    ensures forall u :: u != url && Lookup(r.slot, u).Some? ==> Lookup(r.slot, u) == Lookup(view.slot, u)
    ensures !(view.slot.Holds? && |view.slot.items| > MaxItems) ==>
              forall u :: u != url ==> Lookup(r.slot, u) == Lookup(view.slot, u)
  {
    if ShouldSave(url, videoData, timestamps) then
      var item := HistoryItem(url, videoData.value, timestamps.value, now);
      SaveKeepsAllOtherUrls(view, item);
      if KeepsSaveOf(view.slot, url) then SaveThenLookup(view, item); Save(view, item)
      else Save(view, item)
    else view
  }

  /** `SaveKeepsOtherUrls` for every other URL at once. */
  lemma SaveKeepsAllOtherUrls(view: HistoryView, item: HistoryItem)
    ensures forall u :: u != item.url && Lookup(Save(view, item).slot, u).Some? ==>
              Lookup(Save(view, item).slot, u) == Lookup(view.slot, u)
    ensures !(view.slot.Holds? && |view.slot.items| > MaxItems) ==>
              forall u :: u != item.url ==> Lookup(Save(view, item).slot, u) == Lookup(view.slot, u)
  {
    forall u | u != item.url
      ensures Lookup(Save(view, item).slot, u).Some? ==> Lookup(Save(view, item).slot, u) == Lookup(view.slot, u)
      ensures !(view.slot.Holds? && |view.slot.items| > MaxItems) ==>
                Lookup(Save(view, item).slot, u) == Lookup(view.slot, u)
    {
      SaveKeepsOtherUrls(view, item, u);
    }
  }

  // ---------------------------------------------------------------- properties

  /** URLs are unique in the stored records. */
  predicate DistinctUrls(items: seq<HistoryItem>) {
    forall i, j :: 0 <= i < j < |items| ==> items[i].url != items[j].url
  }

  /** A save keeps the stored URLs unique. */
  lemma SaveKeepsDistinct(items: seq<HistoryItem>, item: HistoryItem)
    requires DistinctUrls(items)
    ensures DistinctUrls(SaveItems(items, item))
  {
    var r := SaveItems(items, item);
    match FindIndex(items, item.url)
    case Some(i) =>
      forall a, b | 0 <= a < b < |r|
        ensures r[a].url != r[b].url
      {
        if a != i && b != i {
          assert r[a] == items[a] && r[b] == items[b];
        } else if a == i {
          assert r[b] == items[b];
        } else {
          assert r[a] == items[a];
        }
      }
    case None =>
  }

  /** After a save, a lookup of the saved URL finds the new record, unless
      the URL was new and storage already held `MaxItems` records. */
  lemma SaveThenLookup(view: HistoryView, item: HistoryItem)
    requires !view.slot.Corrupt?
    requires view.slot.Holds? ==>
               FindIndex(view.slot.items, item.url).Some? || |view.slot.items| < MaxItems
    requires view.slot.Holds? && FindIndex(view.slot.items, item.url).Some? ==>
               FindIndex(view.slot.items, item.url).value < MaxItems
    ensures Lookup(Save(view, item).slot, item.url) == Some(item)
  {
    if view.slot.Holds? {
      var items := view.slot.items;
      var r := SaveItems(items, item);
      match FindIndex(items, item.url)
      case Some(i) =>
        assert r[i] == item;
        assert FindIndex(r, item.url) == Some(i);
      case None =>
        assert r[|items|] == item;
        assert FindIndex(r, item.url) == Some(|items|);
    }
  }

  /** Once storage holds `MaxItems` records, a save for a new URL keeps the
      first `MaxItems` records and drops the new one: the list is cut at its
      end, which is where new records go. */
  lemma FullStoreDropsNewUrl(view: HistoryView, item: HistoryItem)
    requires view.slot.Holds? && |view.slot.items| >= MaxItems
    requires Lookup(view.slot, item.url).None?
    ensures Save(view, item).slot == Holds(view.slot.items[..MaxItems])
    ensures Lookup(Save(view, item).slot, item.url).None?
  {
    var items := view.slot.items;
    assert forall x :: x in items[..MaxItems] ==> x in items;
  }

  /** Nothing else changes: a save answers every other URL as before, or not
      at all when truncation dropped its record. */
  lemma SaveKeepsOtherUrls(view: HistoryView, item: HistoryItem, url: string)
    requires url != item.url
    ensures Lookup(Save(view, item).slot, url).Some? ==>
              Lookup(Save(view, item).slot, url) == Lookup(view.slot, url)
    ensures !(view.slot.Holds? && |view.slot.items| > MaxItems) ==>
              Lookup(Save(view, item).slot, url) == Lookup(view.slot, url)
  {
    if view.slot.Holds? {
      var items := view.slot.items;
      var r := SaveItems(items, item);
      SaveItemsOthers(items, item, url);
      FindIndexAgree(r, items, url);
      if |items| <= MaxItems {
        assert |items| <= |r|;
        FindIndexKept(r, items, url);
      }
    }
  }

  /** Where `SaveItems` puts a record for another URL, the old list had the
      same record; where the old list had one, the new list has one too. */
  lemma SaveItemsOthers(items: seq<HistoryItem>, item: HistoryItem, url: string)
    requires url != item.url
    ensures var r := SaveItems(items, item);
            forall p :: 0 <= p < |r| && r[p].url == url ==> p < |items| && r[p] == items[p]
    ensures var r := SaveItems(items, item);
            forall p :: 0 <= p < |r| && p < |items| && items[p].url == url ==> r[p].url == url
  {
    var r := SaveItems(items, item);
    match FindIndex(items, item.url)
    case Some(i) =>
      assert items[i].url == item.url;
    case None =>
      if |items| < MaxItems {
        assert r == items + [item];
      } else {
        assert r == items[..MaxItems];
      }
  }

  /** Two lists that agree on the records for `url` find the same first one. */
  lemma FindIndexAgree(r: seq<HistoryItem>, items: seq<HistoryItem>, url: string)
    requires forall p :: 0 <= p < |r| && r[p].url == url ==> p < |items| && r[p] == items[p]
    requires forall p :: 0 <= p < |r| && p < |items| && items[p].url == url ==> r[p].url == url
    ensures FindIndex(r, url).Some? ==> FindIndex(items, url) == FindIndex(r, url)
  {
    if FindIndex(r, url).Some? {
      var k := FindIndex(r, url).value;
      FindIndexIs(items, url, k);
    }
  }

  /** A list that keeps every position of a shorter one holding `url`, and
      holds `url` only where the shorter one does, finds the same first
      record. */
  lemma FindIndexKept(r: seq<HistoryItem>, items: seq<HistoryItem>, url: string)
    requires |items| <= |r|
    requires forall p :: 0 <= p < |r| && r[p].url == url ==> p < |items| && r[p] == items[p]
    requires forall p :: 0 <= p < |r| && p < |items| && items[p].url == url ==> r[p].url == url
    ensures FindIndex(items, url).Some? ==> FindIndex(r, url) == FindIndex(items, url)
  {
    if FindIndex(items, url).Some? {
      FindIndexIs(r, url, FindIndex(items, url).value);
    }
  }

  /** The first record for `url` is at `k`. */
  lemma FindIndexIs(items: seq<HistoryItem>, url: string, k: nat)
    requires k < |items| && items[k].url == url
    requires forall p :: 0 <= p < k ==> items[p].url != url
    ensures FindIndex(items, url) == Some(k)
  {
  }

  /** Saving the same record twice leaves the same state as saving it once. */
  lemma SaveIdempotent(view: HistoryView, item: HistoryItem)
    ensures Save(Save(view, item), item) == Save(view, item)
  {
    match view.slot
    case Corrupt =>
    case Empty =>
      SaveItemsIdempotent([], item);
    case Holds(items) =>
      SaveItemsIdempotent(items, item);
  }

  lemma SaveItemsIdempotent(items: seq<HistoryItem>, item: HistoryItem)
    ensures SaveItems(SaveItems(items, item), item) == SaveItems(items, item)
    ensures items == [] ==> SaveItems(items, item) == [item]
  {
    var r := SaveItems(items, item);
    match FindIndex(items, item.url)
    case Some(i) =>
      if i < MaxItems {
        assert r[i] == item;
        assert forall k :: 0 <= k < i ==> r[k] == items[k];
        assert FindIndex(r, item.url) == Some(i);
        assert r[i := item] == r;
      } else {
        assert forall k :: 0 <= k < |r| ==> r[k] == items[k];
        assert FindIndex(r, item.url).None?;
        assert |r| == MaxItems;
      }
    case None =>
      if |items| < MaxItems {
        assert r == items + [item];
        assert forall k :: 0 <= k < |items| ==> r[k] == items[k];
        assert r[|items|] == item;
        assert FindIndex(r, item.url) == Some(|items|);
        assert r[|items| := item] == r;
      } else {
        assert r == items[..MaxItems];
        assert forall k :: 0 <= k < |r| ==> r[k] == items[k];
        assert FindIndex(r, item.url).None?;
      }
  }

  /** After a delete, the URL is gone, every other URL answers as before,
      and the records left keep their stored order. */
  lemma DeleteThenLookup(view: HistoryView, url: string, other: string)
    requires other != url
    ensures Lookup(Delete(view, url).slot, url).None?
    ensures Lookup(Delete(view, url).slot, other) == Lookup(view.slot, other)
  {
    if view.slot.Holds? {
      RemoveLookupOther(view.slot.items, url, other);
    }
  }

  lemma {:induction false} RemoveLookupOther(items: seq<HistoryItem>, url: string, other: string)
    requires other != url
    ensures Lookup(Holds(Remove(items, url)), other) == Lookup(Holds(items), other)
  {
    if |items| > 0 {
      var x, tail := items[0], items[1..];
      var rest := Remove(tail, url);
      assert items == [x] + tail;
      if x.url == other {
        LookupHead(x, rest, other);
        LookupHead(x, tail, other);
      } else {
        RemoveLookupOther(tail, url, other);
        LookupSkip(x, tail, other);
        if x.url != url {
          LookupSkip(x, rest, other);
        }
      }
    }
  }

  lemma LookupHead(x: HistoryItem, s: seq<HistoryItem>, url: string)
    requires x.url == url
    ensures Lookup(Holds([x] + s), url) == Some(x)
  {
    assert FindIndex([x] + s, url) == Some(0);
  }

  lemma LookupSkip(x: HistoryItem, s: seq<HistoryItem>, url: string)
    requires x.url != url
    ensures Lookup(Holds([x] + s), url) == Lookup(Holds(s), url)
  {
    assert ([x] + s)[1..] == s;
  }

  /** Removing works record by record: the records kept from a list are the
      records kept from its two halves, in order. */
  lemma {:induction false} RemoveAppend(a: seq<HistoryItem>, b: seq<HistoryItem>, url: string)
    ensures Remove(a + b, url) == Remove(a, url) + Remove(b, url)
  {
    if a == [] {
      assert a + b == b;
    } else {
      var x, tail := a[0], a[1..];
      ConsAppend(a, b);
      RemoveCons(x, tail, a, url);
      RemoveCons(x, tail + b, a + b, url);
      RemoveAppend(tail, b, url);
      PrefixAppend(if x.url == url then [] else [x], Remove(a, url), Remove(tail, url), Remove(b, url),
                   Remove(a + b, url), Remove(tail + b, url));
    }
  }

  lemma ConsAppend<T>(a: seq<T>, b: seq<T>)
    requires |a| > 0
    ensures a == [a[0]] + a[1..] && a + b == [a[0]] + (a[1..] + b)
  {
  }

  lemma PrefixAppend<T>(p: seq<T>, ra: seq<T>, rt: seq<T>, rb: seq<T>, rab: seq<T>, rtb: seq<T>)
    requires ra == p + rt && rab == p + rtb && rtb == rt + rb
    ensures rab == ra + rb
  {
  }

  lemma RemoveCons(x: HistoryItem, tail: seq<HistoryItem>, s: seq<HistoryItem>, url: string)
    requires s == [x] + tail
    ensures Remove(s, url) == (if x.url == url then [] else [x]) + Remove(tail, url)
  {
    assert s[1..] == tail;
  }

  /** Deleting a URL that has no record rewrites the same records. */
  lemma {:induction false} RemoveAbsent(items: seq<HistoryItem>, url: string)
    requires FindIndex(items, url).None?
    ensures Remove(items, url) == items
  {
    if |items| > 0 {
      var x, tail := items[0], items[1..];
      assert items == [x] + tail;
      RemoveAbsent(tail, url);
      assert Remove(items, url) == [x] + Remove(tail, url);
    }
  }

  /** Deleting is idempotent. */
  lemma DeleteIdempotent(view: HistoryView, url: string)
    ensures Delete(Delete(view, url), url) == Delete(view, url)
  {
    if view.slot.Holds? {
      var r := Remove(view.slot.items, url);
      RemoveAbsent(r, url);
    }
  }
}
