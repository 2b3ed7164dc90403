/** Adding, changing, replacing and deleting the items of a playlist, and creating a playlist with its items. */
module PlaylistItems {
  import opened Options
  import opened Library

  predicate IsWhole(v: real) {
    v.Floor as real == v
  }

  predicate IsValidSequence(v: real) {
    IsWhole(v) && v > 0.0
  }

  predicate IsValidDuration(v: real) {
    IsWhole(v) && v > 0.0
  }

  function WithItems(s: Store, id: PlaylistId, items: seq<Item>): Store
    requires id in s.playlists
  {
    s.(playlists := s.playlists[id := s.playlists[id].(items := items)])
  }

  // ----- Add -----

  function AddItem(s: Store, scope: Option<UserId>, playlistId: PlaylistId, contentId: ContentId,
                   sequence: real, duration: real, loop: bool, newId: ItemId): Result
  {
    if !IsValidSequence(sequence) then Err(InvalidSequence)
    else if !IsValidDuration(duration) then Err(InvalidDuration)
    else if FindPlaylist(s, playlistId, scope).None? then Err(PlaylistNotFound)
    else if FindContent(s, contentId, scope).None? then Err(ContentNotFound)
    else
      var c, items := s.contents[contentId], s.playlists[playlistId].items;
      if c.status != READY then Err(NotReady)
      else if c.kind == FLASH then Err(FlashInPlaylist)
      else if !WithinContent(c, duration.Floor) then Err(LongerThanVideo)
      else if loop && c.kind != VIDEO then Err(LoopNeedsVideo)
      else if Total(items) + duration.Floor > MAX_PLAYLIST_BASE_DURATION_SECONDS then Err(TooLong)
      else if exists i :: 0 <= i < |items| && items[i].sequence == sequence.Floor then Err(SequenceTaken)
      else Ok(WithItems(s, playlistId, items + [Item(newId, contentId, sequence.Floor, duration.Floor, c.kind == VIDEO)]))
  }

  lemma OneMoreItem(p: Playlist, item: Item, contents: map<ContentId, Content>)
    requires p.items != [] ==> PlaylistSound(p, contents)
    requires ItemSound(item, contents) && Total(p.items) + item.duration <= MAX_PLAYLIST_BASE_DURATION_SECONDS
    requires forall i :: 0 <= i < |p.items| ==> p.items[i].id != item.id && p.items[i].sequence != item.sequence
    ensures PlaylistSound(p.(items := p.items + [item]), contents)
  {
    TotalOfParts(p.items, [item]);
    assert Total([item]) == Total([item][..0]) + item.duration;
  }

  lemma AddKeepsPlaylist(s: Store, scope: Option<UserId>, playlistId: PlaylistId, contentId: ContentId,
                         sequence: real, duration: real, loop: bool, newId: ItemId)
    requires playlistId in s.playlists && s.playlists[playlistId].items != [] ==>
               PlaylistSound(s.playlists[playlistId], s.contents) && !HasItem(s.playlists[playlistId].items, newId)
    ensures var r := AddItem(s, scope, playlistId, contentId, sequence, duration, loop, newId);
            r.Ok? ==> PlaylistSound(r.store.playlists[playlistId], s.contents)
  {
    if AddItem(s, scope, playlistId, contentId, sequence, duration, loop, newId).Ok? {
      OneMoreItem(s.playlists[playlistId],
                  Item(newId, contentId, sequence.Floor, duration.Floor, s.contents[contentId].kind == VIDEO), s.contents);
    }
  }

  lemma AddKeepsFit(s: Store, scope: Option<UserId>, playlistId: PlaylistId, contentId: ContentId,
                    sequence: real, duration: real, loop: bool, newId: ItemId)
    requires ReadyIsSettled(s.contents)
    requires playlistId in s.playlists ==> ItemsFit(s.playlists[playlistId].items, s.contents)
    ensures var r := AddItem(s, scope, playlistId, contentId, sequence, duration, loop, newId);
            r.Ok? ==> ItemsFit(r.store.playlists[playlistId].items, s.contents)
  {
  }

  // ----- Update -----

  function IndexOf(items: seq<Item>, id: ItemId): (i: nat)
    requires HasItem(items, id)
    ensures i < |items| && items[i].id == id
  {
    if items[|items| - 1].id == id then |items| - 1 else IndexOf(items[..|items| - 1], id)
  }

  function TotalOfOthers(items: seq<Item>, id: ItemId): int {
    if items == [] then 0
    else TotalOfOthers(items[..|items| - 1], id)
         + if items[|items| - 1].id != id then items[|items| - 1].duration else 0
  }

  function UpdateItem(s: Store, scope: Option<UserId>, playlistId: PlaylistId, id: ItemId,
                      sequence: Option<real>, duration: Option<real>, loop: bool): Result
  {
    if sequence.Some? && !IsValidSequence(sequence.value) then Err(InvalidSequence)
    else if duration.Some? && !IsValidDuration(duration.value) then Err(InvalidDuration)
    else if FindPlaylist(s, playlistId, scope).None? then Err(PlaylistNotFound)
    else
      var items := s.playlists[playlistId].items;
      if !HasItem(items, id) then Err(ItemNotFound)
      else
        var k := IndexOf(items, id);
        var item := items[k];
        if FindContent(s, item.contentId, scope).None? then Err(ContentNotFound)
        else
          var c := s.contents[item.contentId];
          if loop && c.kind != VIDEO then Err(LoopNeedsVideo)
          else if duration.Some? && !WithinContent(c, duration.value.Floor) then Err(LongerThanVideo)
          else if duration.Some? && TotalOfOthers(items, id) + duration.value.Floor > MAX_PLAYLIST_BASE_DURATION_SECONDS then
            Err(TooLong)
          else if sequence.Some? && exists i :: 0 <= i < |items| && i != k && items[i].sequence == sequence.value.Floor then
            Err(SequenceTaken)
          else
            var seq' := if sequence.Some? then sequence.value.Floor else item.sequence;
            var dur' := if duration.Some? then duration.value.Floor else item.duration;
            Ok(WithItems(s, playlistId, items[k := item.(sequence := seq', duration := dur', loop := c.kind == VIDEO)]))
  }

  // Changing the duration of one item changes the total by that much.
  lemma {:induction false} TotalWithChanged(items: seq<Item>, k: nat, item: Item)
    requires k < |items|
    ensures Total(items[k := item]) == Total(items) - items[k].duration + item.duration
  {
    var n := |items| - 1;
    if k < n {
      TotalWithChanged(items[..n], k, item);
      assert items[k := item][..n] == items[..n][k := item];
    } else {
      assert items[k := item][..n] == items[..n];
    }
  }

  lemma {:induction false} TotalOfRest(items: seq<Item>, k: nat)
    requires k < |items| && ItemsDiffer(items)
    ensures TotalOfOthers(items, items[k].id) == Total(items) - items[k].duration
  {
    var n := |items| - 1;
    if k < n {
      TotalOfRest(items[..n], k);
    } else {
      NoneLeftOut(items[..n], items[n].id);
    }
  }

  lemma {:induction false} NoneLeftOut(items: seq<Item>, id: ItemId)
    requires forall i :: 0 <= i < |items| ==> items[i].id != id
    ensures TotalOfOthers(items, id) == Total(items)
  {
    if items != [] {
      NoneLeftOut(items[..|items| - 1], id);
    }
  }

  lemma UpdateKeepsPlaylist(s: Store, scope: Option<UserId>, playlistId: PlaylistId, id: ItemId,
                            sequence: Option<real>, duration: Option<real>, loop: bool)
    requires playlistId in s.playlists && s.playlists[playlistId].items != [] ==>
               PlaylistSound(s.playlists[playlistId], s.contents)
    ensures var r := UpdateItem(s, scope, playlistId, id, sequence, duration, loop);
            r.Ok? ==> PlaylistSound(r.store.playlists[playlistId], s.contents)
  {
    var r := UpdateItem(s, scope, playlistId, id, sequence, duration, loop);
    if r.Ok? {
      var items := s.playlists[playlistId].items;
      var k := IndexOf(items, id);
      assert ItemSound(items[k], s.contents);
      TotalOfRest(items, k);
      TotalWithChanged(items, k, r.store.playlists[playlistId].items[k]);
    }
  }

  lemma UpdateKeepsFit(s: Store, scope: Option<UserId>, playlistId: PlaylistId, id: ItemId,
                       sequence: Option<real>, duration: Option<real>, loop: bool)
    requires playlistId in s.playlists ==> ItemsFit(s.playlists[playlistId].items, s.contents)
    ensures var r := UpdateItem(s, scope, playlistId, id, sequence, duration, loop);
            r.Ok? ==> ItemsFit(r.store.playlists[playlistId].items, s.contents)
  {
    if UpdateItem(s, scope, playlistId, id, sequence, duration, loop).Ok? {
      var items := s.playlists[playlistId].items;
      assert ItemFits(items[IndexOf(items, id)], s.contents);
    }
  }

  // ----- Delete -----

  function DeleteItem(s: Store, scope: Option<UserId>, playlistId: PlaylistId, id: ItemId): Result {
    if FindPlaylist(s, playlistId, scope).None? then Err(PlaylistNotFound)
    else
      var items := s.playlists[playlistId].items;
      if !HasItem(items, id) then Err(ItemNotFound)
      else if |items| <= 1 then Err(EmptyPlaylist)
      else
        var k := IndexOf(items, id);
        Ok(WithItems(s, playlistId, items[..k] + items[k + 1..]))
  }

  lemma RemovedTotal(items: seq<Item>, k: nat)
    requires k < |items|
    ensures Total(items[..k] + items[k + 1..]) == Total(items) - items[k].duration
  {
    var upTo, rest := items[..k + 1], items[k + 1..];
    assert items == upTo + rest;
    TotalOfParts(upTo, rest);
    assert upTo[..k] == items[..k];
    TotalOfParts(items[..k], rest);
  }

  lemma DeleteKeepsPlaylist(s: Store, scope: Option<UserId>, playlistId: PlaylistId, id: ItemId)
    requires playlistId in s.playlists && s.playlists[playlistId].items != [] ==>
               PlaylistSound(s.playlists[playlistId], s.contents)
    ensures var r := DeleteItem(s, scope, playlistId, id);
            r.Ok? ==> PlaylistSound(r.store.playlists[playlistId], s.contents)
  {
    if DeleteItem(s, scope, playlistId, id).Ok? {
      var items := s.playlists[playlistId].items;
      var k := IndexOf(items, id);
      assert ItemSound(items[k], s.contents);
      RemovedTotal(items, k);
    }
  }

  // ----- Replace -----

  // One entry of the new list; `newId` is the id the database gives a new item.
  datatype Entry =
    | Existing(itemId: ItemId, duration: real, loop: bool)
    | New(contentId: ContentId, duration: real, loop: bool, newId: ItemId)

  function ContentOf(e: Entry, items: seq<Item>): ContentId
    requires e.Existing? ==> HasItem(items, e.itemId)
  {
    if e.Existing? then items[IndexOf(items, e.itemId)].contentId else e.contentId
  }

  function IdOf(e: Entry): ItemId {
    if e.Existing? then e.itemId else e.newId
  }

  function EntryTotal(entries: seq<Entry>): int {
    if entries == [] then 0 else EntryTotal(entries[..|entries| - 1]) + entries[|entries| - 1].duration.Floor
  }

  predicate Known(entries: seq<Entry>, items: seq<Item>) {
    forall i :: 0 <= i < |entries| && entries[i].Existing? ==> HasItem(items, entries[i].itemId)
  }

  predicate NoneTwice(entries: seq<Entry>) {
    forall i, j :: 0 <= i < j < |entries| && entries[i].Existing? && entries[j].Existing? ==>
      entries[i].itemId != entries[j].itemId
  }

  // The first kept item that is named twice or is not in the playlist.
  function ReferenceFailure(entries: seq<Entry>, items: seq<Item>): (f: Option<Failure>)
    ensures f.None? <==> Known(entries, items) && NoneTwice(entries)
  {
    if entries == [] then None
    else
      var n := |entries| - 1;
      var before := ReferenceFailure(entries[..n], items);
      if before.Some? then before
      else if entries[n].New? then None
      else if exists i :: 0 <= i < n && entries[i].Existing? && entries[i].itemId == entries[n].itemId then
        Some(DuplicateItemId)
      else if !HasItem(items, entries[n].itemId) then Some(InvalidItem)
      else None
  }

  predicate AllFound(s: Store, scope: Option<UserId>, entries: seq<Entry>, items: seq<Item>)
    requires Known(entries, items)
  {
    forall i :: 0 <= i < |entries| ==> FindContent(s, ContentOf(entries[i], items), scope).Some?
  }

  // The first entry longer than its video or looping something else.
  function LengthFailure(s: Store, entries: seq<Entry>, items: seq<Item>): (f: Option<Failure>)
    requires Known(entries, items) && AllFound(s, None, entries, items)
    ensures f.None? <==>
              forall i :: 0 <= i < |entries| ==>
                var c := s.contents[ContentOf(entries[i], items)];
                WithinContent(c, entries[i].duration.Floor) && (entries[i].loop ==> c.kind == VIDEO)
  {
    if entries == [] then None
    else
      var n := |entries| - 1;
      var before := LengthFailure(s, entries[..n], items);
      var c := s.contents[ContentOf(entries[n], items)];
      if before.Some? then before
      else if !WithinContent(c, entries[n].duration.Floor) then Some(LongerThanVideo)
      else if entries[n].loop && c.kind != VIDEO then Some(LoopNeedsVideo)
      else None
  }

  // What is wrong with the contents the entries refer to.
  function ContentFailure(s: Store, scope: Option<UserId>, entries: seq<Entry>, items: seq<Item>): Option<Failure>
    requires Known(entries, items)
  {
    if !AllFound(s, scope, entries, items) then Some(ContentNotFound)
    else if exists i :: 0 <= i < |entries| && s.contents[ContentOf(entries[i], items)].kind == FLASH then
      Some(FlashInPlaylist)
    else if exists i :: 0 <= i < |entries| && entries[i].New? && s.contents[entries[i].contentId].status != READY then
      Some(NotReady)
    else LengthFailure(s, entries, items)
  }

  function ReplacementItem(s: Store, e: Entry, items: seq<Item>, position: nat): Item
    requires e.Existing? ==> HasItem(items, e.itemId)
    requires ContentOf(e, items) in s.contents
  {
    var contentId := ContentOf(e, items);
    Item(IdOf(e), contentId, position + 1, e.duration.Floor, s.contents[contentId].kind == VIDEO)
  }

  function Replacement(s: Store, entries: seq<Entry>, items: seq<Item>): (r: seq<Item>)
    requires Known(entries, items) && AllFound(s, None, entries, items)
    ensures |r| == |entries| && forall i :: 0 <= i < |r| ==> r[i] == ReplacementItem(s, entries[i], items, i)
  {
    if entries == [] then []
    else
      var n := |entries| - 1;
      Replacement(s, entries[..n], items) + [ReplacementItem(s, entries[n], items, n)]
  }

  function ReplaceItems(s: Store, scope: Option<UserId>, playlistId: PlaylistId, entries: seq<Entry>): Result {
    if entries == [] then Err(EmptyPlaylist)
    else if FindPlaylist(s, playlistId, scope).None? then Err(PlaylistNotFound)
    else if exists i :: 0 <= i < |entries| && !IsValidDuration(entries[i].duration) then Err(InvalidDuration)
    else if EntryTotal(entries) > MAX_PLAYLIST_BASE_DURATION_SECONDS then Err(TooLong)
    else
      var items := s.playlists[playlistId].items;
      var f := ReferenceFailure(entries, items);
      if f.Some? then Err(f.value)
      else
        var g := ContentFailure(s, scope, entries, items);
        if g.Some? then Err(g.value) else Ok(WithItems(s, playlistId, Replacement(s, entries, items)))
  }

  // The ids the database gives new items are new in this playlist.
  predicate NewIds(entries: seq<Entry>, items: seq<Item>) {
    && (forall i :: 0 <= i < |entries| && entries[i].New? ==> !HasItem(items, entries[i].newId))
    && (forall i, j :: 0 <= i < j < |entries| && entries[i].New? && entries[j].New? ==> entries[i].newId != entries[j].newId)
  }

  lemma {:induction false} ReplacementTotal(s: Store, entries: seq<Entry>, items: seq<Item>)
    requires Known(entries, items) && AllFound(s, None, entries, items)
    ensures Total(Replacement(s, entries, items)) == EntryTotal(entries)
  {
    if entries != [] {
      var n := |entries| - 1;
      ReplacementTotal(s, entries[..n], items);
      assert Replacement(s, entries, items)[..n] == Replacement(s, entries[..n], items);
    }
  }

  lemma ReplacementDiffers(s: Store, entries: seq<Entry>, items: seq<Item>)
    requires Known(entries, items) && NoneTwice(entries) && AllFound(s, None, entries, items) && NewIds(entries, items)
    ensures ItemsDiffer(Replacement(s, entries, items))
  {
    var r := Replacement(s, entries, items);
    forall i, j | 0 <= i < j < |r|
      ensures r[i].id != r[j].id
    {
      assert r[i].id == IdOf(entries[i]) && r[j].id == IdOf(entries[j]);
    }
  }

  lemma ReplacementItemsSound(s: Store, scope: Option<UserId>, entries: seq<Entry>, items: seq<Item>)
    requires Known(entries, items) && ContentFailure(s, scope, entries, items).None?
    requires forall i :: 0 <= i < |entries| ==> IsValidDuration(entries[i].duration)
    ensures ItemsSound(Replacement(s, entries, items), s.contents)
  {
    var r := Replacement(s, entries, items);
    forall i | 0 <= i < |r|
      ensures ItemSound(r[i], s.contents)
    {
      assert r[i] == ReplacementItem(s, entries[i], items, i);
    }
  }

  lemma ReplaceMakesPlaylist(s: Store, scope: Option<UserId>, playlistId: PlaylistId, entries: seq<Entry>)
    requires playlistId in s.playlists ==> NewIds(entries, s.playlists[playlistId].items)
    ensures var r := ReplaceItems(s, scope, playlistId, entries);
            r.Ok? ==> PlaylistSound(r.store.playlists[playlistId], s.contents)
  {
    var r := ReplaceItems(s, scope, playlistId, entries);
    if r.Ok? {
      var items := s.playlists[playlistId].items;
      ReplacementTotal(s, entries, items);
      ReplacementDiffers(s, entries, items);
      ReplacementItemsSound(s, scope, entries, items);
    }
  }

  // Kept items fitted before, so what they show has been read; new ones show content that is ready.
  lemma ReplaceKeepsFit(s: Store, scope: Option<UserId>, playlistId: PlaylistId, entries: seq<Entry>)
    requires ReadyIsSettled(s.contents)
    requires playlistId in s.playlists ==> ItemsFit(s.playlists[playlistId].items, s.contents)
    ensures var r := ReplaceItems(s, scope, playlistId, entries);
            r.Ok? ==> ItemsFit(r.store.playlists[playlistId].items, s.contents)
  {
    var r := ReplaceItems(s, scope, playlistId, entries);
    if r.Ok? {
      var items := s.playlists[playlistId].items;
      var after := Replacement(s, entries, items);
      forall i | 0 <= i < |after|
        ensures ItemFits(after[i], s.contents)
      {
        assert after[i] == ReplacementItem(s, entries[i], items, i);
        if entries[i].Existing? {
          assert ItemFits(items[IndexOf(items, entries[i].itemId)], s.contents);
        }
      }
    }
  }

  // ----- Create -----

  // Creates an empty playlist and fills it; when filling fails the playlist is deleted, unless that fails too.
  function CreatePlaylist(s: Store, users: set<UserId>, ownerId: UserId, scope: Option<UserId>, newId: PlaylistId,
                          entries: seq<Entry>, deleteFails: bool): (Store, Option<Failure>)
  {
    if entries == [] then (s, Some(EmptyPlaylist))
    else if ownerId !in users then (s, Some(UserNotFound))
    else
      var t := s.(playlists := s.playlists[newId := Playlist(ownerId, DRAFT, [])]);
      match ReplaceItems(t, scope, newId, entries)
      case Ok(u) => (u, None)
      case Err(f) => (if deleteFails then t else t.(playlists := t.playlists - {newId}), Some(f))
  }

  // ----- How long a playlist runs -----

  // Items whose content is gone are skipped.
  function EffectiveDuration(items: seq<Item>, contents: map<ContentId, Content>): nat {
    if items == [] then 0
    else
      var last := items[|items| - 1];
      EffectiveDuration(items[..|items| - 1], contents) +
      if last.contentId !in contents then 0 else if last.duration > 0 then last.duration else 1
  }

  /** For a playlist in order the effective duration is the total of its durations, so at most a minute. */
  lemma {:induction false} EffectiveIsTotal(items: seq<Item>, contents: map<ContentId, Content>)
    requires ItemsSound(items, contents)
    ensures EffectiveDuration(items, contents) == Total(items)
  {
    if items != [] {
      assert ItemSound(items[|items| - 1], contents);
      EffectiveIsTotal(items[..|items| - 1], contents);
    }
  }

  method ComputePlaylistEffectiveDuration(items: seq<Item>, contents: map<ContentId, Content>) returns (seconds: nat)
    ensures seconds == EffectiveDuration(items, contents)
  {
    seconds := 0;
    for n := 0 to |items|
      invariant seconds == EffectiveDuration(items[..n], contents)
    {
      assert items[..n + 1][..n] == items[..n];
      if items[n].contentId in contents {
        seconds := seconds + if items[n].duration > 0 then items[n].duration else 1;
      }
    }
    assert items[..|items|] == items;
  }
}
