/** What each use case on the items of a playlist answers and leaves behind, item by item. */
module PlaylistOutcomes {
  import opened Options
  import opened Library
  import opened PlaylistItems

  predicate Allowed(owner: UserId, scope: Option<UserId>) {
    scope == None || scope == Some(owner)
  }

  predicate Positive(v: real) {
    v > 0.0 && v == v.Floor as real
  }

  // A video whose length is known is not shown longer than that.
  predicate Fits(c: Content, seconds: int) {
    c.kind == VIDEO && c.duration.Some? && c.duration.value > 0 ==> seconds <= c.duration.value
  }

  predicate DifferentIds(items: seq<Item>) {
    forall i, j :: 0 <= i < j < |items| ==> items[i].id != items[j].id
  }

  // ----- Adding an item -----

  /** An item is added exactly if all this holds; it comes last with what was asked for, and nothing else changes. */
  lemma AddedExactly(s: Store, scope: Option<UserId>, p: PlaylistId, c: ContentId, sequence: real, duration: real, loop: bool, newId: ItemId)
    ensures var r := AddItem(s, scope, p, c, sequence, duration, loop, newId);
            && (r.Ok? <==>
                  && Positive(sequence) && Positive(duration)
                  && p in s.playlists && Allowed(s.playlists[p].ownerId, scope)
                  && c in s.contents && Allowed(s.contents[c].ownerId, scope)
                  && s.contents[c].status == READY && s.contents[c].kind != FLASH && Fits(s.contents[c], duration.Floor)
                  && (loop ==> s.contents[c].kind == VIDEO)
                  && Total(s.playlists[p].items) + duration.Floor <= 60
                  && forall i :: 0 <= i < |s.playlists[p].items| ==> s.playlists[p].items[i].sequence != sequence.Floor)
            && (r.Ok? ==>
                  var old' := s.playlists[p];
                  var item := Item(newId, c, sequence.Floor, duration.Floor, s.contents[c].kind == VIDEO);
                  r.store == s.(playlists := s.playlists[p := Playlist(old'.ownerId, old'.status, old'.items + [item])]))
  {
  }

  /** Each refusal of an addition has its reason. */
  lemma AddRefusalMeans(s: Store, scope: Option<UserId>, p: PlaylistId, c: ContentId, sequence: real, duration: real, loop: bool, newId: ItemId)
    requires AddItem(s, scope, p, c, sequence, duration, loop, newId).Err?
    ensures match AddItem(s, scope, p, c, sequence, duration, loop, newId).failure
            case InvalidSequence => !Positive(sequence)
            case InvalidDuration => !Positive(duration)
            case PlaylistNotFound => !(p in s.playlists && Allowed(s.playlists[p].ownerId, scope))
            case ContentNotFound => !(c in s.contents && Allowed(s.contents[c].ownerId, scope))
            case NotReady => s.contents[c].status != READY
            case FlashInPlaylist => s.contents[c].kind == FLASH
            case LongerThanVideo => !Fits(s.contents[c], duration.Floor)
            case LoopNeedsVideo => loop && s.contents[c].kind != VIDEO
            case TooLong => Total(s.playlists[p].items) + duration.Floor > 60
            case SequenceTaken => exists i :: 0 <= i < |s.playlists[p].items| && s.playlists[p].items[i].sequence == sequence.Floor
            case _ => false
  {
  }

  // ----- Changing one -----

  lemma IndexIs(items: seq<Item>, k: nat)
    requires k < |items| && DifferentIds(items)
    ensures HasItem(items, items[k].id) && IndexOf(items, items[k].id) == k
  {
  }

  /** An item is changed exactly if all this holds; what was given is stored, what was not stays, and so does everything else. */
  lemma UpdatedExactly(s: Store, scope: Option<UserId>, p: PlaylistId, k: nat, sequence: Option<real>, duration: Option<real>, loop: bool)
    requires p in s.playlists && k < |s.playlists[p].items| && DifferentIds(s.playlists[p].items)
    ensures var items := s.playlists[p].items;
            var item := items[k];
            var r := UpdateItem(s, scope, p, item.id, sequence, duration, loop);
            && (r.Ok? <==>
                  && (sequence.Some? ==> Positive(sequence.value)) && (duration.Some? ==> Positive(duration.value))
                  && Allowed(s.playlists[p].ownerId, scope)
                  && item.contentId in s.contents && Allowed(s.contents[item.contentId].ownerId, scope)
                  && (loop ==> s.contents[item.contentId].kind == VIDEO)
                  && (duration.Some? ==> Fits(s.contents[item.contentId], duration.value.Floor)
                                         && TotalOfOthers(items, item.id) + duration.value.Floor <= 60)
                  && (sequence.Some? ==> forall i :: 0 <= i < |items| && i != k ==> items[i].sequence != sequence.value.Floor))
            && (r.Ok? ==>
                  var next := Item(item.id, item.contentId,
                                   if sequence.Some? then sequence.value.Floor else item.sequence,
                                   if duration.Some? then duration.value.Floor else item.duration,
                                   s.contents[item.contentId].kind == VIDEO);
                  r.store == s.(playlists := s.playlists[p := Playlist(s.playlists[p].ownerId, s.playlists[p].status, items[k := next])]))
  {
    IndexIs(s.playlists[p].items, k);
  }

  /** An item that is not in the playlist is neither changed nor deleted. */
  lemma MissingItem(s: Store, scope: Option<UserId>, p: PlaylistId, id: ItemId, sequence: Option<real>, duration: Option<real>, loop: bool)
    requires p in s.playlists ==> forall i :: 0 <= i < |s.playlists[p].items| ==> s.playlists[p].items[i].id != id
    ensures UpdateItem(s, scope, p, id, sequence, duration, loop).Err? && DeleteItem(s, scope, p, id).Err?
    ensures var found := p in s.playlists && Allowed(s.playlists[p].ownerId, scope);
            DeleteItem(s, scope, p, id) == Err(if found then ItemNotFound else PlaylistNotFound)
  {
  }

  // ----- Deleting one -----

  /**
   * An item is deleted exactly if the playlist is the caller's and has another one. Then this item is gone, the others
   * are there unchanged and in their order, and nothing else changes.
   */
  lemma DeletedExactly(s: Store, scope: Option<UserId>, p: PlaylistId, k: nat)
    requires p in s.playlists && k < |s.playlists[p].items| && DifferentIds(s.playlists[p].items)
    ensures var items := s.playlists[p].items;
            var r := DeleteItem(s, scope, p, items[k].id);
            && (r.Ok? <==> Allowed(s.playlists[p].ownerId, scope) && |items| > 1)
            && (r == Err(EmptyPlaylist) <==> Allowed(s.playlists[p].ownerId, scope) && |items| == 1)
            && (r.Ok? ==>
                  && r.store == s.(playlists := s.playlists[p := Playlist(s.playlists[p].ownerId, s.playlists[p].status,
                                                                          items[..k] + items[k + 1..])])
                  && forall i :: 0 <= i < |r.store.playlists[p].items| ==> r.store.playlists[p].items[i].id != items[k].id)
  {
    IndexIs(s.playlists[p].items, k);
  }

  // ----- Replacing all -----

  // The content an entry is for.
  predicate Shows(e: Entry, items: seq<Item>, c: ContentId) {
    match e
    case Existing(id, _, _) => exists j :: 0 <= j < |items| && items[j].id == id && items[j].contentId == c
    case New(content, _, _, _) => content == c
  }

  predicate EntryFits(s: Store, scope: Option<UserId>, e: Entry, items: seq<Item>, c: ContentId) {
    && Shows(e, items, c) && c in s.contents && Allowed(s.contents[c].ownerId, scope)
    && s.contents[c].kind != FLASH && (e.New? ==> s.contents[c].status == READY)
    && Fits(s.contents[c], e.duration.Floor) && (e.loop ==> s.contents[c].kind == VIDEO)
  }

  lemma ShowsContentOf(e: Entry, items: seq<Item>, c: ContentId)
    requires DifferentIds(items)
    ensures Shows(e, items, c) <==> (e.Existing? ==> HasItem(items, e.itemId)) && ContentOf(e, items) == c
  {
    if e.Existing? && HasItem(items, e.itemId) {
      var k := IndexOf(items, e.itemId);
      assert items[k].id == e.itemId && items[k].contentId == ContentOf(e, items);
    }
  }

  // Every entry is in order, and none of the kept items is named twice.
  predicate EntriesFit(s: Store, scope: Option<UserId>, entries: seq<Entry>, items: seq<Item>) {
    && (forall i, j :: 0 <= i < j < |entries| && entries[i].Existing? && entries[j].Existing? ==> entries[i].itemId != entries[j].itemId)
    && forall i :: 0 <= i < |entries| ==> exists c :: c in s.contents && EntryFits(s, scope, entries[i], items, c)
  }

  lemma FittingEntry(s: Store, scope: Option<UserId>, e: Entry, items: seq<Item>)
    requires DifferentIds(items) && (e.Existing? ==> HasItem(items, e.itemId))
    ensures (exists c :: c in s.contents && EntryFits(s, scope, e, items, c)) <==>
              var c := ContentOf(e, items);
              && c in s.contents && Allowed(s.contents[c].ownerId, scope)
              && s.contents[c].kind != FLASH && (e.New? ==> s.contents[c].status == READY)
              && Fits(s.contents[c], e.duration.Floor) && (e.loop ==> s.contents[c].kind == VIDEO)
  {
    ShowsContentOf(e, items, ContentOf(e, items));
    if c :| c in s.contents && EntryFits(s, scope, e, items, c) {
      ShowsContentOf(e, items, c);
    }
  }

  lemma KnownIfFitting(s: Store, scope: Option<UserId>, entries: seq<Entry>, items: seq<Item>)
    requires DifferentIds(items) && EntriesFit(s, scope, entries, items)
    ensures Known(entries, items) && NoneTwice(entries)
  {
    forall i | 0 <= i < |entries| && entries[i].Existing?
      ensures HasItem(items, entries[i].itemId)
    {
      var c :| c in s.contents && EntryFits(s, scope, entries[i], items, c);
      ShowsContentOf(entries[i], items, c);
    }
  }

  lemma ContentsFit(s: Store, scope: Option<UserId>, entries: seq<Entry>, items: seq<Item>)
    requires DifferentIds(items) && Known(entries, items) && NoneTwice(entries)
    ensures ContentFailure(s, scope, entries, items) == None <==> EntriesFit(s, scope, entries, items)
  {
    forall i | 0 <= i < |entries|
      ensures (exists c :: c in s.contents && EntryFits(s, scope, entries[i], items, c)) <==>
                var c := ContentOf(entries[i], items);
                && c in s.contents && Allowed(s.contents[c].ownerId, scope)
                && s.contents[c].kind != FLASH && (entries[i].New? ==> s.contents[c].status == READY)
                && Fits(s.contents[c], entries[i].duration.Floor) && (entries[i].loop ==> s.contents[c].kind == VIDEO)
    {
      FittingEntry(s, scope, entries[i], items);
    }
  }

  /** The items are replaced exactly if there is a list, of whole durations of a minute at most in all, and every entry is in order. */
  lemma ReplacedExactly(s: Store, scope: Option<UserId>, p: PlaylistId, entries: seq<Entry>)
    requires p in s.playlists ==> DifferentIds(s.playlists[p].items)
    ensures ReplaceItems(s, scope, p, entries).Ok? <==>
              && entries != [] && p in s.playlists && Allowed(s.playlists[p].ownerId, scope)
              && (forall i :: 0 <= i < |entries| ==> Positive(entries[i].duration)) && EntryTotal(entries) <= 60
              && EntriesFit(s, scope, entries, s.playlists[p].items)
  {
    if p in s.playlists {
      var items := s.playlists[p].items;
      if EntriesFit(s, scope, entries, items) {
        KnownIfFitting(s, scope, entries, items);
      }
      if Known(entries, items) && NoneTwice(entries) {
        ContentsFit(s, scope, entries, items);
      }
    }
  }

  /**
   * Then the playlist holds one item for each entry, in their order and numbered from one: a kept item keeps its id and
   * its content, a new one has what was asked for. Nothing else changes.
   */
  lemma ReplacedItems(s: Store, scope: Option<UserId>, p: PlaylistId, entries: seq<Entry>)
    requires p in s.playlists && DifferentIds(s.playlists[p].items) && ReplaceItems(s, scope, p, entries).Ok?
    ensures var t := ReplaceItems(s, scope, p, entries).store;
            && p in t.playlists && t == s.(playlists := s.playlists[p := t.playlists[p]])
            && t.playlists[p].ownerId == s.playlists[p].ownerId && t.playlists[p].status == s.playlists[p].status
            && |t.playlists[p].items| == |entries|
            && forall i :: 0 <= i < |entries| ==>
                 var e, item := entries[i], t.playlists[p].items[i];
                 && item.id == (if e.Existing? then e.itemId else e.newId) && item.sequence == i + 1
                 && item.duration == e.duration.Floor && Shows(e, s.playlists[p].items, item.contentId)
                 && item.contentId in s.contents && item.loop == (s.contents[item.contentId].kind == VIDEO)
  {
    var items := s.playlists[p].items;
    var after := Replacement(s, entries, items);
    forall i | 0 <= i < |entries|
      ensures Shows(entries[i], items, after[i].contentId) && after[i] == ReplacementItem(s, entries[i], items, i)
    {
      ShowsContentOf(entries[i], items, ContentOf(entries[i], items));
    }
  }

  /** The durations of the entries add up, one by one. */
  lemma {:induction false} EntriesAddUp(entries: seq<Entry>, more: seq<Entry>)
    ensures EntryTotal(entries + more) == EntryTotal(entries) + EntryTotal(more)
    ensures |more| == 1 ==> EntryTotal(more) == more[0].duration.Floor
  {
    if more == [] {
      assert entries + more == entries;
    } else {
      assert (entries + more)[..|entries + more| - 1] == entries + more[..|more| - 1];
      EntriesAddUp(entries, more[..|more| - 1]);
      assert |more| == 1 ==> more[..0] == [];
    }
  }

  // ----- Creating a playlist -----

  /**
   * A playlist is created for a known owner from a list that a replacement accepts; it is a draft of the owner's with
   * these items. When its filling is refused, nothing is left of it, or, if deleting it fails, a draft without items.
   */
  lemma CreatedExactly(s: Store, users: set<UserId>, owner: UserId, scope: Option<UserId>, p: PlaylistId, entries: seq<Entry>, deleteFails: bool)
    requires p !in s.playlists
    ensures var (t, failure) := CreatePlaylist(s, users, owner, scope, p, entries, deleteFails);
            var empty := s.(playlists := s.playlists[p := Playlist(owner, DRAFT, [])]);
            && (failure == None <==> owner in users && ReplaceItems(empty, scope, p, entries).Ok?)
            && (failure == None ==> t == ReplaceItems(empty, scope, p, entries).store
                                    && t.playlists[p].ownerId == owner && t.playlists[p].status == DRAFT && |t.playlists[p].items| == |entries|)
            && (failure != None ==> t == if deleteFails && entries != [] && owner in users then empty else s)
  {
    var empty := s.(playlists := s.playlists[p := Playlist(owner, DRAFT, [])]);
    assert empty.playlists - {p} == s.playlists;
    if ReplaceItems(empty, scope, p, entries).Ok? {
      ReplacedItems(empty, scope, p, entries);
    }
  }

  // ----- How long a playlist runs -----

  /** Each item counts its duration, at least a second, unless its content is gone. */
  lemma {:induction false} EffectiveAddsUp(items: seq<Item>, more: seq<Item>, contents: map<ContentId, Content>)
    ensures EffectiveDuration(items + more, contents) == EffectiveDuration(items, contents) + EffectiveDuration(more, contents)
    ensures |more| == 1 ==> EffectiveDuration(more, contents) ==
                              if more[0].contentId in contents then (if more[0].duration > 1 then more[0].duration else 1) else 0
  {
    if more == [] {
      assert items + more == items;
    } else {
      assert (items + more)[..|items + more| - 1] == items + more[..|more| - 1];
      EffectiveAddsUp(items, more[..|more| - 1], contents);
      assert |more| == 1 ==> more[..0] == [];
    }
  }
}
