/**
 * The use cases as they run against the database: each method works step by step on the tables and is proved to do
 * what the function of the same name says.
 */
module Backend {
  import opened Options
  import opened ScheduleWindows
  import opened Library
  import opened PlaylistItems
  import opened Schedules

  // ----- The loops of a replacement -----

  lemma {:induction false} FirstReferenceFailure(entries: seq<Entry>, items: seq<Item>, n: nat)
    requires n <= |entries| && ReferenceFailure(entries[..n], items).Some?
    ensures ReferenceFailure(entries, items) == ReferenceFailure(entries[..n], items)
  {
    if n < |entries| {
      var m := |entries| - 1;
      assert entries[..m][..n] == entries[..n];
      FirstReferenceFailure(entries[..m], items, n);
    } else {
      assert entries[..n] == entries;
    }
  }

  // What the entries refer to, entry by entry, unless one is named twice or not in the playlist.
  method CheckReferences(entries: seq<Entry>, items: seq<Item>) returns (failure: Option<Failure>, requested: seq<ContentId>)
    ensures failure == ReferenceFailure(entries, items)
    ensures failure.None? ==>
              |requested| == |entries| && forall i :: 0 <= i < |entries| ==> requested[i] == ContentOf(entries[i], items)
  {
    var seen: set<ItemId> := {};
    requested := [];
    for n := 0 to |entries|
      invariant ReferenceFailure(entries[..n], items).None?
      invariant forall id :: id in seen <==> exists i :: 0 <= i < n && entries[i].Existing? && entries[i].itemId == id
      invariant Known(entries[..n], items)
      invariant |requested| == n && forall i :: 0 <= i < n ==> entries[..n][i] == entries[i] && requested[i] == ContentOf(entries[..n][i], items)
    {
      assert entries[..n + 1][..n] == entries[..n];
      match entries[n] {
        case Existing(itemId, _, _) =>
          if itemId in seen {
            FirstReferenceFailure(entries, items, n + 1);
            return Some(DuplicateItemId), requested;
          }
          seen := seen + {itemId};
          if !HasItem(items, itemId) {
            FirstReferenceFailure(entries, items, n + 1);
            return Some(InvalidItem), requested;
          }
          requested := requested + [items[IndexOf(items, itemId)].contentId];
        case New(contentId, _, _, _) =>
          requested := requested + [contentId];
      }
    }
    assert entries[..|entries|] == entries;
    failure := None;
  }

  lemma {:induction false} FirstLengthFailure(s: Store, entries: seq<Entry>, items: seq<Item>, n: nat)
    requires Known(entries, items) && AllFound(s, None, entries, items)
    requires n <= |entries| && LengthFailure(s, entries[..n], items).Some?
    ensures LengthFailure(s, entries, items) == LengthFailure(s, entries[..n], items)
  {
    if n < |entries| {
      var m := |entries| - 1;
      assert entries[..m][..n] == entries[..n];
      FirstLengthFailure(s, entries[..m], items, n);
    } else {
      assert entries[..n] == entries;
    }
  }

  method CheckLengths(s: Store, entries: seq<Entry>, items: seq<Item>) returns (failure: Option<Failure>)
    requires Known(entries, items) && AllFound(s, None, entries, items)
    ensures failure == LengthFailure(s, entries, items)
  {
    for n := 0 to |entries|
      invariant LengthFailure(s, entries[..n], items).None?
    {
      assert entries[..n + 1][..n] == entries[..n];
      var content := s.contents[ContentOf(entries[n], items)];
      if !WithinContent(content, entries[n].duration.Floor) {
        FirstLengthFailure(s, entries, items, n + 1);
        return Some(LongerThanVideo);
      }
      if entries[n].loop && content.kind != VIDEO {
        FirstLengthFailure(s, entries, items, n + 1);
        return Some(LoopNeedsVideo);
      }
    }
    assert entries[..|entries|] == entries;
    failure := None;
  }

  method CheckContents(s: Store, scope: Option<UserId>, entries: seq<Entry>, items: seq<Item>, requested: seq<ContentId>)
    returns (failure: Option<Failure>)
    requires Known(entries, items)
    requires |requested| == |entries| && forall i :: 0 <= i < |entries| ==> requested[i] == ContentOf(entries[i], items)
    ensures failure == ContentFailure(s, scope, entries, items)
  {
    for n := 0 to |requested|
      invariant forall i :: 0 <= i < n ==> FindContent(s, ContentOf(entries[i], items), scope).Some?
    {
      if FindContent(s, requested[n], scope).None? {
        return Some(ContentNotFound);
      }
    }
    for n := 0 to |requested|
      invariant forall i :: 0 <= i < n ==> s.contents[ContentOf(entries[i], items)].kind != FLASH
    {
      if s.contents[requested[n]].kind == FLASH {
        return Some(FlashInPlaylist);
      }
    }
    for n := 0 to |entries|
      invariant forall i :: 0 <= i < n && entries[i].New? ==> s.contents[entries[i].contentId].status == READY
    {
      if entries[n].New? {
        assert ContentOf(entries[n], items) == entries[n].contentId;
        if s.contents[entries[n].contentId].status != READY {
          return Some(NotReady);
        }
      }
    }
    failure := CheckLengths(s, entries, items);
  }

  method TotalDuration(entries: seq<Entry>) returns (total: int)
    ensures total == EntryTotal(entries)
  {
    total := 0;
    for n := 0 to |entries|
      invariant total == EntryTotal(entries[..n])
    {
      assert entries[..n + 1][..n] == entries[..n];
      total := total + entries[n].duration.Floor;
    }
    assert entries[..|entries|] == entries;
  }

  lemma NothingReconciled(s: Store, now: Instant)
    ensures Reconciled(s, {}, now).playlists == s.playlists && Outdated(s, {}, now) == {}
  {
  }

  // Statuses do not count for what status a playlist should have.
  lemma SameNextStatus(s: Store, done: set<PlaylistId>, id: PlaylistId, now: Instant)
    ensures NextStatus(Reconciled(s, done, now), id, now) == NextStatus(s, id, now)
  {
    var r := Reconciled(s, done, now);
    forall k
      ensures Targets(r, k, OnPlaylist(id)) == Targets(s, k, OnPlaylist(id)) && IsUnfinished(r, k, now) == IsUnfinished(s, k, now)
    {
    }
  }

  // Reconciling one more playlist.
  lemma ReconcileOne(s: Store, done: set<PlaylistId>, id: PlaylistId, now: Instant)
    requires id !in done
    ensures var next := NextStatus(s, id, now);
            var changes := id in s.playlists && s.playlists[id].status != next;
            && NextStatus(Reconciled(s, done, now), id, now) == next
            && (id in s.playlists ==> Reconciled(s, done, now).playlists[id] == s.playlists[id])
            && Reconciled(s, done + {id}, now)
               == (if changes then WithStatus(Reconciled(s, done, now), id, next) else Reconciled(s, done, now))
            && |Outdated(s, done + {id}, now)| == |Outdated(s, done, now)| + if changes then 1 else 0
  {
    SameNextStatus(s, done, id, now);
    OneMoreOutdated(s, done, id, now);
    var next := NextStatus(s, id, now);
    var r := Reconciled(s, done, now);
    if id in s.playlists && s.playlists[id].status != next {
      assert Reconciled(s, done + {id}, now).playlists == WithStatus(r, id, next).playlists;
    } else {
      assert Reconciled(s, done + {id}, now).playlists == r.playlists;
    }
  }

  lemma OneMoreOutdated(s: Store, done: set<PlaylistId>, id: PlaylistId, now: Instant)
    requires id !in done
    ensures |Outdated(s, done + {id}, now)| == |Outdated(s, done, now)|
              + if id in s.playlists && s.playlists[id].status != NextStatus(s, id, now) then 1 else 0
  {
    if id in s.playlists && s.playlists[id].status != NextStatus(s, id, now) {
      assert Outdated(s, done + {id}, now) == Outdated(s, done, now) + {id};
    } else {
      assert Outdated(s, done + {id}, now) == Outdated(s, done, now);
    }
  }

  // The playlists of two targets.
  function Affected(before: Target, after: Target): (ids: seq<PlaylistId>)
    ensures (set x | x in ids) ==
            (if before.OnPlaylist? then {before.playlistId} else {}) + (if after.OnPlaylist? then {after.playlistId} else {})
    ensures ids == [] <==> before.OnContent? && after.OnContent?
  {
    (if before.OnPlaylist? then [before.playlistId] else []) + (if after.OnPlaylist? then [after.playlistId] else [])
  }

  lemma SomeScheduleLeft(s: Store, playlistId: PlaylistId)
    ensures |SchedulesOf(s, playlistId)| > 0 <==> exists k :: k in s.schedules && Targets(s, k, OnPlaylist(playlistId))
  {
    if k :| k in s.schedules && Targets(s, k, OnPlaylist(playlistId)) {
      assert k in SchedulesOf(s, playlistId);
    }
    if |SchedulesOf(s, playlistId)| > 0 {
      var k :| k in SchedulesOf(s, playlistId);
      assert Targets(s, k, OnPlaylist(playlistId));
    }
  }

  class Database {
    var contents: map<ContentId, Content>
    var playlists: map<PlaylistId, Playlist>
    var schedules: map<ScheduleId, Schedule>
    var displays: set<DisplayId>

    function Value(): Store
      reads this
    {
      Store(contents, playlists, schedules, displays)
    }

    constructor (s: Store)
      ensures Value() == s
    {
      contents, playlists, schedules, displays := s.contents, s.playlists, s.schedules, s.displays;
    }

    // ----- Playlists and their items -----

    method UpdateStatus(id: PlaylistId, status: PlaylistStatus)
      modifies this`playlists
      ensures Value() == WithStatus(old(Value()), id, status)
    {
      if id in playlists {
        playlists := playlists[id := playlists[id].(status := status)];
      }
    }

    method AddPlaylistItem(scope: Option<UserId>, playlistId: PlaylistId, contentId: ContentId,
                           sequence: real, duration: real, loop: bool, newId: ItemId) returns (failure: Option<Failure>)
      modifies this`playlists
      ensures var r := AddItem(old(Value()), scope, playlistId, contentId, sequence, duration, loop, newId);
              if r.Ok? then Value() == r.store && failure == None else Value() == old(Value()) && failure == Some(r.failure)
    {
      if !IsValidSequence(sequence) { return Some(InvalidSequence); }
      if !IsValidDuration(duration) { return Some(InvalidDuration); }
      if FindPlaylist(Value(), playlistId, scope).None? { return Some(PlaylistNotFound); }
      var found := FindContent(Value(), contentId, scope);
      if found.None? { return Some(ContentNotFound); }
      var content := found.value;
      if content.status != READY { return Some(NotReady); }
      if content.kind == FLASH { return Some(FlashInPlaylist); }
      if !WithinContent(content, duration.Floor) { return Some(LongerThanVideo); }
      if loop && content.kind != VIDEO { return Some(LoopNeedsVideo); }
      var items := playlists[playlistId].items;
      if Total(items) + duration.Floor > MAX_PLAYLIST_BASE_DURATION_SECONDS { return Some(TooLong); }
      for n := 0 to |items|
        invariant forall i :: 0 <= i < n ==> items[i].sequence != sequence.Floor
      {
        if items[n].sequence == sequence.Floor { return Some(SequenceTaken); }
      }
      var item := Item(newId, contentId, sequence.Floor, duration.Floor, content.kind == VIDEO);
      playlists := playlists[playlistId := playlists[playlistId].(items := items + [item])];
      failure := None;
    }

    // The duration of all items but one.
    static method DurationOfOthers(items: seq<Item>, id: ItemId) returns (total: int)
      ensures total == TotalOfOthers(items, id)
    {
      total := 0;
      for n := 0 to |items|
        invariant total == TotalOfOthers(items[..n], id)
      {
        assert items[..n + 1][..n] == items[..n];
        if items[n].id != id {
          total := total + items[n].duration;
        }
      }
      assert items[..|items|] == items;
    }

    method UpdatePlaylistItem(scope: Option<UserId>, playlistId: PlaylistId, id: ItemId,
                              sequence: Option<real>, duration: Option<real>, loop: bool) returns (failure: Option<Failure>)
      modifies this`playlists
      ensures var r := UpdateItem(old(Value()), scope, playlistId, id, sequence, duration, loop);
              if r.Ok? then Value() == r.store && failure == None else Value() == old(Value()) && failure == Some(r.failure)
    {
      if sequence.Some? && !IsValidSequence(sequence.value) { return Some(InvalidSequence); }
      if duration.Some? && !IsValidDuration(duration.value) { return Some(InvalidDuration); }
      if FindPlaylist(Value(), playlistId, scope).None? { return Some(PlaylistNotFound); }
      var items := playlists[playlistId].items;
      if !HasItem(items, id) { return Some(ItemNotFound); }
      var k := IndexOf(items, id);
      var item := items[k];
      var found := FindContent(Value(), item.contentId, scope);
      if found.None? { return Some(ContentNotFound); }
      var content := found.value;
      if loop && content.kind != VIDEO { return Some(LoopNeedsVideo); }
      if duration.Some? {
        if !WithinContent(content, duration.value.Floor) { return Some(LongerThanVideo); }
        var others := DurationOfOthers(items, id);
        if others + duration.value.Floor > MAX_PLAYLIST_BASE_DURATION_SECONDS { return Some(TooLong); }
        item := item.(duration := duration.value.Floor);
      }
      if sequence.Some? {
        if exists i :: 0 <= i < |items| && i != k && items[i].sequence == sequence.value.Floor { return Some(SequenceTaken); }
        item := item.(sequence := sequence.value.Floor);
      }
      item := item.(loop := content.kind == VIDEO);
      playlists := playlists[playlistId := playlists[playlistId].(items := items[k := item])];
      failure := None;
    }

    method DeletePlaylistItem(scope: Option<UserId>, playlistId: PlaylistId, id: ItemId) returns (failure: Option<Failure>)
      modifies this`playlists
      ensures var r := DeleteItem(old(Value()), scope, playlistId, id);
              if r.Ok? then Value() == r.store && failure == None else Value() == old(Value()) && failure == Some(r.failure)
    {
      if FindPlaylist(Value(), playlistId, scope).None? { return Some(PlaylistNotFound); }
      var items := playlists[playlistId].items;
      if !HasItem(items, id) { return Some(ItemNotFound); }
      if |items| <= 1 { return Some(EmptyPlaylist); }
      var k := IndexOf(items, id);
      playlists := playlists[playlistId := playlists[playlistId].(items := items[..k] + items[k + 1..])];
      failure := None;
    }

    method ReplacePlaylistItems(scope: Option<UserId>, playlistId: PlaylistId, entries: seq<Entry>)
      returns (failure: Option<Failure>)
      modifies this`playlists
      ensures var r := ReplaceItems(old(Value()), scope, playlistId, entries);
              if r.Ok? then Value() == r.store && failure == None else Value() == old(Value()) && failure == Some(r.failure)
    {
      if |entries| == 0 { return Some(EmptyPlaylist); }
      if FindPlaylist(Value(), playlistId, scope).None? { return Some(PlaylistNotFound); }
      for n := 0 to |entries|
        invariant forall i :: 0 <= i < n ==> IsValidDuration(entries[i].duration)
      {
        if !IsValidDuration(entries[n].duration) { return Some(InvalidDuration); }
      }
      var proposed := TotalDuration(entries);
      if proposed > MAX_PLAYLIST_BASE_DURATION_SECONDS { return Some(TooLong); }
      var items := playlists[playlistId].items;
      var requested;
      failure, requested := CheckReferences(entries, items);
      if failure.Some? { return; }
      failure := CheckContents(Value(), scope, entries, items, requested);
      if failure.Some? { return; }
      playlists := playlists[playlistId := playlists[playlistId].(items := Replacement(Value(), entries, items))];
    }

    method CreatePlaylistWithItems(users: set<UserId>, ownerId: UserId, scope: Option<UserId>, newId: PlaylistId,
                                   entries: seq<Entry>, deleteFails: bool) returns (failure: Option<Failure>)
      modifies this`playlists
      ensures (Value(), failure) == CreatePlaylist(old(Value()), users, ownerId, scope, newId, entries, deleteFails)
    {
      if |entries| == 0 { return Some(EmptyPlaylist); }
      if ownerId !in users { return Some(UserNotFound); }
      playlists := playlists[newId := Playlist(ownerId, DRAFT, [])];
      failure := ReplacePlaylistItems(scope, newId, entries);
      if failure.Some? && !deleteFails {
        playlists := playlists - {newId};
      }
    }

    // ----- What the deletions and checks look up -----

    // The unfinished schedules of a playlist, out of all it has.
    method CountUnfinished(playlistId: PlaylistId, now: Instant) returns (count: nat)
      ensures count > 0 <==> HasUnfinished(Value(), playlistId, now)
    {
      var todo := SchedulesOf(Value(), playlistId);
      count := 0;
      while todo != {}
        invariant todo <= SchedulesOf(Value(), playlistId)
        invariant count > 0 ==> HasUnfinished(Value(), playlistId, now)
        invariant count == 0 ==> forall k :: k in SchedulesOf(Value(), playlistId) && k !in todo ==> !IsUnfinished(Value(), k, now)
        decreases |todo|
      {
        var k :| k in todo;
        todo := todo - {k};
        if !IsScheduleFinished(schedules[k].window.endDate, schedules[k].window.endTime, now) {
          assert IsUnfinished(Value(), k, now);
          count := count + 1;
        }
      }
    }

    static method AnyOf<T(==)>(ids: set<T>, test: T -> bool) returns (found: bool)
      ensures found <==> exists k :: k in ids && test(k)
    {
      var todo := ids;
      found := false;
      while todo != {}
        invariant todo <= ids
        invariant found <==> exists k :: k in ids && k !in todo && test(k)
        decreases |todo|
      {
        var k :| k in todo;
        found := found || test(k);
        todo := todo - {k};
      }
    }

    // Whether a schedule of the window's display, other than the excluded one, conflicts with it.
    method FindConflict(candidate: Window, exclude: Option<ScheduleId>) returns (found: bool)
      ensures found <==> HasConflict(Value(), candidate, exclude)
    {
      var existing := schedules;
      var rows := set k | k in existing && existing[k].window.displayId == candidate.displayId;
      var clashes := k => k in existing && Some(k) != exclude && WindowsConflict(candidate, existing[k].window);
      found := AnyOf(rows, clashes);
      if HasConflict(Value(), candidate, exclude) {
        ghost var k :| k in schedules && Some(k) != exclude && schedules[k].window.displayId == candidate.displayId
                       && WindowsConflict(candidate, schedules[k].window);
        assert k in rows && clashes(k);
      }
    }

    static method CountInItems(items: seq<Item>, id: ContentId) returns (count: nat)
      ensures count > 0 <==> exists i :: 0 <= i < |items| && items[i].contentId == id
    {
      count := 0;
      for n := 0 to |items|
        invariant count > 0 <==> exists i :: 0 <= i < n && items[i].contentId == id
      {
        if items[n].contentId == id {
          count := count + 1;
        }
      }
    }

    method CountPlaylistReferences(id: ContentId) returns (count: nat)
      ensures count > 0 <==> InSomePlaylist(Value(), id)
    {
      var todo := playlists.Keys;
      count := 0;
      while todo != {}
        invariant todo <= playlists.Keys
        invariant count > 0 ==> InSomePlaylist(Value(), id)
        invariant count == 0 ==> forall p :: p in playlists && p !in todo ==> !UsesContent(playlists[p], id)
        decreases |todo|
      {
        var p :| p in todo;
        todo := todo - {p};
        var more := CountInItems(playlists[p].items, id);
        assert more > 0 <==> UsesContent(playlists[p], id);
        count := count + more;
      }
    }

    method CountByContentId(id: ContentId) returns (count: nat)
      ensures count > 0 <==> IsScheduled(Value(), id)
    {
      var todo := schedules.Keys;
      count := 0;
      while todo != {}
        invariant todo <= schedules.Keys
        invariant count > 0 ==> IsScheduled(Value(), id)
        invariant count == 0 ==> forall k :: k in schedules && k !in todo ==> schedules[k].window.target != OnContent(id)
        decreases |todo|
      {
        var k :| k in todo;
        todo := todo - {k};
        if schedules[k].window.target == OnContent(id) {
          assert Targets(Value(), k, OnContent(id));
          count := count + 1;
        }
      }
    }

    // The display, and the playlist or the flash content the window is for.
    method CheckTarget(d: Draft, scope: Option<UserId>) returns (failure: Option<Failure>)
      requires IsValidTime(d.startTime) && IsValidTime(d.endTime)
      ensures failure == TargetFailure(Value(), d, scope)
    {
      if d.displayId !in displays { return Some(DisplayNotFound); }
      if d.kind == ForPlaylist {
        if d.playlistId.None? || d.contentId.Some? { return Some(PlaylistIdOnly); }
        var found := FindPlaylist(Value(), d.playlistId.value, scope);
        if found.None? { return Some(PlaylistNotFound); }
        var required := ComputePlaylistEffectiveDuration(found.value.items, contents);
        if ComputeWindowDurationSeconds(d.startTime, d.endTime) < required { return Some(WindowTooShort); }
      } else {
        if d.contentId.None? || d.playlistId.Some? { return Some(ContentIdOnly); }
        var found := FindContent(Value(), d.contentId.value, scope);
        if found.None? { return Some(ContentNotFound); }
        if found.value.kind != FLASH { return Some(NotFlash); }
        if found.value.status != READY { return Some(NotReady); }
      }
      failure := None;
    }

    method CheckAdmission(now: Instant, d: Draft, scope: Option<UserId>, exclude: Option<ScheduleId>)
      returns (failure: Option<Failure>)
      ensures failure == AdmissionFailure(Value(), now, d, scope, exclude)
    {
      failure := WindowFailure(d, now);
      if failure.Some? { return; }
      failure := CheckTarget(d, scope);
      if failure.Some? { return; }
      var conflict := FindConflict(WindowOf(d), exclude);
      failure := if conflict then Some(ScheduleConflict) else None;
    }

    // ----- Status upkeep -----

    method ReconcilePlaylistStatus(id: PlaylistId, now: Instant) returns (changed: bool)
      modifies this`playlists
      ensures changed <==> id in old(playlists) && old(playlists)[id].status != NextStatus(old(Value()), id, now)
      ensures Value() == if changed then WithStatus(old(Value()), id, NextStatus(old(Value()), id, now)) else old(Value())
    {
      if id !in playlists { return false; }
      var unfinished := CountUnfinished(id, now);
      var next := if unfinished > 0 then IN_USE else DRAFT;
      changed := playlists[id].status != next;
      if changed {
        UpdateStatus(id, next);
      }
    }

    method ReconcileEach(ids: set<PlaylistId>, now: Instant) returns (updated: nat)
      modifies this`playlists
      ensures playlists == Reconciled(old(Value()), ids, now).playlists && updated == |Outdated(old(Value()), ids, now)|
    {
      ghost var before, done := Value(), {};
      var todo := ids;
      updated := 0;
      NothingReconciled(before, now);
      while todo != {}
        invariant todo !! done && todo + done == ids
        invariant playlists == Reconciled(before, done, now).playlists
        invariant updated == |Outdated(before, done, now)|
        decreases |todo|
      {
        var id :| id in todo;
        ReconcileOne(before, done, id, now);
        assert Value() == Reconciled(before, done, now);
        todo, done := todo - {id}, done + {id};
        var changed := ReconcilePlaylistStatus(id, now);
        if changed {
          updated := updated + 1;
        }
      }
      assert done == ids;
    }

    // The ids of an optional list, or all playlists.
    method ReconcilePlaylistStatuses(playlistIds: Option<seq<PlaylistId>>, now: Instant) returns (updated: nat)
      modifies this`playlists
      ensures var ids := if playlistIds.Some? then set id | id in playlistIds.value else old(playlists).Keys;
              Value() == Reconciled(old(Value()), ids, now) && updated == |Outdated(old(Value()), ids, now)|
      ensures playlists.Keys == old(playlists).Keys
      ensures updated == |set p | p in old(playlists) && playlists[p].status != old(playlists)[p].status|
    {
      ghost var before := Value();
      var ids := if playlistIds.Some? then set id | id in playlistIds.value else playlists.Keys;
      updated := ReconcileEach(ids, now);
      assert Outdated(before, ids, now) == set p | p in old(playlists) && playlists[p].status != old(playlists)[p].status;
    }

    method ReleasePlaylist(reconciles: bool, id: PlaylistId, now: Instant)
      modifies this`playlists
      ensures Value() == Released(old(Value()), reconciles, id, now)
    {
      if reconciles {
        var _ := ReconcilePlaylistStatuses(Some([id]), now);
        assert (set x | x in [id]) == {id};
      } else {
        var remaining := SchedulesOf(Value(), id);
        SomeScheduleLeft(Value(), id);
        if |remaining| == 0 {
          UpdateStatus(id, DRAFT);
        }
      }
    }

    method OccupyPlaylist(reconciles: bool, id: PlaylistId, now: Instant)
      modifies this`playlists
      ensures Value() == Occupied(old(Value()), reconciles, id, now)
    {
      if reconciles {
        var _ := ReconcilePlaylistStatuses(Some([id]), now);
        assert (set x | x in [id]) == {id};
      } else {
        UpdateStatus(id, IN_USE);
      }
    }

    // ----- Schedules -----

    method CreateSchedule(now: Instant, reconciles: bool, ownerId: Option<UserId>, actorIsAdmin: bool, d: Draft, newId: ScheduleId)
      returns (failure: Option<Failure>)
      modifies this
      ensures var r := Schedules.CreateSchedule(old(Value()), now, reconciles, ownerId, actorIsAdmin, d, newId);
              if r.Ok? then Value() == r.store && failure == None else Value() == old(Value()) && failure == Some(r.failure)
    {
      var scope := if actorIsAdmin then None else ownerId;
      failure := CheckAdmission(now, d, scope, None);
      if failure.Some? { return; }
      if ownerId.None? { return Some(OwnerRequired); }
      schedules := schedules[newId := Schedule(WindowOf(d), ownerId.value)];
      if d.kind == ForPlaylist {
        OccupyPlaylist(reconciles, d.playlistId.value, now);
      }
      failure := None;
    }

    method Retarget(now: Instant, reconciles: bool, before: Target, after: Target)
      modifies this`playlists
      ensures Value() == Retargeted(old(Value()), now, reconciles, before, after)
    {
      if reconciles {
        RetargetAll(now, before, after);
      } else {
        if before.OnPlaylist? && before != after {
          ReleasePlaylist(false, before.playlistId, now);
        }
        if after.OnPlaylist? {
          UpdateStatus(after.playlistId, IN_USE);
        }
      }
    }

    // With reconciliation: both playlists, if any.
    method RetargetAll(now: Instant, before: Target, after: Target)
      modifies this`playlists
      ensures Value() == Retargeted(old(Value()), now, true, before, after)
    {
      var affected := Affected(before, after);
      if affected != [] {
        var _ := ReconcilePlaylistStatuses(Some(affected), now);
      } else {
        NothingReconciled(Value(), now);
      }
    }

    method UpdateSchedule(now: Instant, reconciles: bool, scope: Option<UserId>, id: ScheduleId, c: Change)
      returns (failure: Option<Failure>)
      modifies this
      ensures var r := Schedules.UpdateSchedule(old(Value()), now, reconciles, scope, id, c);
              if r.Ok? then Value() == r.store && failure == None else Value() == old(Value()) && failure == Some(r.failure)
    {
      if id !in schedules || !Visible(schedules[id], scope) { return Some(ScheduleNotFound); }
      var existing := schedules[id];
      var d := Changed(existing.window, c);
      failure := CheckAdmission(now, d, scope, Some(id));
      if failure.Some? { return; }
      var before, after := existing.window.target, WindowOf(d).target;
      schedules := schedules[id := existing.(window := WindowOf(d))];
      Retarget(now, reconciles, before, after);
    }

    method DeleteSchedule(now: Instant, reconciles: bool, scope: Option<UserId>, id: ScheduleId)
      returns (failure: Option<Failure>)
      modifies this
      ensures var r := Schedules.DeleteSchedule(old(Value()), now, reconciles, scope, id);
              if r.Ok? then Value() == r.store && failure == None else Value() == old(Value()) && failure == Some(r.failure)
    {
      if id !in schedules || !Visible(schedules[id], scope) { return Some(ScheduleNotFound); }
      var target := schedules[id].window.target;
      schedules := schedules - {id};
      if target.OnPlaylist? {
        ReleasePlaylist(reconciles, target.playlistId, now);
      }
      failure := None;
    }

    // ----- Deletions with guards -----

    method DeleteSchedules(doomed: set<ScheduleId>)
      modifies this`schedules
      ensures schedules == old(schedules) - doomed
    {
      var todo := doomed;
      ghost var done: set<ScheduleId> := {};
      while todo != {}
        invariant todo + done == doomed
        invariant schedules == old(schedules) - done
        decreases |todo|
      {
        var k :| k in todo;
        todo, done := todo - {k}, done + {k};
        schedules := schedules - {k};
      }
      assert done == doomed;
    }

    method DeletePlaylist(now: Instant, scope: Option<UserId>, id: PlaylistId) returns (failure: Option<Failure>)
      modifies this`schedules, this`playlists
      ensures var r := Schedules.DeletePlaylist(old(Value()), now, scope, id);
              if r.Ok? then Value() == r.store && failure == None else Value() == old(Value()) && failure == Some(r.failure)
    {
      if FindPlaylist(Value(), id, scope).None? { return Some(PlaylistNotFound); }
      var unfinished := CountUnfinished(id, now);
      if unfinished > 0 { return Some(PlaylistInUse); }
      DeleteSchedules(SchedulesOf(Value(), id));
      playlists := playlists - {id};
      failure := None;
    }

    method DeleteContent(scope: Option<UserId>, id: ContentId) returns (failure: Option<Failure>)
      modifies this`contents
      ensures var r := Schedules.DeleteContent(old(Value()), scope, id);
              if r.Ok? then Value() == r.store && failure == None else Value() == old(Value()) && failure == Some(r.failure)
    {
      if FindContent(Value(), id, scope).None? { return Some(ContentNotFound); }
      var references := CountPlaylistReferences(id);
      if references > 0 { return Some(ContentInUse); }
      if contents[id].kind == FLASH {
        var scheduled := CountByContentId(id);
        if scheduled > 0 { return Some(ContentInUse); }
      }
      contents := contents - {id};
      failure := None;
    }
  }
}
