/** Runs of the content, playlist and schedule use cases and of time passing, in any order. */
module LibraryRuns {
  import opened Options
  import opened ScheduleWindows
  import opened Library
  import opened PlaylistItems
  import opened Schedules

  // An `ensures P(..) == true` promises P(..) as a whole: unlike a bare P(..), it is not taken apart where it is proved.

  datatype State = State(store: Store, now: Instant)

  // `reconciles` is the wiring the use case runs in; a run may mix both.
  datatype Step =
    | Tick(now: Instant)
    | AddContent(contentId: ContentId, content: Content)
    | FinishProcessing(contentId: ContentId, ready: bool)
    | ChangeFile(scope: Option<UserId>, contentId: ContentId, file: Option<Media>, length: Option<int>)
    | RemoveContent(scope: Option<UserId>, contentId: ContentId)
    | AddDisplay(displayId: DisplayId)
    | RemoveDisplay(displayId: DisplayId)
    | MakePlaylist(users: set<UserId>, ownerId: UserId, scope: Option<UserId>, playlistId: PlaylistId,
                   entries: seq<Entry>, deleteFails: bool)
    | Add(scope: Option<UserId>, playlistId: PlaylistId, contentId: ContentId, position: real, seconds: real,
          loop: bool, itemId: ItemId)
    | Update(scope: Option<UserId>, playlistId: PlaylistId, itemId: ItemId, newPosition: Option<real>,
             newSeconds: Option<real>, loop: bool)
    | Replace(scope: Option<UserId>, playlistId: PlaylistId, entries: seq<Entry>)
    | Drop(scope: Option<UserId>, playlistId: PlaylistId, itemId: ItemId)
    | RemovePlaylist(scope: Option<UserId>, playlistId: PlaylistId)
    | Plan(reconciles: bool, owner: Option<UserId>, actorIsAdmin: bool, draft: Draft, scheduleId: ScheduleId)
    | Replan(reconciles: bool, scope: Option<UserId>, scheduleId: ScheduleId, change: Change)
    | Unplan(reconciles: bool, scope: Option<UserId>, scheduleId: ScheduleId)
    | Reconcile(playlistIds: set<PlaylistId>)

  // Ids of new rows are new, the clock does not go back, and new content is a file still to be read or has none to read.
  predicate Enabled(s: State, step: Step) {
    match step
    case Tick(now) => NotBefore(now, s.now)
    case AddContent(id, c) =>
      id !in s.store.contents && c.duration == None
      && if c.status == PROCESSING then c.kind == IMAGE || c.kind == VIDEO else c.status == READY && c.length == None
    case FinishProcessing(id, _) =>
      id in s.store.contents && (s.store.contents[id].kind == IMAGE || s.store.contents[id].kind == VIDEO)
    case MakePlaylist(_, _, _, id, entries, _) => id !in s.store.playlists && NewIds(entries, [])
    case Add(_, id, _, _, _, _, itemId) => id in s.store.playlists ==> !HasItem(s.store.playlists[id].items, itemId)
    case Replace(_, id, entries) => id in s.store.playlists ==> NewIds(entries, s.store.playlists[id].items)
    case Plan(_, _, _, _, id) => id !in s.store.schedules
    case _ => true
  }

  function Effect(s: Store, now: Instant, step: Step): Store {
    match step
    case Tick(_) => s
    case AddContent(id, c) => s.(contents := s.contents[id := c])
    case FinishProcessing(id, ready) =>
      if id in s.contents then s.(contents := s.contents[id := Processed(s.contents[id], ready)]) else s
    case ChangeFile(scope, id, file, length) => After(s, ReplaceFile(s, scope, id, file, length))
    case RemoveContent(scope, id) => After(s, DeleteContent(s, scope, id))
    case AddDisplay(id) => s.(displays := s.displays + {id})
    case RemoveDisplay(id) => DeleteDisplay(s, id)
    case MakePlaylist(users, owner, scope, id, entries, deleteFails) =>
      CreatePlaylist(s, users, owner, scope, id, entries, deleteFails).0
    case Add(scope, id, content, sequence, duration, loop, item) =>
      After(s, AddItem(s, scope, id, content, sequence, duration, loop, item))
    case Update(scope, id, item, sequence, duration, loop) =>
      After(s, UpdateItem(s, scope, id, item, sequence, duration, loop))
    case Replace(scope, id, entries) => After(s, ReplaceItems(s, scope, id, entries))
    case Drop(scope, id, item) => After(s, DeleteItem(s, scope, id, item))
    case RemovePlaylist(scope, id) => After(s, DeletePlaylist(s, now, scope, id))
    case Plan(reconciles, owner, admin, d, id) => After(s, CreateSchedule(s, now, reconciles, owner, admin, d, id))
    case Replan(reconciles, scope, id, c) => After(s, UpdateSchedule(s, now, reconciles, scope, id, c))
    case Unplan(reconciles, scope, id) => After(s, DeleteSchedule(s, now, reconciles, scope, id))
    case Reconcile(ids) => Reconciled(s, ids, now)
  }

  function Apply(s: State, step: Step): State {
    State(Effect(s.store, s.now, step), if step.Tick? then step.now else s.now)
  }

  // The store after a use case: its result, or unchanged if it fails.
  predicate Takes(s: Store, r: Result, t: Store) {
    match r
    case Ok(u) => t == u
    case Err(_) => t == s
  }

  /** A step is the use case it is named for: what that accepts it does, and what that refuses changes nothing. */
  lemma StepsAreUseCases(s: State, step: Step)
    requires Enabled(s, step)
    ensures var a, t := s.store, Apply(s, step).store;
            match step
            case RemoveContent(scope, c) => Takes(a, DeleteContent(a, scope, c), t)
            case ChangeFile(scope, c, file, length) => Takes(a, ReplaceFile(a, scope, c, file, length), t)
            case Add(scope, p, c, position, seconds, loop, item) => Takes(a, AddItem(a, scope, p, c, position, seconds, loop, item), t)
            case Update(scope, p, item, position, seconds, loop) => Takes(a, UpdateItem(a, scope, p, item, position, seconds, loop), t)
            case Replace(scope, p, entries) => Takes(a, ReplaceItems(a, scope, p, entries), t)
            case Drop(scope, p, item) => Takes(a, DeleteItem(a, scope, p, item), t)
            case RemovePlaylist(scope, p) => Takes(a, DeletePlaylist(a, s.now, scope, p), t)
            case Plan(reconciles, owner, admin, d, k) => Takes(a, CreateSchedule(a, s.now, reconciles, owner, admin, d, k), t)
            case Replan(reconciles, scope, k, c) => Takes(a, UpdateSchedule(a, s.now, reconciles, scope, k, c), t)
            case Unplan(reconciles, scope, k) => Takes(a, DeleteSchedule(a, s.now, reconciles, scope, k), t)
            case Tick(now) => t == a && Apply(s, step).now == now
            case _ => true
  {
  }

  // ----- What every reachable state keeps -----

  ghost predicate PlaylistsSound(s: Store) {
    forall p :: p in s.playlists ==> PlaylistSound(s.playlists[p], s.contents)
  }

  // Every playlist is in order or has no items at all.
  ghost predicate PlaylistsShort(s: Store) {
    forall p :: p in s.playlists && s.playlists[p].items != [] ==> PlaylistSound(s.playlists[p], s.contents)
  }

  // No video is shown longer than its file lasts, and ready content has been read.
  ghost predicate VideosFit(s: Store) {
    ReadyIsSettled(s.contents) && forall p :: p in s.playlists ==> ItemsFit(s.playlists[p].items, s.contents)
  }

  predicate Resolves(s: Store, w: Window) {
    && w.displayId in s.displays
    && match w.target
       case OnPlaylist(p) => p in s.playlists
       case OnContent(c) => c in s.contents && s.contents[c].kind == FLASH
  }

  predicate ScheduleOk(s: Store, w: Window) {
    IsAdmitted(w.startDate, w.endDate, w.startTime, w.endTime) && Resolves(s, w)
  }

  ghost predicate SchedulesOk(s: Store) {
    forall k :: k in s.schedules ==> ScheduleOk(s, s.schedules[k].window)
  }

  // A playlist with an unfinished schedule is marked as in use.
  ghost predicate StatusOk(s: Store, now: Instant) {
    forall k :: k in s.schedules && s.schedules[k].window.target.OnPlaylist? && IsUnfinished(s, k, now) ==>
      var p := s.schedules[k].window.target.playlistId;
      p in s.playlists && s.playlists[p].status == IN_USE
  }

  ghost predicate FlashApart(s: Store) {
    forall a, b :: a in s.schedules && b in s.schedules && a != b ==>
      !WindowsConflict(s.schedules[a].window, s.schedules[b].window)
  }

  /**
   * The one use case that can leave a playlist without items: creating it fails after the row was written, and so
   * does the deletion that should undo that.
   */
  predicate LeavesHusk(s: Store, step: Step) {
    step.MakePlaylist? && step.deleteFails && step.entries != [] && step.ownerId in step.users &&
    ReplaceItems(s.(playlists := s.playlists[step.playlistId := Playlist(step.ownerId, DRAFT, [])]),
                 step.scope, step.playlistId, step.entries).Err?
  }

  // ----- Playlists -----

  predicate SameItems(s: Store, t: Store) {
    t.contents == s.contents && forall p :: p in t.playlists ==>
      p in s.playlists && t.playlists[p].items == s.playlists[p].items && t.playlists[p].ownerId == s.playlists[p].ownerId
  }

  // Nothing but the status of playlists differs.
  predicate OnlyStatus(s: Store, t: Store) {
    && t.schedules == s.schedules && t.displays == s.displays && t.playlists.Keys == s.playlists.Keys
    && SameItems(s, t)
  }

  lemma ReconciledIsOnlyStatus(s: Store, ids: set<PlaylistId>, now: Instant)
    ensures OnlyStatus(s, Reconciled(s, ids, now))
  {
  }

  lemma UpkeepIsOnlyStatus(s: Store, reconciles: bool, p: PlaylistId, now: Instant)
    ensures OnlyStatus(s, Released(s, reconciles, p, now)) && OnlyStatus(s, Occupied(s, reconciles, p, now))
  {
    ReconciledIsOnlyStatus(s, {p}, now);
  }

  lemma RetargetIsOnlyStatus(s: Store, now: Instant, reconciles: bool, before: Target, after: Target)
    ensures OnlyStatus(s, Retargeted(s, now, reconciles, before, after))
  {
    if !reconciles && before.OnPlaylist? {
      UpkeepIsOnlyStatus(s, false, before.playlistId, now);
    }
  }

  lemma CreateKeepsItems(s: Store, now: Instant, reconciles: bool, owner: Option<UserId>, admin: bool, d: Draft, id: ScheduleId)
    ensures SameItems(s, After(s, CreateSchedule(s, now, reconciles, owner, admin, d, id)))
  {
    if CreateSchedule(s, now, reconciles, owner, admin, d, id).Ok? && d.kind == ForPlaylist {
      UpkeepIsOnlyStatus(Put(s, id, Schedule(WindowOf(d), owner.value)), reconciles, d.playlistId.value, now);
    }
  }

  lemma UpdateKeepsItems(s: Store, now: Instant, reconciles: bool, scope: Option<UserId>, id: ScheduleId, c: Change)
    ensures SameItems(s, After(s, UpdateSchedule(s, now, reconciles, scope, id, c)))
    ensures After(s, UpdateSchedule(s, now, reconciles, scope, id, c)).playlists.Keys == s.playlists.Keys
  {
    if UpdateSchedule(s, now, reconciles, scope, id, c).Ok? {
      var existing := s.schedules[id];
      var w := WindowOf(Changed(existing.window, c));
      RetargetIsOnlyStatus(Put(s, id, Schedule(w, existing.createdBy)), now, reconciles, existing.window.target, w.target);
    }
  }

  lemma DeleteKeepsItems(s: Store, now: Instant, reconciles: bool, scope: Option<UserId>, id: ScheduleId)
    ensures SameItems(s, After(s, DeleteSchedule(s, now, reconciles, scope, id)))
    ensures After(s, DeleteSchedule(s, now, reconciles, scope, id)).playlists.Keys == s.playlists.Keys
  {
    if id in s.schedules && s.schedules[id].window.target.OnPlaylist? {
      UpkeepIsOnlyStatus(Without(s, id), reconciles, s.schedules[id].window.target.playlistId, now);
    }
  }

  lemma RemovalKeepsItems(s: Store, now: Instant, scope: Option<UserId>, p: PlaylistId)
    ensures SameItems(s, After(s, DeletePlaylist(s, now, scope, p)))
  {
  }

  lemma ReconcileKeepsItems(s: Store, ids: set<PlaylistId>, now: Instant)
    ensures SameItems(s, Reconciled(s, ids, now))
  {
  }

  lemma DisplaysKeepItems(s: Store, d: DisplayId)
    ensures SameItems(s, DeleteDisplay(s, d)) && SameItems(s, s.(displays := s.displays + {d}))
  {
  }

  predicate ChangesNoItems(step: Step) {
    step.Tick? || step.RemovePlaylist? || step.Plan? || step.Replan? || step.Unplan? || step.Reconcile? || step.RemoveDisplay?
    || step.AddDisplay?
  }

  lemma SchedulingChangesNoItems(s: Store, now: Instant, step: Step)
    requires step.Plan? || step.Replan? || step.Unplan?
    ensures SameItems(s, Effect(s, now, step)) == true
  {
    match step
    case Plan(reconciles, owner, admin, d, id) => CreateKeepsItems(s, now, reconciles, owner, admin, d, id);
    case Replan(reconciles, scope, id, c) => UpdateKeepsItems(s, now, reconciles, scope, id, c);
    case Unplan(reconciles, scope, id) => DeleteKeepsItems(s, now, reconciles, scope, id);
  }

  lemma StatusChangesNoItems(s: Store, now: Instant, step: Step)
    requires ChangesNoItems(step)
    ensures SameItems(s, Effect(s, now, step)) == true
  {
    if step.Plan? || step.Replan? || step.Unplan? {
      SchedulingChangesNoItems(s, now, step);
    } else if step.RemovePlaylist? {
      RemovalKeepsItems(s, now, step.scope, step.playlistId);
    } else if step.Reconcile? {
      ReconcileKeepsItems(s, step.playlistIds, now);
    } else if !step.Tick? {
      DisplaysKeepItems(s, step.displayId);
    }
  }

  predicate ChangesContent(step: Step) {
    step.AddContent? || step.FinishProcessing? || step.ChangeFile? || step.RemoveContent?
  }

  // Content in a playlist stays and keeps its kind.
  lemma UsedContentStays(s: State, step: Step, p: PlaylistId, c: ContentId)
    requires ChangesContent(step) && Enabled(s, step)
    requires p in s.store.playlists && UsesContent(s.store.playlists[p], c) && c in s.store.contents
    ensures var t := Effect(s.store, s.now, step);
            && t.playlists == s.store.playlists && c in t.contents && t.contents[c].kind == s.store.contents[c].kind
            && t.contents[c].length == s.store.contents[c].length
            && (t.contents[c].duration == s.store.contents[c].duration || t.contents[c].duration == t.contents[c].length)
  {
  }

  lemma ContentKeepsSound(s: State, step: Step, p: PlaylistId)
    requires ChangesContent(step) && Enabled(s, step) && p in s.store.playlists
    requires PlaylistSound(s.store.playlists[p], s.store.contents)
    ensures PlaylistSound(s.store.playlists[p], Effect(s.store, s.now, step).contents)
  {
    var items := s.store.playlists[p].items;
    forall i | 0 <= i < |items|
      ensures ItemSound(items[i], Effect(s.store, s.now, step).contents)
    {
      assert ItemSound(items[i], s.store.contents);
      assert UsesContent(s.store.playlists[p], items[i].contentId);
      UsedContentStays(s, step, p, items[i].contentId);
    }
  }

  predicate ChangesItems(step: Step) {
    step.Add? || step.Update? || step.Replace? || step.Drop?
  }

  // The only playlist an item step can change, and that it is in order if it changed.
  lemma ItemStepMakesSound(s: State, step: Step)
    requires PlaylistsShort(s.store) && Enabled(s, step) && ChangesItems(step)
    ensures var t := Effect(s.store, s.now, step);
            t == s.store
            || (step.playlistId in s.store.playlists && step.playlistId in t.playlists
                && t == WithItems(s.store, step.playlistId, t.playlists[step.playlistId].items)
                && PlaylistSound(t.playlists[step.playlistId], s.store.contents))
  {
    match step
    case Add(scope, id, content, sequence, duration, loop, item) =>
      AddKeepsPlaylist(s.store, scope, id, content, sequence, duration, loop, item);
    case Update(scope, id, item, sequence, duration, loop) =>
      UpdateKeepsPlaylist(s.store, scope, id, item, sequence, duration, loop);
    case Replace(scope, id, entries) => ReplaceMakesPlaylist(s.store, scope, id, entries);
    case Drop(scope, id, item) => DeleteKeepsPlaylist(s.store, scope, id, item);
  }

  // What a creation leaves under the new id: nothing, a playlist in order, or one without items.
  lemma CreationLeaves(s: State, step: Step)
    requires Enabled(s, step) && step.MakePlaylist?
    ensures var t := Effect(s.store, s.now, step);
            && t.contents == s.store.contents && t.playlists - {step.playlistId} == s.store.playlists
            && (step.playlistId in t.playlists ==>
                  if LeavesHusk(s.store, step) then t.playlists[step.playlistId].items == []
                  else PlaylistSound(t.playlists[step.playlistId], t.contents))
            && (LeavesHusk(s.store, step) ==> step.playlistId in t.playlists)
  {
    var t := s.store.(playlists := s.store.playlists[step.playlistId := Playlist(step.ownerId, DRAFT, [])]);
    ReplaceMakesPlaylist(t, step.scope, step.playlistId, step.entries);
    assert t.playlists - {step.playlistId} == s.store.playlists;
  }

  // One playlist through one step: it stays in order or empty, and is newly empty only as a husk.
  lemma PlaylistThroughStep(s: State, step: Step, p: PlaylistId)
    requires PlaylistsShort(s.store) && Enabled(s, step) && p in Effect(s.store, s.now, step).playlists
    ensures var t := Effect(s.store, s.now, step);
            if t.playlists[p].items != [] then PlaylistSound(t.playlists[p], t.contents)
            else (p in s.store.playlists && s.store.playlists[p].items == []) || (LeavesHusk(s.store, step) && p == step.playlistId)
  {
    var t := Effect(s.store, s.now, step);
    if step.MakePlaylist? {
      CreationLeaves(s, step);
      assert p != step.playlistId ==> p in t.playlists - {step.playlistId};
    } else if ChangesItems(step) {
      ItemStepMakesSound(s, step);
    } else if ChangesContent(step) {
      assert t.playlists == s.store.playlists;
      if s.store.playlists[p].items != [] {
        ContentKeepsSound(s, step, p);
      }
    } else {
      StatusChangesNoItems(s.store, s.now, step);
    }
  }

  /** Every step, without exception, leaves every playlist in order or without any items. */
  lemma StepKeepsPlaylistsShort(s: State, step: Step)
    requires PlaylistsShort(s.store) && Enabled(s, step)
    ensures PlaylistsShort(Apply(s, step).store) == true
  {
    forall p | p in Apply(s, step).store.playlists && Apply(s, step).store.playlists[p].items != []
      ensures PlaylistSound(Apply(s, step).store.playlists[p], Apply(s, step).store.contents)
    {
      PlaylistThroughStep(s, step, p);
    }
  }

  /** Every step keeps all playlists in order, except a creation whose undoing fails, which never does. */
  lemma PlaylistsKeptExactly(s: State, step: Step)
    requires PlaylistsSound(s.store) && Enabled(s, step)
    ensures PlaylistsSound(Apply(s, step).store) <==> !LeavesHusk(s.store, step)
  {
    if LeavesHusk(s.store, step) {
      CreationLeaves(s, step);
      assert !PlaylistSound(Apply(s, step).store.playlists[step.playlistId], Apply(s, step).store.contents);
    } else {
      forall p | p in Apply(s, step).store.playlists
        ensures PlaylistSound(Apply(s, step).store.playlists[p], Apply(s, step).store.contents)
      {
        PlaylistThroughStep(s, step, p);
      }
    }
  }

  // ----- Videos and their length -----

  lemma ItemsKeepFit(s: Store, p: PlaylistId, r: Result)
    requires VideosFit(s)
    requires r.Ok? ==> p in s.playlists && p in r.store.playlists
                       && r.store == WithItems(s, p, r.store.playlists[p].items) && ItemsFit(r.store.playlists[p].items, s.contents)
    ensures VideosFit(After(s, r))
  {
  }

  lemma ItemStepKeepsFit(s: State, step: Step)
    requires VideosFit(s.store) && Enabled(s, step) && ChangesItems(step)
    ensures VideosFit(Effect(s.store, s.now, step)) == true
  {
    match step
    case Add(scope, id, content, sequence, duration, loop, item) =>
      AddKeepsFit(s.store, scope, id, content, sequence, duration, loop, item);
      ItemsKeepFit(s.store, id, AddItem(s.store, scope, id, content, sequence, duration, loop, item));
    case Update(scope, id, item, sequence, duration, loop) =>
      UpdateKeepsFit(s.store, scope, id, item, sequence, duration, loop);
      ItemsKeepFit(s.store, id, UpdateItem(s.store, scope, id, item, sequence, duration, loop));
    case Replace(scope, id, entries) =>
      ReplaceKeepsFit(s.store, scope, id, entries);
      ItemsKeepFit(s.store, id, ReplaceItems(s.store, scope, id, entries));
    case Drop(scope, id, item) => ItemsKeepFit(s.store, id, DeleteItem(s.store, scope, id, item));
  }

  lemma CreationKeepsFit(s: State, step: Step)
    requires VideosFit(s.store) && Enabled(s, step) && step.MakePlaylist?
    ensures VideosFit(Effect(s.store, s.now, step))
  {
    var t := s.store.(playlists := s.store.playlists[step.playlistId := Playlist(step.ownerId, DRAFT, [])]);
    ReplaceKeepsFit(t, step.scope, step.playlistId, step.entries);
  }

  lemma ContentKeepsFit(s: State, step: Step, p: PlaylistId)
    requires VideosFit(s.store) && Enabled(s, step) && ChangesContent(step) && p in s.store.playlists
    ensures ItemsFit(s.store.playlists[p].items, Effect(s.store, s.now, step).contents)
  {
    var items := s.store.playlists[p].items;
    forall i | 0 <= i < |items|
      ensures ItemFits(items[i], Effect(s.store, s.now, step).contents)
    {
      assert ItemFits(items[i], s.store.contents);
      assert UsesContent(s.store.playlists[p], items[i].contentId);
      UsedContentStays(s, step, p, items[i].contentId);
    }
  }

  lemma ContentStepSettles(s: State, step: Step)
    requires ReadyIsSettled(s.store.contents) && Enabled(s, step) && ChangesContent(step)
    ensures ReadyIsSettled(Effect(s.store, s.now, step).contents)
  {
  }

  /** Every step keeps videos within the length of their files. */
  lemma StepKeepsVideosFit(s: State, step: Step)
    requires VideosFit(s.store) && Enabled(s, step)
    ensures VideosFit(Apply(s, step).store) == true
  {
    var t := Effect(s.store, s.now, step);
    if ChangesContent(step) {
      ContentStepSettles(s, step);
      forall p | p in s.store.playlists
        ensures ItemsFit(s.store.playlists[p].items, t.contents)
      {
        ContentKeepsFit(s, step, p);
      }
      assert t.playlists == s.store.playlists;
    } else if ChangesItems(step) {
      ItemStepKeepsFit(s, step);
    } else if step.MakePlaylist? {
      CreationKeepsFit(s, step);
    } else {
      StatusChangesNoItems(s.store, s.now, step);
    }
  }

  // ----- Steps that write no schedule -----

  // Every schedule left was there before, still resolves, and its playlist has the status it had.
  predicate SchedulesFrom(s: Store, t: Store) {
    forall k :: k in t.schedules ==>
      && k in s.schedules && t.schedules[k] == s.schedules[k]
      && (ScheduleOk(s, s.schedules[k].window) ==> ScheduleOk(t, t.schedules[k].window))
      && var target := t.schedules[k].window.target;
         (target.OnPlaylist? && target.playlistId in s.playlists ==>
            target.playlistId in t.playlists && t.playlists[target.playlistId].status == s.playlists[target.playlistId].status)
  }

  lemma WithItemsFrom(s: Store, p: PlaylistId, items: seq<Item>)
    requires p in s.playlists
    ensures SchedulesFrom(s, WithItems(s, p, items))
  {
  }

  lemma ItemStepFrom(s: State, step: Step)
    requires ChangesItems(step)
    ensures SchedulesFrom(s.store, Effect(s.store, s.now, step))
  {
    var t := Effect(s.store, s.now, step);
    if t != s.store {
      WithItemsFrom(s.store, step.playlistId, t.playlists[step.playlistId].items);
      assert t == WithItems(s.store, step.playlistId, t.playlists[step.playlistId].items);
    }
  }

  lemma NewPlaylistFrom(s: Store, p: PlaylistId, owner: UserId)
    requires p !in s.playlists
    ensures SchedulesFrom(s, s.(playlists := s.playlists[p := Playlist(owner, DRAFT, [])]))
    ensures s.(playlists := s.playlists[p := Playlist(owner, DRAFT, [])]).playlists - {p} == s.playlists
  {
  }

  lemma FilledPlaylistFrom(s: Store, p: PlaylistId, owner: UserId, scope: Option<UserId>, entries: seq<Entry>)
    requires p !in s.playlists
    ensures SchedulesFrom(s, After(s, ReplaceItems(s.(playlists := s.playlists[p := Playlist(owner, DRAFT, [])]), scope, p, entries)))
  {
    var t := s.(playlists := s.playlists[p := Playlist(owner, DRAFT, [])]);
    var r := ReplaceItems(t, scope, p, entries);
    NewPlaylistFrom(s, p, owner);
    if r.Ok? {
      assert r.store == WithItems(t, p, r.store.playlists[p].items);
    }
  }

  lemma CreationFrom(s: State, step: Step)
    requires step.MakePlaylist? && Enabled(s, step)
    ensures SchedulesFrom(s.store, Effect(s.store, s.now, step))
  {
    NewPlaylistFrom(s.store, step.playlistId, step.ownerId);
    FilledPlaylistFrom(s.store, step.playlistId, step.ownerId, step.scope, step.entries);
  }

  lemma ShownFlashStays(s: State, step: Step, k: ScheduleId)
    requires ChangesContent(step) && Enabled(s, step)
    requires k in s.store.schedules && ScheduleOk(s.store, s.store.schedules[k].window)
    ensures ScheduleOk(Effect(s.store, s.now, step), s.store.schedules[k].window)
  {
    assert Targets(s.store, k, s.store.schedules[k].window.target);
  }

  lemma ContentStepFrom(s: State, step: Step)
    requires ChangesContent(step) && Enabled(s, step)
    ensures SchedulesFrom(s.store, Effect(s.store, s.now, step)) == true
  {
    var t := Effect(s.store, s.now, step);
    assert t.schedules == s.store.schedules && t.playlists == s.store.playlists;
    forall k | k in s.store.schedules && ScheduleOk(s.store, s.store.schedules[k].window)
      ensures ScheduleOk(t, s.store.schedules[k].window)
    {
      ShownFlashStays(s, step, k);
    }
  }

  lemma PlaylistRemovalFrom(s: Store, now: Instant, scope: Option<UserId>, p: PlaylistId)
    ensures SchedulesFrom(s, After(s, DeletePlaylist(s, now, scope, p)))
  {
    var t := After(s, DeletePlaylist(s, now, scope, p));
    forall k | k in t.schedules && t != s
      ensures t.schedules[k].window.target != OnPlaylist(p)
    {
      assert k !in SchedulesOf(s, p);
    }
  }

  lemma DisplaysFrom(s: Store, d: DisplayId)
    ensures SchedulesFrom(s, DeleteDisplay(s, d)) && SchedulesFrom(s, s.(displays := s.displays + {d}))
  {
  }

  lemma RemovalFrom(s: State, step: Step)
    requires step.AddDisplay? || step.RemoveDisplay? || step.RemovePlaylist?
    ensures SchedulesFrom(s.store, Effect(s.store, s.now, step))
  {
    match step
    case AddDisplay(d) => DisplaysFrom(s.store, d);
    case RemoveDisplay(d) => DisplaysFrom(s.store, d);
    case RemovePlaylist(scope, p) => PlaylistRemovalFrom(s.store, s.now, scope, p);
  }

  predicate WritesNoSchedule(step: Step) {
    !step.Tick? && !step.Plan? && !step.Replan? && !step.Unplan? && !step.Reconcile?
  }

  lemma CalmStep(s: State, step: Step)
    requires WritesNoSchedule(step) && Enabled(s, step)
    ensures SchedulesFrom(s.store, Effect(s.store, s.now, step))
  {
    if step.MakePlaylist? {
      CreationFrom(s, step);
    } else if ChangesItems(step) {
      ItemStepFrom(s, step);
    } else if step.AddDisplay? || step.RemoveDisplay? || step.RemovePlaylist? {
      RemovalFrom(s, step);
    } else {
      ContentStepFrom(s, step);
    }
  }

  // ----- Steps that write one -----

  lemma AdmittedIsOk(s: Store, now: Instant, d: Draft, scope: Option<UserId>, exclude: Option<ScheduleId>)
    requires AdmissionFailure(s, now, d, scope, exclude).None?
    ensures ScheduleOk(s, WindowOf(d)) && !HasConflict(s, WindowOf(d), exclude)
  {
  }

  predicate StatusHeld(s: Store, now: Instant, k: ScheduleId) {
    k in s.schedules && s.schedules[k].window.target.OnPlaylist? && IsUnfinished(s, k, now) ==>
      var p := s.schedules[k].window.target.playlistId;
      p in s.playlists && s.playlists[p].status == IN_USE
  }

  lemma ReconciledHolds(s: Store, ids: set<PlaylistId>, now: Instant, k: ScheduleId)
    requires SchedulesOk(s)
    requires k in s.schedules && s.schedules[k].window.target.OnPlaylist? && s.schedules[k].window.target.playlistId !in ids ==>
               StatusHeld(s, now, k)
    ensures StatusHeld(Reconciled(s, ids, now), now, k)
  {
    if k in s.schedules && s.schedules[k].window.target.OnPlaylist? && IsUnfinished(s, k, now) {
      var p := s.schedules[k].window.target.playlistId;
      assert Targets(s, k, OnPlaylist(p));
      assert Resolves(s, s.schedules[k].window);
    }
  }

  lemma ReleasedHolds(s: Store, reconciles: bool, p: PlaylistId, now: Instant, k: ScheduleId)
    requires SchedulesOk(s) && StatusHeld(s, now, k)
    ensures StatusHeld(Released(s, reconciles, p, now), now, k)
  {
    if reconciles {
      ReconciledHolds(s, {p}, now, k);
    } else if k in s.schedules {
      assert Targets(s, k, s.schedules[k].window.target);
    }
  }

  lemma OccupiedHolds(s: Store, reconciles: bool, p: PlaylistId, now: Instant, id: ScheduleId, k: ScheduleId)
    requires SchedulesOk(s) && Targets(s, id, OnPlaylist(p)) && (k != id ==> StatusHeld(s, now, k))
    ensures StatusHeld(Occupied(s, reconciles, p, now), now, k)
  {
    if reconciles {
      ReconciledHolds(s, {p}, now, k);
    } else if k in s.schedules {
      assert Resolves(s, s.schedules[k].window);
    }
  }

  lemma RetargetedHolds(t: Store, now: Instant, reconciles: bool, before: Target, after: Target, id: ScheduleId, k: ScheduleId)
    requires SchedulesOk(t) && Targets(t, id, after) && (k != id ==> StatusHeld(t, now, k))
    ensures StatusHeld(Retargeted(t, now, reconciles, before, after), now, k)
  {
    if reconciles {
      var affected := (if before.OnPlaylist? then {before.playlistId} else {}) + (if after.OnPlaylist? then {after.playlistId} else {});
      ReconciledHolds(t, affected, now, k);
    } else {
      FallbackHolds(t, now, before, after, id, k);
    }
  }

  lemma FallbackHolds(t: Store, now: Instant, before: Target, after: Target, id: ScheduleId, k: ScheduleId)
    requires SchedulesOk(t) && Targets(t, id, after) && (k != id ==> StatusHeld(t, now, k))
    ensures StatusHeld(Retargeted(t, now, false, before, after), now, k)
  {
    if before.OnPlaylist? && before != after && k != id {
      ReleasedHolds(t, false, before.playlistId, now, k);
    }
    if k in t.schedules {
      assert Resolves(t, t.schedules[k].window);
    }
  }

  // What writing steps establish.
  ghost predicate Kept(t: Store, now: Instant) {
    SchedulesOk(t) && StatusOk(t, now) && FlashApart(t)
  }

  lemma PutResolves(s: Store, id: ScheduleId, schedule: Schedule)
    requires SchedulesOk(s) && ScheduleOk(s, schedule.window)
    ensures SchedulesOk(Put(s, id, schedule))
  {
  }

  lemma PutApart(s: Store, id: ScheduleId, schedule: Schedule, exclude: Option<ScheduleId>)
    requires FlashApart(s) && !HasConflict(s, schedule.window, exclude)
    requires exclude == if id in s.schedules then Some(id) else None
    ensures FlashApart(Put(s, id, schedule))
  {
    var t := Put(s, id, schedule);
    forall k | k in s.schedules && k != id
      ensures !WindowsConflict(schedule.window, s.schedules[k].window) && !WindowsConflict(s.schedules[k].window, schedule.window)
    {
      assert Some(k) != exclude;
      if WindowsConflict(s.schedules[k].window, schedule.window) {
        ConflictIsSymmetric(s.schedules[k].window, schedule.window);
      }
    }
    forall a, b | a in t.schedules && b in t.schedules && a != b
      ensures !WindowsConflict(t.schedules[a].window, t.schedules[b].window)
    {
    }
  }

  lemma PutLeavesStatus(s: Store, now: Instant, id: ScheduleId, schedule: Schedule, k: ScheduleId)
    requires StatusOk(s, now) && k != id
    ensures StatusHeld(Put(s, id, schedule), now, k)
  {
    assert StatusHeld(s, now, k);
  }

  lemma ConflictIsSymmetric(a: Window, b: Window)
    requires WindowsConflict(a, b)
    ensures WindowsConflict(b, a)
  {
    OverlapMeansSharedSecond(a.startTime, a.endTime, b.startTime, b.endTime);
    OverlapMeansSharedSecond(b.startTime, b.endTime, a.startTime, a.endTime);
  }

  // Only the status of playlists differs from a store that is in order but for it.
  lemma OnlyStatusKeeps(t: Store, u: Store, now: Instant)
    requires SchedulesOk(t) && FlashApart(t) && OnlyStatus(t, u)
    requires forall k :: StatusHeld(u, now, k)
    ensures Kept(u, now)
  {
    forall k | k in u.schedules
      ensures ScheduleOk(u, u.schedules[k].window)
    {
      assert ScheduleOk(t, t.schedules[k].window);
    }
    forall k | k in u.schedules && u.schedules[k].window.target.OnPlaylist? && IsUnfinished(u, k, now)
      ensures var p := u.schedules[k].window.target.playlistId;
              p in u.playlists && u.playlists[p].status == IN_USE
    {
      assert StatusHeld(u, now, k);
    }
  }

  lemma CreateKeeps(s: Store, now: Instant, reconciles: bool, owner: Option<UserId>, admin: bool, d: Draft, id: ScheduleId)
    requires Kept(s, now) && id !in s.schedules
    ensures Kept(After(s, CreateSchedule(s, now, reconciles, owner, admin, d, id)), now)
  {
    if CreateSchedule(s, now, reconciles, owner, admin, d, id).Ok? {
      AdmittedIsOk(s, now, d, if admin then None else owner, None);
      var schedule := Schedule(WindowOf(d), owner.value);
      PutResolves(s, id, schedule);
      PutApart(s, id, schedule, None);
      var t := Put(s, id, schedule);
      if d.kind == ForPlaylist {
        var p := d.playlistId.value;
        forall k
          ensures StatusHeld(Occupied(t, reconciles, p, now), now, k)
        {
          if k != id {
            PutLeavesStatus(s, now, id, schedule, k);
          }
          OccupiedHolds(t, reconciles, p, now, id, k);
        }
        UpkeepIsOnlyStatus(t, reconciles, p, now);
        OnlyStatusKeeps(t, Occupied(t, reconciles, p, now), now);
      } else {
        forall k
          ensures StatusHeld(t, now, k)
        {
          if k != id {
            PutLeavesStatus(s, now, id, schedule, k);
          }
        }
        OnlyStatusKeeps(t, t, now);
      }
    }
  }

  lemma UpdateKeeps(s: Store, now: Instant, reconciles: bool, scope: Option<UserId>, id: ScheduleId, c: Change)
    requires Kept(s, now)
    ensures Kept(After(s, UpdateSchedule(s, now, reconciles, scope, id, c)), now)
  {
    if UpdateSchedule(s, now, reconciles, scope, id, c).Ok? {
      var existing := s.schedules[id];
      var d := Changed(existing.window, c);
      AdmittedIsOk(s, now, d, scope, Some(id));
      var schedule := Schedule(WindowOf(d), existing.createdBy);
      PutResolves(s, id, schedule);
      PutApart(s, id, schedule, Some(id));
      var t := Put(s, id, schedule);
      var u := Retargeted(t, now, reconciles, existing.window.target, WindowOf(d).target);
      forall k
        ensures StatusHeld(u, now, k)
      {
        if k != id {
          PutLeavesStatus(s, now, id, schedule, k);
        }
        RetargetedHolds(t, now, reconciles, existing.window.target, WindowOf(d).target, id, k);
      }
      RetargetIsOnlyStatus(t, now, reconciles, existing.window.target, WindowOf(d).target);
      OnlyStatusKeeps(t, u, now);
    }
  }

  lemma WithoutKeeps(s: Store, now: Instant, id: ScheduleId)
    requires Kept(s, now)
    ensures Kept(Without(s, id), now)
    ensures forall k :: StatusHeld(Without(s, id), now, k)
  {
    var t := Without(s, id);
    forall k
      ensures StatusHeld(t, now, k)
    {
      assert StatusHeld(s, now, k);
    }
    forall k | k in t.schedules
      ensures ScheduleOk(t, t.schedules[k].window)
    {
      assert ScheduleOk(s, s.schedules[k].window);
    }
  }

  lemma DeleteKeeps(s: Store, now: Instant, reconciles: bool, scope: Option<UserId>, id: ScheduleId)
    requires Kept(s, now)
    ensures Kept(After(s, DeleteSchedule(s, now, reconciles, scope, id)), now)
  {
    WithoutKeeps(s, now, id);
    if id in s.schedules && s.schedules[id].window.target.OnPlaylist? {
      var t, p := Without(s, id), s.schedules[id].window.target.playlistId;
      forall k
        ensures StatusHeld(Released(t, reconciles, p, now), now, k)
      {
        ReleasedHolds(t, reconciles, p, now, k);
      }
      UpkeepIsOnlyStatus(t, reconciles, p, now);
      OnlyStatusKeeps(t, Released(t, reconciles, p, now), now);
    }
  }

  lemma ReconcileKeeps(s: Store, now: Instant, ids: set<PlaylistId>)
    requires Kept(s, now)
    ensures Kept(Reconciled(s, ids, now), now)
  {
    forall k
      ensures StatusHeld(Reconciled(s, ids, now), now, k)
    {
      assert StatusHeld(s, now, k);
      ReconciledHolds(s, ids, now, k);
    }
    OnlyStatusKeeps(s, Reconciled(s, ids, now), now);
  }

  lemma TickKeeps(s: Store, now: Instant, later: Instant)
    requires Kept(s, now) && NotBefore(later, now)
    ensures Kept(s, later)
  {
    forall k | k in s.schedules && s.schedules[k].window.target.OnPlaylist? && IsUnfinished(s, k, later)
      ensures var p := s.schedules[k].window.target.playlistId;
              p in s.playlists && s.playlists[p].status == IN_USE
    {
      if !IsUnfinished(s, k, now) {
        FinishedIsPermanent(s.schedules[k].window.endDate, s.schedules[k].window.endTime, now, later);
      }
    }
  }

  lemma CalmKeeps(s: Store, now: Instant, t: Store)
    requires Kept(s, now) && SchedulesFrom(s, t)
    ensures Kept(t, now)
  {
    forall k | k in t.schedules && t.schedules[k].window.target.OnPlaylist? && IsUnfinished(t, k, now)
      ensures var p := t.schedules[k].window.target.playlistId;
              p in t.playlists && t.playlists[p].status == IN_USE
    {
      assert IsUnfinished(s, k, now) && ScheduleOk(s, s.schedules[k].window);
    }
  }

  /**
   * Every use case in either wiring, and time passing, keep schedules resolving, keep every playlist with an
   * unfinished schedule in use, and keep flash schedules of one display apart.
   */
  lemma SchedulesKept(s: State, step: Step)
    requires Kept(s.store, s.now) && Enabled(s, step)
    ensures Kept(Apply(s, step).store, Apply(s, step).now) == true
  {
    match step
    case Tick(now) => TickKeeps(s.store, s.now, now);
    case Plan(reconciles, owner, admin, d, id) => CreateKeeps(s.store, s.now, reconciles, owner, admin, d, id);
    case Replan(reconciles, scope, id, c) => UpdateKeeps(s.store, s.now, reconciles, scope, id, c);
    case Unplan(reconciles, scope, id) => DeleteKeeps(s.store, s.now, reconciles, scope, id);
    case Reconcile(ids) => ReconcileKeeps(s.store, s.now, ids);
    case _ =>
      CalmStep(s, step);
      CalmKeeps(s.store, s.now, Effect(s.store, s.now, step));
  }

  // ----- Runs -----

  predicate Init(s: State) {
    s.store == Store(map[], map[], map[], {})
  }

  ghost predicate IsRun(states: seq<State>, steps: seq<Step>) {
    && |states| == |steps| + 1
    && Init(states[0])
    && forall i :: 0 <= i < |steps| ==> Enabled(states[i], steps[i]) && states[i + 1] == Apply(states[i], steps[i])
  }

  ghost predicate KeptIn(s: State) {
    Kept(s.store, s.now)
  }

  // From one state of the list to the next, what was kept is kept.
  ghost predicate Keeping(states: seq<State>) {
    forall i :: 0 <= i < |states| - 1 && KeptIn(states[i]) ==> KeptIn(states[i + 1])
  }

  lemma RunsKeep(states: seq<State>, steps: seq<Step>)
    requires IsRun(states, steps)
    ensures Keeping(states) == true
  {
    forall i | 0 <= i < |states| - 1 && KeptIn(states[i])
      ensures KeptIn(states[i + 1]) == true
    {
      SchedulesKept(states[i], steps[i]);
    }
  }

  lemma {:induction false} KeptThroughout(states: seq<State>, n: nat)
    requires n < |states| && Keeping(states) && KeptIn(states[0])
    ensures KeptIn(states[n]) == true
  {
    if n > 0 {
      KeptThroughout(states, n - 1);
    }
  }

  lemma SchedulesAlwaysOk(states: seq<State>, steps: seq<Step>, n: nat)
    requires IsRun(states, steps) && n < |states|
    ensures Kept(states[n].store, states[n].now) == true
  {
    assert Init(states[0]);
    RunsKeep(states, steps);
    KeptThroughout(states, n);
  }

  /** Over every run, in either wiring: a playlist marked as a draft has no unfinished schedule. */
  lemma DraftHasNoUnfinished(states: seq<State>, steps: seq<Step>, n: nat, p: PlaylistId)
    requires IsRun(states, steps) && n < |states|
    requires p in states[n].store.playlists && states[n].store.playlists[p].status == DRAFT
    ensures !HasUnfinished(states[n].store, p, states[n].now)
  {
    SchedulesAlwaysOk(states, steps, n);
  }

  /** Over every run: what a schedule is for still exists, and a flash schedule shows flash content. */
  lemma ReferencesResolve(states: seq<State>, steps: seq<Step>, n: nat, k: ScheduleId)
    requires IsRun(states, steps) && n < |states| && k in states[n].store.schedules
    ensures Resolves(states[n].store, states[n].store.schedules[k].window)
  {
    SchedulesAlwaysOk(states, steps, n);
  }

  predicate Plays(w: Window, at: Instant) {
    IsActiveAt(w.startDate, w.endDate, w.startTime, w.endTime, at)
  }

  // The dates of both windows include the day, and the minute ends one of them and starts the other.
  predicate MeetAt(v: Window, w: Window, at: Instant) {
    && IsWithinDateWindow(at.date, v.startDate, v.endDate) && IsWithinDateWindow(at.date, w.startDate, w.endDate)
    && IsHandover(v.startTime, v.endTime, w.startTime, w.endTime, at.time)
  }

  /**
   * Over every run: two different flash schedules of one display play in the same minute exactly when, on a day of
   * both, that minute is the end of one and the start of the other.
   */
  lemma FlashesMeetExactlyAtHandover(states: seq<State>, steps: seq<Step>, n: nat, a: ScheduleId, b: ScheduleId, at: Instant)
    requires IsRun(states, steps) && n < |states|
    requires a in states[n].store.schedules && b in states[n].store.schedules && a != b
    requires var v, w := states[n].store.schedules[a].window, states[n].store.schedules[b].window;
             v.target.OnContent? && w.target.OnContent? && v.displayId == w.displayId
    ensures var v, w := states[n].store.schedules[a].window, states[n].store.schedules[b].window;
            Plays(v, at) && Plays(w, at) <==> MeetAt(v, w, at)
  {
    SchedulesAlwaysOk(states, steps, n);
    var v, w := states[n].store.schedules[a].window, states[n].store.schedules[b].window;
    assert !WindowsConflict(v, w) && ScheduleOk(states[n].store, v) && ScheduleOk(states[n].store, w);
    TimesCompareAsMinutes(v.startTime, v.endTime);
    TimesCompareAsMinutes(w.startTime, w.endTime);
    if IsWithinDateWindow(at.date, v.startDate, v.endDate) && IsWithinDateWindow(at.date, w.startDate, w.endDate) {
      DateOverlapMeansSharedDate(v.startDate, v.endDate, w.startDate, w.endDate);
      HandoverMinute(v.startTime, v.endTime, w.startTime, w.endTime, at.time);
    }
  }

  ghost predicate NoHusks(states: seq<State>, steps: seq<Step>)
    requires IsRun(states, steps)
  {
    forall i :: 0 <= i < |steps| ==> !LeavesHusk(states[i].store, steps[i])
  }

  /**
   * Over every run in which no failed creation also fails to undo itself: playlists are never empty, have whole
   * positive durations of at most a minute in all, and hold no flash content.
   */
  lemma {:induction false} PlaylistsAlwaysSound(states: seq<State>, steps: seq<Step>, n: nat)
    requires IsRun(states, steps) && NoHusks(states, steps) && n < |states|
    ensures PlaylistsSound(states[n].store)
  {
    if n > 0 {
      PlaylistsAlwaysSound(states, steps, n - 1);
      PlaylistsKeptExactly(states[n - 1], steps[n - 1]);
    }
  }

  // From one state of the list to the next, playlists stay in order or empty.
  ghost predicate StayingShort(states: seq<State>) {
    forall i :: 0 <= i < |states| - 1 && PlaylistsShort(states[i].store) ==> PlaylistsShort(states[i + 1].store)
  }

  lemma RunsStayShort(states: seq<State>, steps: seq<Step>)
    requires IsRun(states, steps)
    ensures StayingShort(states) == true
  {
    forall i | 0 <= i < |states| - 1 && PlaylistsShort(states[i].store)
      ensures PlaylistsShort(states[i + 1].store) == true
    {
      StepKeepsPlaylistsShort(states[i], steps[i]);
    }
  }

  lemma {:induction false} ShortThroughout(states: seq<State>, n: nat)
    requires n < |states| && StayingShort(states) && PlaylistsShort(states[0].store)
    ensures PlaylistsShort(states[n].store) == true
  {
    if n > 0 {
      ShortThroughout(states, n - 1);
    }
  }

  /** Over every run whatever, each playlist is in order or has no items. */
  lemma PlaylistsAlwaysShort(states: seq<State>, steps: seq<Step>, n: nat)
    requires IsRun(states, steps) && n < |states|
    ensures PlaylistsShort(states[n].store) == true
  {
    assert Init(states[0]);
    RunsStayShort(states, steps);
    ShortThroughout(states, n);
  }

  // From one state of the list to the next, videos stay within their files.
  ghost predicate StayingFit(states: seq<State>) {
    forall i :: 0 <= i < |states| - 1 && VideosFit(states[i].store) ==> VideosFit(states[i + 1].store)
  }

  lemma RunsStayFit(states: seq<State>, steps: seq<Step>)
    requires IsRun(states, steps)
    ensures StayingFit(states) == true
  {
    forall i | 0 <= i < |states| - 1 && VideosFit(states[i].store)
      ensures VideosFit(states[i + 1].store) == true
    {
      StepKeepsVideosFit(states[i], steps[i]);
    }
  }

  lemma {:induction false} FitThroughout(states: seq<State>, n: nat)
    requires n < |states| && StayingFit(states) && VideosFit(states[0].store)
    ensures VideosFit(states[n].store) == true
  {
    if n > 0 {
      FitThroughout(states, n - 1);
    }
  }

  /** Over every run no playlist shows a video longer than its file lasts, even once the file is read again. */
  lemma VideosAlwaysFit(states: seq<State>, steps: seq<Step>, n: nat, p: PlaylistId, i: nat)
    requires IsRun(states, steps) && n < |states|
    requires p in states[n].store.playlists && i < |states[n].store.playlists[p].items|
    ensures var item := states[n].store.playlists[p].items[i];
            && item.contentId in states[n].store.contents
            && var c := states[n].store.contents[item.contentId];
               c.duration == c.length && (c.kind == VIDEO && c.length.Some? && c.length.value > 0 ==> item.duration <= c.length.value)
  {
    assert Init(states[0]);
    RunsStayFit(states, steps);
    FitThroughout(states, n);
    assert VideosFit(states[n].store) && ItemsFit(states[n].store.playlists[p].items, states[n].store.contents);
    assert ItemFits(states[n].store.playlists[p].items[i], states[n].store.contents);
  }

  lemma ShortEnough(s: Store, d: Draft, scope: Option<UserId>, now: Instant)
    requires PlaylistsShort(s) && WindowFailure(d, now).None?
    ensures TargetFailure(s, d, scope) != Some(WindowTooShort)
  {
    TimesCompareAsMinutes(d.startTime, d.endTime);
    if d.kind == ForPlaylist && d.playlistId.Some? && d.playlistId.value in s.playlists {
      var items := s.playlists[d.playlistId.value].items;
      if items != [] {
        EffectiveIsTotal(items, s.contents);
      }
    }
  }

  /** Over every run the rejection for a window too short for its playlist is never given, by create or update. */
  lemma WindowIsNeverTooShort(states: seq<State>, steps: seq<Step>, n: nat, d: Draft, scope: Option<UserId>, exclude: Option<ScheduleId>)
    requires IsRun(states, steps) && n < |states|
    ensures AdmissionFailure(states[n].store, states[n].now, d, scope, exclude) != Some(WindowTooShort)
  {
    PlaylistsAlwaysShort(states, steps, n);
    if WindowFailure(d, states[n].now).None? {
      ShortEnough(states[n].store, d, scope, states[n].now);
    }
  }

  // ----- Requests limited to one user -----

  // The user a request is limited to, if it is.
  function Limit(step: Step): Option<UserId> {
    match step
    case ChangeFile(scope, _, _, _) => scope
    case RemoveContent(scope, _) => scope
    case Add(scope, _, _, _, _, _, _) => scope
    case Update(scope, _, _, _, _, _) => scope
    case Replace(scope, _, _) => scope
    case Drop(scope, _, _) => scope
    case RemovePlaylist(scope, _) => scope
    case Replan(_, scope, _, _) => scope
    case Unplan(_, scope, _) => scope
    case _ => None
  }

  predicate ContentSpared(s: Store, t: Store, user: UserId) {
    forall c :: c in s.contents && s.contents[c].ownerId != user ==> c in t.contents && t.contents[c] == s.contents[c]
  }

  predicate PlaylistsSpared(s: Store, t: Store, user: UserId) {
    forall p :: p in s.playlists && s.playlists[p].ownerId != user ==>
      p in t.playlists && t.playlists[p].items == s.playlists[p].items && t.playlists[p].ownerId == s.playlists[p].ownerId
  }

  // A finished schedule may go with the playlist it was for.
  predicate SchedulesSpared(s: Store, t: Store, now: Instant, step: Step, user: UserId) {
    forall k :: k in s.schedules && s.schedules[k].createdBy != user ==>
      || (k in t.schedules && t.schedules[k] == s.schedules[k])
      || (step.RemovePlaylist? && Targets(s, k, OnPlaylist(step.playlistId)) && !IsUnfinished(s, k, now))
  }

  lemma ContentIsSpared(s: State, step: Step, user: UserId)
    requires Limit(step) == Some(user)
    ensures ContentSpared(s.store, Effect(s.store, s.now, step), user)
  {
    if step.RemovePlaylist? || step.Replan? || step.Unplan? {
      StatusChangesNoItems(s.store, s.now, step);
    }
  }

  // One playlist of the user's gets other items.
  lemma ItemsSpareOthers(s: Store, p: PlaylistId, r: Result, user: UserId)
    requires r.Ok? ==> FindPlaylist(s, p, Some(user)).Some? && p in r.store.playlists
                       && r.store == WithItems(s, p, r.store.playlists[p].items)
    ensures PlaylistsSpared(s, After(s, r), user)
  {
  }

  lemma ItemStepsSpare(s: State, step: Step, user: UserId)
    requires Limit(step) == Some(user) && ChangesItems(step)
    ensures PlaylistsSpared(s.store, Effect(s.store, s.now, step), user) == true
  {
    match step
    case Add(scope, id, content, sequence, duration, loop, item) =>
      ItemsSpareOthers(s.store, id, AddItem(s.store, scope, id, content, sequence, duration, loop, item), user);
    case Update(scope, id, item, sequence, duration, loop) =>
      ItemsSpareOthers(s.store, id, UpdateItem(s.store, scope, id, item, sequence, duration, loop), user);
    case Replace(scope, id, entries) =>
      ItemsSpareOthers(s.store, id, ReplaceItems(s.store, scope, id, entries), user);
    case Drop(scope, id, item) =>
      ItemsSpareOthers(s.store, id, DeleteItem(s.store, scope, id, item), user);
  }

  lemma PlaylistsAreSpared(s: State, step: Step, user: UserId)
    requires Limit(step) == Some(user)
    ensures PlaylistsSpared(s.store, Effect(s.store, s.now, step), user) == true
  {
    if ChangesItems(step) {
      ItemStepsSpare(s, step, user);
    } else if step.Replan? {
      UpdateKeepsItems(s.store, s.now, step.reconciles, step.scope, step.scheduleId, step.change);
    } else if step.Unplan? {
      DeleteKeepsItems(s.store, s.now, step.reconciles, step.scope, step.scheduleId);
    }
  }

  lemma RemovalSparesSchedules(s: Store, now: Instant, scope: Option<UserId>, p: PlaylistId)
    ensures var t := After(s, DeletePlaylist(s, now, scope, p));
            forall k :: k in s.schedules ==>
              || (k in t.schedules && t.schedules[k] == s.schedules[k])
              || (Targets(s, k, OnPlaylist(p)) && !IsUnfinished(s, k, now))
  {
  }

  lemma SchedulesAreSpared(s: State, step: Step, user: UserId)
    requires Limit(step) == Some(user)
    ensures SchedulesSpared(s.store, Effect(s.store, s.now, step), s.now, step, user) == true
  {
    if step.Replan? {
      ReplanTouchesOne(s.store, s.now, step.reconciles, step.scope, step.scheduleId, step.change);
    } else if step.Unplan? {
      UnplanTouchesOne(s.store, s.now, step.reconciles, step.scope, step.scheduleId);
    } else if step.RemovePlaylist? {
      RemovalSparesSchedules(s.store, s.now, step.scope, step.playlistId);
    } else {
      assert Effect(s.store, s.now, step).schedules == s.store.schedules;
    }
  }

  lemma ReplanWritesOne(s: Store, now: Instant, reconciles: bool, scope: Option<UserId>, id: ScheduleId, c: Change)
    requires UpdateSchedule(s, now, reconciles, scope, id, c).Ok?
    ensures var t := UpdateSchedule(s, now, reconciles, scope, id, c).store;
            && id in s.schedules && Visible(s.schedules[id], scope) && id in t.schedules
            && t.schedules == s.schedules[id := t.schedules[id]] && t.schedules[id].createdBy == s.schedules[id].createdBy
  {
    var existing := s.schedules[id];
    var w := WindowOf(Changed(existing.window, c));
    RetargetIsOnlyStatus(Put(s, id, Schedule(w, existing.createdBy)), now, reconciles, existing.window.target, w.target);
  }

  lemma ReplanTouchesOne(s: Store, now: Instant, reconciles: bool, scope: Option<UserId>, id: ScheduleId, c: Change)
    ensures var t := After(s, UpdateSchedule(s, now, reconciles, scope, id, c));
            && t.schedules.Keys == s.schedules.Keys
            && (id in s.schedules ==> t.schedules[id].createdBy == s.schedules[id].createdBy)
            && (t.schedules != s.schedules ==> id in s.schedules && Visible(s.schedules[id], scope))
            && forall k :: k in s.schedules && k != id ==> t.schedules[k] == s.schedules[k]
  {
    if UpdateSchedule(s, now, reconciles, scope, id, c).Ok? {
      ReplanWritesOne(s, now, reconciles, scope, id, c);
    }
  }

  lemma UnplanTouchesOne(s: Store, now: Instant, reconciles: bool, scope: Option<UserId>, id: ScheduleId)
    ensures var t := After(s, DeleteSchedule(s, now, reconciles, scope, id));
            t.schedules == s.schedules || (id in s.schedules && Visible(s.schedules[id], scope) && t.schedules == s.schedules - {id})
  {
    if id in s.schedules && s.schedules[id].window.target.OnPlaylist? {
      UpkeepIsOnlyStatus(Without(s, id), reconciles, s.schedules[id].window.target.playlistId, now);
    }
  }

  /**
   * A request limited to a user changes nothing of anybody else's, except the status of playlists and the finished
   * schedules of a playlist that goes.
   */
  lemma LimitedRequestsSpareOthers(s: State, step: Step, user: UserId)
    requires Limit(step) == Some(user)
    ensures ContentSpared(s.store, Apply(s, step).store, user)
    ensures PlaylistsSpared(s.store, Apply(s, step).store, user)
    ensures SchedulesSpared(s.store, Apply(s, step).store, s.now, step, user)
  {
    ContentIsSpared(s, step, user);
    PlaylistsAreSpared(s, step, user);
    SchedulesAreSpared(s, step, user);
  }

  // ----- Reconciliation and deletion -----

  /** A full reconciliation makes every status exact, changes nothing else, and repeating it changes nothing. */
  lemma ReconcileIsExact(s: Store, now: Instant)
    ensures var t := Reconciled(s, s.playlists.Keys, now);
            && t.playlists.Keys == s.playlists.Keys
            && (forall p :: p in t.playlists ==>
                  (t.playlists[p].status == IN_USE <==> HasUnfinished(t, p, now))
                  && t.playlists[p].items == s.playlists[p].items && t.playlists[p].ownerId == s.playlists[p].ownerId)
            && Reconciled(t, t.playlists.Keys, now) == t && Outdated(t, t.playlists.Keys, now) == {}
  {
    var t := Reconciled(s, s.playlists.Keys, now);
    forall p
      ensures HasUnfinished(t, p, now) == HasUnfinished(s, p, now)
    {
      if HasUnfinished(s, p, now) {
        SameSchedules(s, t, p, now);
      }
      if HasUnfinished(t, p, now) {
        SameSchedules(t, s, p, now);
      }
    }
    assert Reconciled(t, t.playlists.Keys, now).playlists == t.playlists;
  }

  lemma SameSchedules(s: Store, t: Store, p: PlaylistId, now: Instant)
    requires s.schedules == t.schedules && HasUnfinished(s, p, now)
    ensures HasUnfinished(t, p, now)
  {
    var k :| k in s.schedules && Targets(s, k, OnPlaylist(p)) && IsUnfinished(s, k, now);
    assert k in t.schedules && Targets(t, k, OnPlaylist(p)) && IsUnfinished(t, k, now);
  }

  /** Deleting a playlist never removes a schedule that could still play, on any day and at any time from now on. */
  lemma DeletedSchedulesWereOver(states: seq<State>, steps: seq<Step>, n: nat, scope: Option<UserId>, p: PlaylistId,
                                 k: ScheduleId, later: Instant)
    requires IsRun(states, steps) && n < |states|
    requires var r := DeletePlaylist(states[n].store, states[n].now, scope, p);
             r.Ok? && k in states[n].store.schedules && k !in r.store.schedules
    requires NotBefore(later, states[n].now)
    ensures !Plays(states[n].store.schedules[k].window, later)
  {
    SchedulesAlwaysOk(states, steps, n);
    var w := states[n].store.schedules[k].window;
    assert ScheduleOk(states[n].store, w);
    assert !IsUnfinished(states[n].store, k, states[n].now);
    FinishedNeverPlays(w.startDate, w.endDate, w.startTime, w.endTime, states[n].now, later);
  }
}
