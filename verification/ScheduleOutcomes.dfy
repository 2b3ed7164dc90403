/** What each use case on schedules, and on what they refer to, answers and leaves behind, row by row. */
module ScheduleOutcomes {
  import opened Options
  import opened ScheduleWindows
  import opened Library
  import opened PlaylistItems
  import opened Schedules

  // The schedule's end has not passed.
  predicate Lasts(w: Window, now: Instant) {
    Moment(now.date, now.time) <= Moment(w.endDate, w.endTime)
  }

  // Some schedule of the playlist is still to end.
  predicate StillNeeded(s: Store, p: PlaylistId, now: Instant) {
    exists k :: k in s.schedules && s.schedules[k].window.target == OnPlaylist(p) && Lasts(s.schedules[k].window, now)
  }

  // Some schedule of the playlist is there, whether it has ended or not.
  predicate Scheduled(s: Store, p: PlaylistId) {
    exists k :: k in s.schedules && s.schedules[k].window.target == OnPlaylist(p)
  }

  predicate Allowed(owner: UserId, scope: Option<UserId>) {
    scope == None || scope == Some(owner)
  }

  lemma UnfinishedMeans(s: Store, k: ScheduleId, now: Instant)
    ensures IsUnfinished(s, k, now) <==> k in s.schedules && Lasts(s.schedules[k].window, now)
  {
    if k in s.schedules {
      FinishedMeaning(s.schedules[k].window.endDate, s.schedules[k].window.endTime, now);
    }
  }

  lemma NeededMeans(s: Store, p: PlaylistId, now: Instant)
    ensures HasUnfinished(s, p, now) <==> StillNeeded(s, p, now)
  {
    forall k
      ensures IsUnfinished(s, k, now) <==> k in s.schedules && Lasts(s.schedules[k].window, now)
    {
      UnfinishedMeans(s, k, now);
    }
    if StillNeeded(s, p, now) {
      var k :| k in s.schedules && s.schedules[k].window.target == OnPlaylist(p) && Lasts(s.schedules[k].window, now);
      assert Targets(s, k, OnPlaylist(p)) && IsUnfinished(s, k, now);
    }
  }

  // ----- Admission -----

  /** Two windows conflict exactly when both show flash content on one display in a second they share on a day they share. */
  lemma ConflictMeans(a: Window, b: Window)
    ensures WindowsConflict(a, b) <==>
              && a.displayId == b.displayId && a.target.OnContent? && b.target.OnContent?
              && DateNumber(a.startDate) <= DateNumber(b.endDate) && DateNumber(b.startDate) <= DateNumber(a.endDate)
              && exists second :: Covers(a.startTime, a.endTime, second) && Covers(b.startTime, b.endTime, second)
  {
    OverlapMeansSharedSecond(a.startTime, a.endTime, b.startTime, b.endTime);
    DatesCompareAsNumbers(b.endDate, a.startDate);
    DatesCompareAsNumbers(a.endDate, b.startDate);
  }

  // What is asked for can be shown: a playlist of the caller's that the window is long enough for, or ready flash content.
  predicate TargetFits(s: Store, d: Draft, scope: Option<UserId>)
    requires IsValidTime(d.startTime) && IsValidTime(d.endTime)
  {
    if d.kind == ForPlaylist then
      && d.playlistId.Some? && d.contentId == None && d.playlistId.value in s.playlists
      && Allowed(s.playlists[d.playlistId.value].ownerId, scope)
      && EffectiveDuration(s.playlists[d.playlistId.value].items, s.contents) <= ComputeWindowDurationSeconds(d.startTime, d.endTime)
    else
      && d.contentId.Some? && d.playlistId == None && d.contentId.value in s.contents
      && Allowed(s.contents[d.contentId.value].ownerId, scope)
      && s.contents[d.contentId.value].kind == FLASH && s.contents[d.contentId.value].status == READY
  }

  lemma TargetFitsExactly(s: Store, d: Draft, scope: Option<UserId>)
    requires IsValidTime(d.startTime) && IsValidTime(d.endTime)
    ensures TargetFailure(s, d, scope) == None <==> d.displayId in s.displays && TargetFits(s, d, scope)
  {
  }

  // The texts are valid, the dates and times in order, and the start has not passed.
  predicate WindowFits(d: Draft, now: Instant) {
    && IsValidTime(d.startTime) && IsValidTime(d.endTime) && IsValidDate(d.startDate) && IsValidDate(d.endDate)
    && DateNumber(d.startDate) <= DateNumber(d.endDate) && ToMinutes(d.startTime) < ToMinutes(d.endTime)
    && Moment(now.date, now.time) <= Moment(d.startDate, d.startTime)
  }

  lemma WindowFitsExactly(d: Draft, now: Instant)
    ensures WindowFailure(d, now) == None <==> WindowFits(d, now)
  {
    if IsValidTime(d.startTime) && IsValidTime(d.endTime) && IsValidDate(d.startDate) && IsValidDate(d.endDate) {
      DatesCompareAsNumbers(d.endDate, d.startDate);
      TimesCompareAsMinutes(d.startTime, d.endTime);
    }
  }

  /** Create and update admit exactly what is valid, in order, not in the past, can be shown, and is in nobody's way. */
  lemma AdmittedExactly(s: Store, now: Instant, d: Draft, scope: Option<UserId>, exclude: Option<ScheduleId>)
    ensures AdmissionFailure(s, now, d, scope, exclude) == None <==>
              WindowFits(d, now) && d.displayId in s.displays && TargetFits(s, d, scope) && !HasConflict(s, WindowOf(d), exclude)
  {
    WindowFitsExactly(d, now);
    if WindowFits(d, now) {
      TargetFitsExactly(s, d, scope);
    }
  }

  /** Which refusal a window is given: texts before dates, dates before the past, the past before the length. */
  lemma WindowRefusedExactly(d: Draft, now: Instant)
    ensures var f := WindowFailure(d, now);
            var times := IsValidTime(d.startTime) && IsValidTime(d.endTime);
            var dates := IsValidDate(d.startDate) && IsValidDate(d.endDate) && DateNumber(d.startDate) <= DateNumber(d.endDate);
            && (f == Some(InvalidTimeRange) <==> !times)
            && (f == Some(InvalidDateRange) <==> times && !dates)
            && (f == Some(StartInPast) <==> times && dates && Moment(d.startDate, d.startTime) < Moment(now.date, now.time))
            && (f == Some(EndNotLater) <==>
                  && times && dates && Moment(now.date, now.time) <= Moment(d.startDate, d.startTime)
                  && ToMinutes(d.endTime) <= ToMinutes(d.startTime))
  {
    if IsValidTime(d.startTime) && IsValidTime(d.endTime) && IsValidDate(d.startDate) && IsValidDate(d.endDate) {
      DatesCompareAsNumbers(d.endDate, d.startDate);
      TimesCompareAsMinutes(d.startTime, d.endTime);
      StartsInPastMeaning(d.startDate, d.startTime, now);
    }
  }

  /** Each refusal of a target has its reason. */
  lemma TargetRefusalMeans(s: Store, d: Draft, scope: Option<UserId>)
    requires IsValidTime(d.startTime) && IsValidTime(d.endTime) && TargetFailure(s, d, scope).Some?
    ensures match TargetFailure(s, d, scope).value
            case DisplayNotFound => d.displayId !in s.displays
            case PlaylistIdOnly => d.kind == ForPlaylist && (d.playlistId == None || d.contentId != None)
            case ContentIdOnly => d.kind == ForFlash && (d.contentId == None || d.playlistId != None)
            case PlaylistNotFound =>
              d.playlistId.Some? && !(d.playlistId.value in s.playlists && Allowed(s.playlists[d.playlistId.value].ownerId, scope))
            case ContentNotFound =>
              d.contentId.Some? && !(d.contentId.value in s.contents && Allowed(s.contents[d.contentId.value].ownerId, scope))
            case WindowTooShort =>
              d.playlistId.Some? && d.playlistId.value in s.playlists
              && ComputeWindowDurationSeconds(d.startTime, d.endTime)
                 < EffectiveDuration(s.playlists[d.playlistId.value].items, s.contents)
            case NotFlash => d.contentId.Some? && d.contentId.value in s.contents && s.contents[d.contentId.value].kind != FLASH
            case NotReady => d.contentId.Some? && d.contentId.value in s.contents && s.contents[d.contentId.value].status != READY
            case _ => false
  {
  }

  /** The window is checked first, then what is to be shown, then whether it is in the way; the first refusal is given. */
  lemma FirstRefusalIsGiven(s: Store, now: Instant, d: Draft, scope: Option<UserId>, exclude: Option<ScheduleId>)
    ensures var f := AdmissionFailure(s, now, d, scope, exclude);
            && (WindowFailure(d, now).Some? ==> f == WindowFailure(d, now))
            && (WindowFailure(d, now) == None && TargetFailure(s, d, scope).Some? ==> f == TargetFailure(s, d, scope))
            && (WindowFailure(d, now) == None && TargetFailure(s, d, scope) == None ==>
                  f == if HasConflict(s, WindowOf(d), exclude) then Some(ScheduleConflict) else None)
  {
  }

  /** The window stored is the one asked for, and what is in its way is another schedule of the display that conflicts. */
  lemma InTheWayMeans(s: Store, d: Draft, exclude: Option<ScheduleId>)
    requires IsValidTime(d.startTime) && IsValidTime(d.endTime) && IsValidDate(d.startDate) && IsValidDate(d.endDate)
    requires if d.kind == ForPlaylist then d.playlistId.Some? else d.contentId.Some?
    ensures var w := Window(if d.kind == ForPlaylist then OnPlaylist(d.playlistId.value) else OnContent(d.contentId.value),
                            d.displayId, d.startDate, d.endDate, d.startTime, d.endTime);
            && WindowOf(d) == w
            && (HasConflict(s, w, exclude) <==>
                  exists k :: k in s.schedules && Some(k) != exclude && WindowsConflict(w, s.schedules[k].window))
  {
  }

  lemma AdmittedLasts(s: Store, now: Instant, d: Draft, scope: Option<UserId>, exclude: Option<ScheduleId>)
    requires AdmissionFailure(s, now, d, scope, exclude).None?
    ensures Lasts(WindowOf(d), now)
  {
    AdmittedExactly(s, now, d, scope, exclude);
    DatesCompareAsNumbers(d.endDate, d.startDate);
  }

  // ----- The statuses of playlists -----

  // Playlists keep items and owner; `p` has the status given, the others theirs.
  predicate OnlyStatusOf(s: Store, t: Store, p: PlaylistId, status: PlaylistStatus) {
    && t.playlists.Keys == s.playlists.Keys
    && forall q :: q in s.playlists ==>
         t.playlists[q] == Playlist(s.playlists[q].ownerId, if q == p then status else s.playlists[q].status, s.playlists[q].items)
  }

  /** Reconciling sets the status of the playlists named by whether they are still needed, and changes nothing else. */
  lemma ReconciledExactly(s: Store, ids: set<PlaylistId>, now: Instant)
    ensures var t := Reconciled(s, ids, now);
            && t.contents == s.contents && t.schedules == s.schedules && t.displays == s.displays
            && t.playlists.Keys == s.playlists.Keys
            && forall p :: p in s.playlists ==>
                 t.playlists[p] == Playlist(s.playlists[p].ownerId,
                                            if p !in ids then s.playlists[p].status else if StillNeeded(s, p, now) then IN_USE else DRAFT,
                                            s.playlists[p].items)
  {
    forall p
      ensures HasUnfinished(s, p, now) <==> StillNeeded(s, p, now)
    {
      NeededMeans(s, p, now);
    }
  }

  lemma OccupiedExactly(s: Store, reconciles: bool, p: PlaylistId, now: Instant)
    requires StillNeeded(s, p, now)
    ensures OnlyStatusOf(s, Occupied(s, reconciles, p, now), p, IN_USE)
    ensures Occupied(s, reconciles, p, now) == s.(playlists := Occupied(s, reconciles, p, now).playlists)
  {
    ReconciledExactly(s, {p}, now);
  }

  // What a playlist's status becomes when one of its schedules has gone.
  function StatusAfterLoss(s: Store, reconciles: bool, p: PlaylistId, now: Instant): PlaylistStatus
    requires p in s.playlists
  {
    if reconciles then (if StillNeeded(s, p, now) then IN_USE else DRAFT)
    else if Scheduled(s, p) then s.playlists[p].status else DRAFT
  }

  lemma ReleasedExactly(s: Store, reconciles: bool, p: PlaylistId, now: Instant)
    ensures var t := Released(s, reconciles, p, now);
            t == s.(playlists := t.playlists)
            && if p in s.playlists then OnlyStatusOf(s, t, p, StatusAfterLoss(s, reconciles, p, now)) else t.playlists == s.playlists
  {
    ReconciledExactly(s, {p}, now);
    if Scheduled(s, p) {
      var k :| k in s.schedules && s.schedules[k].window.target == OnPlaylist(p);
      assert Targets(s, k, OnPlaylist(p));
    }
    var t := Released(s, reconciles, p, now);
    if p !in s.playlists {
      assert t.playlists == s.playlists;
    }
  }

  // ----- Creating a schedule -----

  /**
   * Creating succeeds exactly if the window is admitted for the actor and there is an owner. Then the schedule has the
   * fields asked for and this owner, its playlist is in use whatever the wiring, and nothing else changes.
   */
  lemma CreatedExactly(s: Store, now: Instant, reconciles: bool, ownerId: Option<UserId>, actorIsAdmin: bool, d: Draft, newId: ScheduleId)
    ensures var r := CreateSchedule(s, now, reconciles, ownerId, actorIsAdmin, d, newId);
            && (r.Ok? <==> AdmissionFailure(s, now, d, if actorIsAdmin then None else ownerId, None) == None && ownerId.Some?)
            && (r.Ok? ==>
                  && var target := if d.kind == ForPlaylist then OnPlaylist(d.playlistId.value) else OnContent(d.contentId.value);
                  && r.store.schedules == s.schedules[newId :=
                       Schedule(Window(target, d.displayId, d.startDate, d.endDate, d.startTime, d.endTime), ownerId.value)]
                  && r.store.contents == s.contents && r.store.displays == s.displays
                  && if d.kind == ForPlaylist then OnlyStatusOf(s, r.store, d.playlistId.value, IN_USE)
                     else r.store.playlists == s.playlists)
  {
    var scope := if actorIsAdmin then None else ownerId;
    if CreateSchedule(s, now, reconciles, ownerId, actorIsAdmin, d, newId).Ok? && d.kind == ForPlaylist {
      AdmittedLasts(s, now, d, scope, None);
      var t := Put(s, newId, Schedule(WindowOf(d), ownerId.value));
      assert t.schedules[newId].window.target == OnPlaylist(d.playlistId.value) && Lasts(t.schedules[newId].window, now);
      OccupiedExactly(t, reconciles, d.playlistId.value, now);
    }
  }

  // ----- Updating one -----

  // The draft is the request laid over the old window, field by field.
  predicate Overlays(d: Draft, w: Window, c: Change) {
    && d.displayId == (if c.displayId.Some? then c.displayId.value else w.displayId)
    && d.startDate == (if c.startDate.Some? then c.startDate.value else w.startDate)
    && d.endDate == (if c.endDate.Some? then c.endDate.value else w.endDate)
    && d.startTime == (if c.startTime.Some? then c.startTime.value else w.startTime)
    && d.endTime == (if c.endTime.Some? then c.endTime.value else w.endTime)
    && d.kind == (if c.kind.Some? then c.kind.value else if w.target.OnPlaylist? then ForPlaylist else ForFlash)
    && d.playlistId == (if c.playlistId.Some? then c.playlistId.value
                        else if w.target.OnPlaylist? then Some(w.target.playlistId) else None)
    && d.contentId == (if c.contentId.Some? then c.contentId.value
                       else if w.target.OnContent? then Some(w.target.contentId) else None)
  }

  /** An update succeeds exactly if the schedule is there and the caller's, and what it would become is admitted. */
  lemma UpdateSucceedsExactly(s: Store, now: Instant, reconciles: bool, scope: Option<UserId>, id: ScheduleId, c: Change, d: Draft)
    requires id in s.schedules ==> Overlays(d, s.schedules[id].window, c)
    ensures UpdateSchedule(s, now, reconciles, scope, id, c).Ok? <==>
              && id in s.schedules && Allowed(s.schedules[id].createdBy, scope)
              && AdmissionFailure(s, now, d, scope, Some(id)) == None
  {
  }

  /** After an update each field given is the one stored, each field not given is the old one, and so are all other schedules. */
  lemma UpdatedExactly(s: Store, now: Instant, reconciles: bool, scope: Option<UserId>, id: ScheduleId, c: Change)
    requires UpdateSchedule(s, now, reconciles, scope, id, c).Ok?
    ensures var t := UpdateSchedule(s, now, reconciles, scope, id, c).store;
            && id in s.schedules && t.schedules.Keys == s.schedules.Keys && t.contents == s.contents && t.displays == s.displays
            && (forall k :: k in s.schedules && k != id ==> t.schedules[k] == s.schedules[k])
            && t.schedules[id].createdBy == s.schedules[id].createdBy
            && var old', new' := s.schedules[id].window, t.schedules[id].window;
            && new'.displayId == (if c.displayId.Some? then c.displayId.value else old'.displayId)
            && new'.startDate == (if c.startDate.Some? then c.startDate.value else old'.startDate)
            && new'.endDate == (if c.endDate.Some? then c.endDate.value else old'.endDate)
            && new'.startTime == (if c.startTime.Some? then c.startTime.value else old'.startTime)
            && new'.endTime == (if c.endTime.Some? then c.endTime.value else old'.endTime)
            && (new'.target.OnPlaylist? <==> if c.kind.Some? then c.kind.value == ForPlaylist else old'.target.OnPlaylist?)
            && (new'.target.OnPlaylist? ==>
                  if c.playlistId.Some? then c.playlistId.value == Some(new'.target.playlistId) else old'.target == new'.target)
            && (new'.target.OnContent? ==>
                  if c.contentId.Some? then c.contentId.value == Some(new'.target.contentId) else old'.target == new'.target)
  {
    var existing := s.schedules[id];
    var w := WindowOf(Changed(existing.window, c));
    RetargetedExactly(Put(s, id, Schedule(w, existing.createdBy)), now, reconciles, existing.window.target, w.target);
  }

  // Only playlists differ.
  lemma RetargetedExactly(s: Store, now: Instant, reconciles: bool, before: Target, after: Target)
    ensures var t := Retargeted(s, now, reconciles, before, after); t == s.(playlists := t.playlists)
  {
  }

  lemma ReconciledRetarget(s: Store, now: Instant, before: Target, after: Target, p: PlaylistId)
    requires p in s.playlists && (after == OnPlaylist(p) ==> StillNeeded(s, p, now))
    ensures var t := Retargeted(s, now, true, before, after);
            p in t.playlists && t.playlists[p].status ==
              if after == OnPlaylist(p) then IN_USE
              else if before == OnPlaylist(p) then StatusAfterLoss(s, true, p, now) else s.playlists[p].status
  {
    var affected := (if before.OnPlaylist? then {before.playlistId} else {}) + (if after.OnPlaylist? then {after.playlistId} else {});
    ReconciledExactly(s, affected, now);
  }

  lemma FallbackRetarget(s: Store, now: Instant, before: Target, after: Target, p: PlaylistId)
    requires p in s.playlists
    ensures var t := Retargeted(s, now, false, before, after);
            p in t.playlists && t.playlists[p].status ==
              if after == OnPlaylist(p) then IN_USE
              else if before == OnPlaylist(p) then StatusAfterLoss(s, false, p, now) else s.playlists[p].status
  {
    if before.OnPlaylist? && before != after {
      ReleasedExactly(s, false, before.playlistId, now);
    }
  }

  lemma RetargetKeepsPlaylist(s: Store, now: Instant, reconciles: bool, before: Target, after: Target, p: PlaylistId)
    requires p in s.playlists
    ensures var t := Retargeted(s, now, reconciles, before, after);
            p in t.playlists && t.playlists[p].items == s.playlists[p].items && t.playlists[p].ownerId == s.playlists[p].ownerId
  {
  }

  /**
   * After an update the playlist shown is in use. Another one shown before has lost a schedule; every other playlist
   * has the status it had.
   */
  lemma UpdatedStatuses(s: Store, now: Instant, reconciles: bool, scope: Option<UserId>, id: ScheduleId, c: Change, p: PlaylistId)
    requires UpdateSchedule(s, now, reconciles, scope, id, c).Ok?
    requires p in s.playlists
    ensures var t := UpdateSchedule(s, now, reconciles, scope, id, c).store;
            && p in t.playlists && t.playlists[p].items == s.playlists[p].items && t.playlists[p].ownerId == s.playlists[p].ownerId
            && id in s.schedules && id in t.schedules
            && t.playlists[p].status ==
                 if t.schedules[id].window.target == OnPlaylist(p) then IN_USE
                 else if s.schedules[id].window.target == OnPlaylist(p) then
                   StatusAfterLoss(s.(schedules := t.schedules), reconciles, p, now)
                 else s.playlists[p].status
  {
    var existing := s.schedules[id];
    var d := Changed(existing.window, c);
    var w := WindowOf(d);
    AdmittedLasts(s, now, d, scope, Some(id));
    var t := Put(s, id, Schedule(w, existing.createdBy));
    RetargetedExactly(t, now, reconciles, existing.window.target, w.target);
    RetargetKeepsPlaylist(t, now, reconciles, existing.window.target, w.target, p);
    if w.target == OnPlaylist(p) {
      assert t.schedules[id].window.target == OnPlaylist(p) && Lasts(t.schedules[id].window, now);
    }
    if reconciles {
      ReconciledRetarget(t, now, existing.window.target, w.target, p);
    } else {
      FallbackRetarget(t, now, existing.window.target, w.target, p);
    }
  }

  // ----- Deleting one -----

  /** Deleting succeeds exactly for a schedule that is there and the caller's; it goes, and its playlist has lost a schedule. */
  lemma DeletedExactly(s: Store, now: Instant, reconciles: bool, scope: Option<UserId>, id: ScheduleId)
    ensures var r := DeleteSchedule(s, now, reconciles, scope, id);
            && (r.Ok? <==> id in s.schedules && Allowed(s.schedules[id].createdBy, scope))
            && (r.Ok? ==>
                  && r.store == s.(schedules := s.schedules - {id}, playlists := r.store.playlists)
                  && var target := s.schedules[id].window.target;
                     if target.OnPlaylist? && target.playlistId in s.playlists then
                       var t := s.(schedules := s.schedules - {id});
                       OnlyStatusOf(s, r.store, target.playlistId, StatusAfterLoss(t, reconciles, target.playlistId, now))
                     else r.store.playlists == s.playlists)
  {
    if id in s.schedules && s.schedules[id].window.target.OnPlaylist? {
      ReleasedExactly(Without(s, id), reconciles, s.schedules[id].window.target.playlistId, now);
    }
  }

  // ----- Deleting what schedules refer to -----

  /** A playlist is deleted exactly if it is there, the caller's and not needed any more; its schedules go along, and nothing else. */
  lemma PlaylistDeletedExactly(s: Store, now: Instant, scope: Option<UserId>, p: PlaylistId)
    ensures var r := DeletePlaylist(s, now, scope, p);
            && (r.Ok? <==> p in s.playlists && Allowed(s.playlists[p].ownerId, scope) && !StillNeeded(s, p, now))
            && (r == Err(PlaylistNotFound) <==> !(p in s.playlists && Allowed(s.playlists[p].ownerId, scope)))
            && (r.Ok? ==>
                  && r.store == s.(playlists := s.playlists - {p}, schedules := r.store.schedules)
                  && (forall k :: k in r.store.schedules <==> k in s.schedules && s.schedules[k].window.target != OnPlaylist(p))
                  && (forall k :: k in r.store.schedules ==> r.store.schedules[k] == s.schedules[k]))
  {
    NeededMeans(s, p, now);
  }

  /** Content is deleted exactly if it is there, the caller's, in no playlist and, if flash, in no schedule; nothing else goes. */
  lemma ContentDeletedExactly(s: Store, scope: Option<UserId>, c: ContentId)
    ensures var r := DeleteContent(s, scope, c);
            && (r.Ok? <==>
                  && c in s.contents && Allowed(s.contents[c].ownerId, scope)
                  && (forall p, i :: p in s.playlists && 0 <= i < |s.playlists[p].items| ==> s.playlists[p].items[i].contentId != c)
                  && (s.contents[c].kind == FLASH ==> forall k :: k in s.schedules ==> s.schedules[k].window.target != OnContent(c)))
            && (r == Err(ContentNotFound) <==> !(c in s.contents && Allowed(s.contents[c].ownerId, scope)))
            && (r.Ok? ==> r.store == s.(contents := s.contents - {c}))
  {
    forall p, i | p in s.playlists && 0 <= i < |s.playlists[p].items| && s.playlists[p].items[i].contentId == c
      ensures InSomePlaylist(s, c)
    {
      assert UsesContent(s.playlists[p], c);
    }
    forall k | k in s.schedules && s.schedules[k].window.target == OnContent(c)
      ensures IsScheduled(s, c)
    {
      assert Targets(s, k, OnContent(c));
    }
  }

  /** With a display exactly its schedules go. */
  lemma DisplayDeletedExactly(s: Store, d: DisplayId)
    ensures var t := DeleteDisplay(s, d);
            && t.displays == s.displays - {d} && t.contents == s.contents && t.playlists == s.playlists
            && (forall k :: k in t.schedules <==> k in s.schedules && s.schedules[k].window.displayId != d)
            && (forall k :: k in t.schedules ==> t.schedules[k] == s.schedules[k])
  {
  }

  // ----- Files -----

  /** A file is replaced exactly for content of the caller's that is not flash, not in the works and in no playlist. */
  lemma FileReplacedExactly(s: Store, scope: Option<UserId>, c: ContentId, media: Option<Media>, length: Option<int>)
    ensures var r := ReplaceFile(s, scope, c, media, length);
            && (r.Ok? <==>
                  && c in s.contents && Allowed(s.contents[c].ownerId, scope) && media.Some?
                  && s.contents[c].kind != FLASH && s.contents[c].status != PROCESSING
                  && (forall p, i :: p in s.playlists && 0 <= i < |s.playlists[p].items| ==> s.playlists[p].items[i].contentId != c))
            && (r.Ok? ==>
                  var kind := if media == Some(VideoFile) then VIDEO else IMAGE;
                  r.store == s.(contents := s.contents[c := Content(s.contents[c].ownerId, kind, PROCESSING, None, length)]))
  {
    forall p, i | p in s.playlists && 0 <= i < |s.playlists[p].items| && s.playlists[p].items[i].contentId == c
      ensures InSomePlaylist(s, c)
    {
      assert UsesContent(s.playlists[p], c);
    }
  }

  /** Reading the file makes the content ready with the file's length; giving up on it makes it failed and keeps the length. */
  lemma ProcessedExactly(c: Content)
    ensures Processed(c, true) == Content(c.ownerId, c.kind, READY, c.length, c.length)
    ensures Processed(c, false) == Content(c.ownerId, c.kind, ContentStatus.FAILED, c.duration, c.length)
  {
  }
}
