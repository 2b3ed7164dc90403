/** Creating, changing and deleting schedules and playlists, and the playlist status that goes with them. */
module Schedules {
  import opened Options
  import opened ScheduleWindows
  import opened Library
  import opened PlaylistItems

  // ----- Playlist status -----

  // Some schedule of the playlist has not finished.
  predicate HasUnfinished(s: Store, playlistId: PlaylistId, now: Instant) {
    exists id :: id in s.schedules && Targets(s, id, OnPlaylist(playlistId)) && IsUnfinished(s, id, now)
  }

  function NextStatus(s: Store, playlistId: PlaylistId, now: Instant): PlaylistStatus {
    if HasUnfinished(s, playlistId, now) then IN_USE else DRAFT
  }

  function WithStatus(s: Store, playlistId: PlaylistId, status: PlaylistStatus): Store {
    if playlistId !in s.playlists then s
    else s.(playlists := s.playlists[playlistId := s.playlists[playlistId].(status := status)])
  }

  // Recomputes the status of the named playlists that exist.
  function Reconciled(s: Store, ids: set<PlaylistId>, now: Instant): Store {
    s.(playlists := map id | id in s.playlists ::
         if id in ids then s.playlists[id].(status := NextStatus(s, id, now)) else s.playlists[id])
  }

  // The playlists whose status a reconciliation changes.
  function Outdated(s: Store, ids: set<PlaylistId>, now: Instant): set<PlaylistId> {
    set id | id in ids && id in s.playlists && s.playlists[id].status != NextStatus(s, id, now)
  }

  // Status upkeep when schedules of a playlist may have gone: recompute, or mark DRAFT when no schedule is left.
  function Released(s: Store, reconciles: bool, playlistId: PlaylistId, now: Instant): Store {
    if reconciles then Reconciled(s, {playlistId}, now)
    else if exists id :: id in s.schedules && Targets(s, id, OnPlaylist(playlistId)) then s
    else WithStatus(s, playlistId, DRAFT)
  }

  // Status upkeep when a playlist has just been scheduled.
  function Occupied(s: Store, reconciles: bool, playlistId: PlaylistId, now: Instant): Store {
    if reconciles then Reconciled(s, {playlistId}, now) else WithStatus(s, playlistId, IN_USE)
  }

  // ----- Admission of a window -----

  datatype Kind = ForPlaylist | ForFlash

  // What create is asked for, or update arrives at, before it is checked.
  datatype Draft = Draft(
    kind: Kind, playlistId: Option<PlaylistId>, contentId: Option<ContentId>, displayId: DisplayId,
    startDate: string, endDate: string, startTime: string, endTime: string)

  function WindowFailure(d: Draft, now: Instant): (f: Option<Failure>)
    ensures f.None? <==>
              && IsValidTime(d.startTime) && IsValidTime(d.endTime) && IsValidDate(d.startDate) && IsValidDate(d.endDate)
              && IsAdmitted(d.startDate, d.endDate, d.startTime, d.endTime)
              && Moment(now.date, now.time) <= Moment(d.startDate, d.startTime)
  {
    if !IsValidTime(d.startTime) || !IsValidTime(d.endTime) then Some(InvalidTimeRange)
    else if !IsValidDate(d.startDate) || !IsValidDate(d.endDate) || Less(d.endDate, d.startDate) then Some(InvalidDateRange)
    else
      StartsInPastMeaning(d.startDate, d.startTime, now);
      if StartsInPast(d.startDate, d.startTime, now) then Some(StartInPast)
      else if !Less(d.startTime, d.endTime) then Some(EndNotLater)
      else None
  }

  function TargetFailure(s: Store, d: Draft, scope: Option<UserId>): Option<Failure>
    requires IsValidTime(d.startTime) && IsValidTime(d.endTime)
  {
    if d.displayId !in s.displays then Some(DisplayNotFound)
    else if d.kind == ForPlaylist then
      if d.playlistId.None? || d.contentId.Some? then Some(PlaylistIdOnly)
      else if FindPlaylist(s, d.playlistId.value, scope).None? then Some(PlaylistNotFound)
      else if ComputeWindowDurationSeconds(d.startTime, d.endTime)
              < EffectiveDuration(s.playlists[d.playlistId.value].items, s.contents) then Some(WindowTooShort)
      else None
    else
      if d.contentId.None? || d.playlistId.Some? then Some(ContentIdOnly)
      else if FindContent(s, d.contentId.value, scope).None? then Some(ContentNotFound)
      else if s.contents[d.contentId.value].kind != FLASH then Some(NotFlash)
      else if s.contents[d.contentId.value].status != READY then Some(NotReady)
      else None
  }

  // Playlist schedules may overlap; two flash schedules of one display may not.
  predicate WindowsConflict(a: Window, b: Window) {
    && a.displayId == b.displayId && a.target.OnContent? && b.target.OnContent?
    && HasDateRangeOverlap(a.startDate, a.endDate, b.startDate, b.endDate)
    && HasTimeRangeOverlap(a.startTime, a.endTime, b.startTime, b.endTime)
  }

  predicate HasConflict(s: Store, candidate: Window, exclude: Option<ScheduleId>) {
    exists id :: id in s.schedules && Some(id) != exclude && s.schedules[id].window.displayId == candidate.displayId
                 && WindowsConflict(candidate, s.schedules[id].window)
  }

  // The checks create and update share, in their order; afterwards the window is the one to store.
  function AdmissionFailure(s: Store, now: Instant, d: Draft, scope: Option<UserId>, exclude: Option<ScheduleId>): (f: Option<Failure>)
    ensures f.None? ==> WindowFailure(d, now).None? && TargetFailure(s, d, scope).None?
  {
    var f := WindowFailure(d, now);
    if f.Some? then f
    else
      var g := TargetFailure(s, d, scope);
      if g.Some? then g
      else if HasConflict(s, WindowOf(d), exclude) then Some(ScheduleConflict)
      else None
  }

  function WindowOf(d: Draft): Window
    requires IsValidTime(d.startTime) && IsValidTime(d.endTime) && IsValidDate(d.startDate) && IsValidDate(d.endDate)
    requires if d.kind == ForPlaylist then d.playlistId.Some? else d.contentId.Some?
  {
    Window(if d.kind == ForPlaylist then OnPlaylist(d.playlistId.value) else OnContent(d.contentId.value),
           d.displayId, d.startDate, d.endDate, d.startTime, d.endTime)
  }

  // ----- Create, update, delete -----

  function Put(s: Store, id: ScheduleId, schedule: Schedule): Store {
    s.(schedules := s.schedules[id := schedule])
  }

  function Without(s: Store, id: ScheduleId): Store {
    s.(schedules := s.schedules - {id})
  }

  function CreateSchedule(s: Store, now: Instant, reconciles: bool, ownerId: Option<UserId>, actorIsAdmin: bool,
                          d: Draft, newId: ScheduleId): Result
  {
    var f := AdmissionFailure(s, now, d, if actorIsAdmin then None else ownerId, None);
    if f.Some? then Err(f.value)
    else if ownerId.None? then Err(OwnerRequired)
    else
      var t := Put(s, newId, Schedule(WindowOf(d), ownerId.value));
      Ok(if d.kind == ForPlaylist then Occupied(t, reconciles, d.playlistId.value, now) else t)
  }

  // A request to change a schedule: None keeps the field; a target can also be set to nothing.
  datatype Change = Change(
    kind: Option<Kind>, playlistId: Option<Option<PlaylistId>>, contentId: Option<Option<ContentId>>,
    displayId: Option<DisplayId>, startDate: Option<string>, endDate: Option<string>,
    startTime: Option<string>, endTime: Option<string>)

  function OrElse<T>(o: Option<T>, other: T): T {
    if o.Some? then o.value else other
  }

  function Changed(w: Window, c: Change): Draft {
    Draft(OrElse(c.kind, if w.target.OnPlaylist? then ForPlaylist else ForFlash),
          OrElse(c.playlistId, if w.target.OnPlaylist? then Some(w.target.playlistId) else None),
          OrElse(c.contentId, if w.target.OnContent? then Some(w.target.contentId) else None),
          OrElse(c.displayId, w.displayId), OrElse(c.startDate, w.startDate), OrElse(c.endDate, w.endDate),
          OrElse(c.startTime, w.startTime), OrElse(c.endTime, w.endTime))
  }

  predicate Visible(schedule: Schedule, scope: Option<UserId>) {
    scope.None? || schedule.createdBy == scope.value
  }

  // The playlists whose status an update may affect, and that status afterwards.
  function Retargeted(s: Store, now: Instant, reconciles: bool, before: Target, after: Target): Store {
    var affected := (if before.OnPlaylist? then {before.playlistId} else {}) + (if after.OnPlaylist? then {after.playlistId} else {});
    if reconciles then Reconciled(s, affected, now)
    else
      var t := if before.OnPlaylist? && before != after then Released(s, false, before.playlistId, now) else s;
      if after.OnPlaylist? then WithStatus(t, after.playlistId, IN_USE) else t
  }

  function UpdateSchedule(s: Store, now: Instant, reconciles: bool, scope: Option<UserId>, id: ScheduleId, c: Change): Result {
    if id !in s.schedules || !Visible(s.schedules[id], scope) then Err(ScheduleNotFound)
    else
      var existing := s.schedules[id];
      var d := Changed(existing.window, c);
      var f := AdmissionFailure(s, now, d, scope, Some(id));
      if f.Some? then Err(f.value)
      else
        var t := Put(s, id, Schedule(WindowOf(d), existing.createdBy));
        Ok(Retargeted(t, now, reconciles, existing.window.target, WindowOf(d).target))
  }

  function DeleteSchedule(s: Store, now: Instant, reconciles: bool, scope: Option<UserId>, id: ScheduleId): Result {
    if id !in s.schedules || !Visible(s.schedules[id], scope) then Err(ScheduleNotFound)
    else
      var t := Without(s, id);
      var target := s.schedules[id].window.target;
      Ok(if target.OnPlaylist? then Released(t, reconciles, target.playlistId, now) else t)
  }

  // ----- Deleting what schedules refer to -----

  function SchedulesOf(s: Store, playlistId: PlaylistId): set<ScheduleId> {
    set id | id in s.schedules && Targets(s, id, OnPlaylist(playlistId))
  }

  function DeletePlaylist(s: Store, now: Instant, scope: Option<UserId>, id: PlaylistId): Result {
    if FindPlaylist(s, id, scope).None? then Err(PlaylistNotFound)
    else if HasUnfinished(s, id, now) then Err(PlaylistInUse)
    else Ok(s.(schedules := s.schedules - SchedulesOf(s, id), playlists := s.playlists - {id}))
  }

  predicate IsScheduled(s: Store, id: ContentId) {
    exists k :: k in s.schedules && Targets(s, k, OnContent(id))
  }

  function DeleteContent(s: Store, scope: Option<UserId>, id: ContentId): Result {
    if FindContent(s, id, scope).None? then Err(ContentNotFound)
    else if InSomePlaylist(s, id) then Err(ContentInUse)
    else if s.contents[id].kind == FLASH && IsScheduled(s, id) then Err(ContentInUse)
    else Ok(s.(contents := s.contents - {id}))
  }

  // Removing a display takes its schedules along.
  function DeleteDisplay(s: Store, id: DisplayId): Store {
    s.(displays := s.displays - {id},
       schedules := map k | k in s.schedules && s.schedules[k].window.displayId != id :: s.schedules[k])
  }

  // ----- Content changing under the playlists -----

  datatype Media = ImageFile | VideoFile

  function KindOf(media: Media): ContentType {
    if media == VideoFile then VIDEO else IMAGE
  }

  // A new file for content that is not flash, not being processed and in no playlist; `media` is None for other files.
  function ReplaceFile(s: Store, scope: Option<UserId>, id: ContentId, media: Option<Media>, length: Option<int>): Result {
    if FindContent(s, id, scope).None? then Err(ContentNotFound)
    else if s.contents[id].kind == FLASH then Err(InvalidContentType)
    else if s.contents[id].status == PROCESSING || InSomePlaylist(s, id) then Err(ContentInUse)
    else if media.None? then Err(InvalidContentType)
    else
      Ok(s.(contents := s.contents[id :=
              s.contents[id].(kind := KindOf(media.value), status := PROCESSING, duration := None, length := length)]))
  }

  // The worker has read the file, or has given up on it; a job may be processed again, whatever the status.
  function Processed(c: Content, ready: bool): Content {
    if ready then c.(status := READY, duration := c.length) else c.(status := ContentStatus.FAILED)
  }
}
