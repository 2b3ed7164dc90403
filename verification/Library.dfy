/** What the signage database keeps: content, playlists with their items, schedules and displays. */
module Library {
  import opened Options
  import opened ScheduleWindows

  type UserId = nat
  type ContentId = nat
  type PlaylistId = nat
  type ItemId = nat
  type ScheduleId = nat
  type DisplayId = nat

  datatype ContentType = IMAGE | VIDEO | FLASH | TEXT
  datatype ContentStatus = PROCESSING | READY | FAILED
  // `duration` is what the row says; `length` is what reading the stored file finds, the same each time.
  datatype Content = Content(
    ownerId: UserId, kind: ContentType, status: ContentStatus, duration: Option<int>, length: Option<int>)

  datatype Item = Item(id: ItemId, contentId: ContentId, sequence: int, duration: int, loop: bool)
  datatype PlaylistStatus = DRAFT | IN_USE
  datatype Playlist = Playlist(ownerId: UserId, status: PlaylistStatus, items: seq<Item>)

  datatype Target = OnPlaylist(playlistId: PlaylistId) | OnContent(contentId: ContentId)
  datatype Window = Window(
    target: Target, displayId: DisplayId, startDate: Date, endDate: Date, startTime: Time, endTime: Time)
  datatype Schedule = Schedule(window: Window, createdBy: UserId)

  datatype Store = Store(
    contents: map<ContentId, Content>,
    playlists: map<PlaylistId, Playlist>,
    schedules: map<ScheduleId, Schedule>,
    displays: set<DisplayId>)

  datatype Failure =
    | InvalidSequence | InvalidDuration | EmptyPlaylist | TooLong | DuplicateItemId | InvalidItem | SequenceTaken
    | FlashInPlaylist | NotReady | LongerThanVideo | LoopNeedsVideo | ItemNotFound
    | PlaylistNotFound | ContentNotFound | ScheduleNotFound | DisplayNotFound | UserNotFound
    | InvalidTimeRange | InvalidDateRange | StartInPast | EndNotLater | PlaylistIdOnly | ContentIdOnly | NotFlash
    | WindowTooShort | ScheduleConflict | OwnerRequired | PlaylistInUse | ContentInUse | InvalidContentType

  datatype Result = Ok(store: Store) | Err(failure: Failure)

  // A use case that fails changes nothing.
  function After(s: Store, r: Result): Store {
    if r.Ok? then r.store else s
  }

  // `scope` is the owner a request is limited to; None for an administrator.
  function FindPlaylist(s: Store, id: PlaylistId, scope: Option<UserId>): Option<Playlist> {
    if id in s.playlists && (scope.None? || s.playlists[id].ownerId == scope.value) then Some(s.playlists[id]) else None
  }

  function FindContent(s: Store, id: ContentId, scope: Option<UserId>): Option<Content> {
    if id in s.contents && (scope.None? || s.contents[id].ownerId == scope.value) then Some(s.contents[id]) else None
  }

  predicate HasItem(items: seq<Item>, id: ItemId) {
    exists i :: 0 <= i < |items| && items[i].id == id
  }

  predicate UsesContent(p: Playlist, id: ContentId) {
    exists i :: 0 <= i < |p.items| && p.items[i].contentId == id
  }

  // Some playlist item refers to the content.
  predicate InSomePlaylist(s: Store, id: ContentId) {
    exists p :: p in s.playlists && UsesContent(s.playlists[p], id)
  }

  predicate Targets(s: Store, id: ScheduleId, target: Target) {
    id in s.schedules && s.schedules[id].window.target == target
  }

  predicate IsUnfinished(s: Store, id: ScheduleId, now: Instant) {
    id in s.schedules && !IsScheduleFinished(s.schedules[id].window.endDate, s.schedules[id].window.endTime, now)
  }

  // ----- What holds of every playlist -----

  const MAX_PLAYLIST_BASE_DURATION_SECONDS := 60

  function Total(items: seq<Item>): int {
    if items == [] then 0 else Total(items[..|items| - 1]) + items[|items| - 1].duration
  }

  // A video is not shown longer than it lasts, if its length is known.
  predicate WithinContent(c: Content, duration: int) {
    !(c.kind == VIDEO && c.duration.Some? && c.duration.value > 0 && duration > c.duration.value)
  }

  predicate ItemSound(item: Item, contents: map<ContentId, Content>) {
    item.duration > 0 && item.contentId in contents &&
    contents[item.contentId].kind != FLASH && item.loop == (contents[item.contentId].kind == VIDEO)
  }

  predicate ItemsSound(items: seq<Item>, contents: map<ContentId, Content>) {
    forall i :: 0 <= i < |items| ==> ItemSound(items[i], contents)
  }

  predicate ItemsDiffer(items: seq<Item>) {
    forall i, j :: 0 <= i < j < |items| ==> items[i].id != items[j].id && items[i].sequence != items[j].sequence
  }

  // At least one item, a minute at most, whole positive durations, no flash, only videos loop, ids and positions differ.
  predicate PlaylistSound(p: Playlist, contents: map<ContentId, Content>) {
    && p.items != [] && Total(p.items) <= MAX_PLAYLIST_BASE_DURATION_SECONDS
    && ItemsSound(p.items, contents) && ItemsDiffer(p.items)
  }

  // The row says what the file holds.
  predicate Settled(c: Content) {
    c.duration == c.length
  }

  // No video is shown longer than its file lasts, nor can it be once the file is read again.
  predicate ItemFits(item: Item, contents: map<ContentId, Content>) {
    && item.contentId in contents
    && Settled(contents[item.contentId]) && WithinContent(contents[item.contentId], item.duration)
  }

  predicate ItemsFit(items: seq<Item>, contents: map<ContentId, Content>) {
    forall i :: 0 <= i < |items| ==> ItemFits(items[i], contents)
  }

  // Content marked as ready has been read.
  predicate ReadyIsSettled(contents: map<ContentId, Content>) {
    forall c :: c in contents && contents[c].status == READY ==> Settled(contents[c])
  }

  lemma {:induction false} TotalOfParts(a: seq<Item>, b: seq<Item>)
    ensures Total(a + b) == Total(a) + Total(b)
  {
    if b == [] {
      assert a + b == a;
    } else {
      assert (a + b)[..|a + b| - 1] == a + b[..|b| - 1];
      TotalOfParts(a, b[..|b| - 1]);
    }
  }
}
