/** Removing everything a user owns: first the checks, then schedules, playlists and content through their use cases. */
module OwnerCleanup {
  import opened Options
  import opened ScheduleWindows
  import opened Library
  import opened Schedules
  import opened LibraryRuns
  import opened Backend

  // An `ensures P(..) == true` promises P(..) as a whole: unlike a bare P(..), it is not taken apart where it is proved.

  function OwnedSchedules(s: Store, user: UserId): set<ScheduleId> {
    set k | k in s.schedules && s.schedules[k].createdBy == user
  }

  function OwnedPlaylists(s: Store, user: UserId): set<PlaylistId> {
    set p | p in s.playlists && s.playlists[p].ownerId == user
  }

  function OwnedContents(s: Store, user: UserId): set<ContentId> {
    set c | c in s.contents && s.contents[c].ownerId == user
  }

  // Somebody else's schedule is for the target.
  predicate TargetedByOthers(s: Store, target: Target, user: UserId) {
    exists k :: k in s.schedules && Targets(s, k, target) && s.schedules[k].createdBy != user
  }

  predicate UsedByOthers(s: Store, c: ContentId, user: UserId) {
    exists p :: p in s.playlists && UsesContent(s.playlists[p], c) && s.playlists[p].ownerId != user
  }

  // Something the user owns is used by somebody else.
  predicate Conflicted(s: Store, user: UserId) {
    || (exists p :: p in OwnedPlaylists(s, user) && TargetedByOthers(s, OnPlaylist(p), user))
    || (exists c :: c in OwnedContents(s, user) && (UsedByOthers(s, c, user) || TargetedByOthers(s, OnContent(c), user)))
  }

  // The same playlists, up to their status.
  predicate SamePlaylists(s: map<PlaylistId, Playlist>, t: map<PlaylistId, Playlist>) {
    t.Keys == s.Keys && forall p :: p in t ==> t[p].items == s[p].items && t[p].ownerId == s[p].ownerId
  }

  // `t` is `s` without the user's schedules and playlists and without the content named.
  predicate CleanedUpTo(s: Store, t: Store, user: UserId, gone: set<ContentId>) {
    && t.schedules == s.schedules - OwnedSchedules(s, user)
    && SamePlaylists(s.playlists - OwnedPlaylists(s, user), t.playlists)
    && t.contents == s.contents - gone && gone <= OwnedContents(s, user)
    && t.displays == s.displays
  }

  // `t` is `s` without what the user owns.
  predicate CleanedUp(s: Store, t: Store, user: UserId) {
    CleanedUpTo(s, t, user, OwnedContents(s, user))
  }

  /**
   * However far the content was deleted: every remaining reference resolves, playlists are in order as before, the
   * user owns no schedule and no playlist any more, and of the content exactly what was not deleted.
   */
  lemma CleanedUpResolves(s: Store, t: Store, user: UserId, gone: set<ContentId>)
    requires CleanedUpTo(s, t, user, gone) && !Conflicted(s, user) && SchedulesOk(s) && PlaylistsShort(s)
    ensures OwnedSchedules(t, user) == {} && OwnedPlaylists(t, user) == {}
    ensures OwnedContents(t, user) == OwnedContents(s, user) - gone
    ensures SchedulesOk(t) && PlaylistsShort(t)
  {
    forall k | k in t.schedules
      ensures ScheduleOk(t, t.schedules[k].window)
    {
      ScheduleStays(s, t, user, gone, k);
    }
    forall p | p in t.playlists && t.playlists[p].items != []
      ensures PlaylistSound(t.playlists[p], t.contents)
    {
      PlaylistStays(s, t, user, gone, p);
    }
  }

  lemma ScheduleStays(s: Store, t: Store, user: UserId, gone: set<ContentId>, k: ScheduleId)
    requires CleanedUpTo(s, t, user, gone) && !Conflicted(s, user) && SchedulesOk(s) && k in t.schedules
    ensures ScheduleOk(t, t.schedules[k].window)
  {
    assert ScheduleOk(s, s.schedules[k].window) && Targets(s, k, s.schedules[k].window.target);
  }

  lemma PlaylistStays(s: Store, t: Store, user: UserId, gone: set<ContentId>, p: PlaylistId)
    requires CleanedUpTo(s, t, user, gone) && !Conflicted(s, user) && p in t.playlists
    requires PlaylistSound(s.playlists[p], s.contents)
    ensures PlaylistSound(t.playlists[p], t.contents)
  {
    var items := s.playlists[p].items;
    forall i | 0 <= i < |items|
      ensures ItemSound(items[i], t.contents)
    {
      assert ItemSound(items[i], s.contents) && UsesContent(s.playlists[p], items[i].contentId);
    }
  }

  /**
   * There is a conflict exactly if somebody else's schedule is for a playlist or content of the user's, or somebody
   * else's playlist holds content of the user's.
   */
  lemma ConflictedExactly(s: Store, user: UserId)
    ensures Conflicted(s, user) <==>
              || (exists k :: k in s.schedules && s.schedules[k].createdBy != user
                    && match s.schedules[k].window.target
                       case OnPlaylist(p) => p in s.playlists && s.playlists[p].ownerId == user
                       case OnContent(c) => c in s.contents && s.contents[c].ownerId == user)
              || (exists p :: p in s.playlists && s.playlists[p].ownerId != user
                    && exists i :: 0 <= i < |s.playlists[p].items|
                         && s.playlists[p].items[i].contentId in s.contents
                         && s.contents[s.playlists[p].items[i].contentId].ownerId == user)
  {
    if k :| k in s.schedules && s.schedules[k].createdBy != user
            && match s.schedules[k].window.target
               case OnPlaylist(p) => p in s.playlists && s.playlists[p].ownerId == user
               case OnContent(c) => c in s.contents && s.contents[c].ownerId == user {
      var target := s.schedules[k].window.target;
      assert Targets(s, k, target) && TargetedByOthers(s, target, user);
      if target.OnPlaylist? {
        assert target.playlistId in OwnedPlaylists(s, user);
      } else {
        assert target.contentId in OwnedContents(s, user);
      }
    }
    if p, i :| p in s.playlists && s.playlists[p].ownerId != user && 0 <= i < |s.playlists[p].items|
               && s.playlists[p].items[i].contentId in s.contents
               && s.contents[s.playlists[p].items[i].contentId].ownerId == user {
      var c := s.playlists[p].items[i].contentId;
      assert UsesContent(s.playlists[p], c) && UsedByOthers(s, c, user) && c in OwnedContents(s, user);
    }
  }

  /** What a cleanup leaves, row by row; a finished one has deleted all content of the user's. */
  lemma CleanedUpExactly(s: Store, t: Store, user: UserId, gone: set<ContentId>)
    requires CleanedUpTo(s, t, user, gone)
    ensures forall k :: k in t.schedules <==> k in s.schedules && s.schedules[k].createdBy != user
    ensures forall p :: p in t.playlists <==> p in s.playlists && s.playlists[p].ownerId != user
    ensures forall c :: c in t.contents ==> c in s.contents && t.contents[c] == s.contents[c]
    ensures forall c :: c in s.contents && s.contents[c].ownerId != user ==> c in t.contents
    ensures forall k :: k in t.schedules ==> t.schedules[k] == s.schedules[k]
    ensures forall p :: p in t.playlists ==>
              t.playlists[p].ownerId == s.playlists[p].ownerId && t.playlists[p].items == s.playlists[p].items
    ensures t.displays == s.displays
    ensures CleanedUp(s, t, user) ==> forall c :: c in t.contents ==> t.contents[c].ownerId != user
  {
    forall c | c in s.contents && s.contents[c].ownerId != user
      ensures c in t.contents
    {
      assert c !in OwnedContents(s, user);
    }
  }

  /** A cleanup that stopped halfway can be taken up again: there is no conflict, and the two together are a cleanup. */
  lemma CleanupCanResume(s: Store, t: Store, u: Store, user: UserId, gone: set<ContentId>)
    requires !Conflicted(s, user) && CleanedUpTo(s, t, user, gone)
    ensures !Conflicted(t, user)
    ensures CleanedUp(t, u, user) ==> CleanedUp(s, u, user)
  {
    assert OwnedSchedules(t, user) == {} && OwnedPlaylists(t, user) == {};
    assert OwnedContents(t, user) == OwnedContents(s, user) - gone;
    forall c | c in OwnedContents(t, user)
      ensures !UsedByOthers(t, c, user) && !TargetedByOthers(t, OnContent(c), user)
    {
      NothingUses(s, t, user, c);
      NothingScheduled(s, user, t.schedules, OnContent(c));
    }
    assert t.schedules - {} == t.schedules && t.playlists - {} == t.playlists;
    assert t.contents - OwnedContents(t, user) == s.contents - OwnedContents(s, user);
  }

  // ----- The three deletions, once nothing stands in their way -----

  lemma ReleasedSame(s: Store, reconciles: bool, p: PlaylistId, now: Instant)
    ensures var t := Released(s, reconciles, p, now);
            SamePlaylists(s.playlists, t.playlists)
            && t.schedules == s.schedules && t.contents == s.contents && t.displays == s.displays
  {
  }

  lemma ReleasedRemembers(s: Store, reconciles: bool, p: PlaylistId, now: Instant)
    ensures UseRemembered(s, Released(s, reconciles, p, now), now)
  {
    ReleasedSame(s, reconciles, p, now);
    var t := Released(s, reconciles, p, now);
    forall k | k in t.schedules && t.schedules[k].window.target.OnPlaylist? && IsUnfinished(t, k, now)
      ensures var q := t.schedules[k].window.target.playlistId;
              q in s.playlists && s.playlists[q].status == IN_USE ==> q in t.playlists && t.playlists[q].status == IN_USE
    {
      assert Targets(s, k, t.schedules[k].window.target) && IsUnfinished(s, k, now);
    }
  }

  lemma OwnScheduleGoes(s: Store, now: Instant, reconciles: bool, user: UserId, k: ScheduleId)
    requires k in OwnedSchedules(s, user)
    ensures var r := DeleteSchedule(s, now, reconciles, Some(user), k);
            r.Ok? && SchedulesGone(s, r.store, now, {k})
  {
    if s.schedules[k].window.target.OnPlaylist? {
      var t, p := Without(s, k), s.schedules[k].window.target.playlistId;
      ReleasedSame(t, reconciles, p, now);
      ReleasedRemembers(t, reconciles, p, now);
    }
  }

  lemma OwnPlaylistGoes(s: Store, now: Instant, user: UserId, p: PlaylistId)
    requires p in OwnedPlaylists(s, user) && forall k :: k in s.schedules ==> !Targets(s, k, OnPlaylist(p))
    ensures DeletePlaylist(s, now, Some(user), p) == Ok(s.(playlists := s.playlists - {p}))
  {
    assert SchedulesOf(s, p) == {};
  }

  lemma OwnContentGoes(s: Store, user: UserId, c: ContentId)
    requires c in OwnedContents(s, user) && !InSomePlaylist(s, c)
    requires forall k :: k in s.schedules ==> !Targets(s, k, OnContent(c))
    ensures DeleteContent(s, Some(user), c) == Ok(s.(contents := s.contents - {c}))
  {
  }

  // Once the user's schedules are gone, none is left on what the user owns.
  lemma NothingScheduled(s: Store, user: UserId, schedules: map<ScheduleId, Schedule>, target: Target)
    requires !Conflicted(s, user) && schedules == s.schedules - OwnedSchedules(s, user)
    requires match target case OnPlaylist(p) => p in OwnedPlaylists(s, user) case OnContent(c) => c in OwnedContents(s, user)
    ensures forall k :: k in schedules ==> schedules[k].window.target != target
  {
    forall k | k in schedules
      ensures schedules[k].window.target != target
    {
      if schedules[k].window.target == target {
        assert Targets(s, k, target);
        assert TargetedByOthers(s, target, user);
      }
    }
  }

  lemma OwnPlaylistGoesThen(s: Store, t: Store, now: Instant, user: UserId, p: PlaylistId)
    requires !Conflicted(s, user) && t.schedules == s.schedules - OwnedSchedules(s, user)
    requires p in OwnedPlaylists(s, user) && p in OwnedPlaylists(t, user)
    ensures DeletePlaylist(t, now, Some(user), p) == Ok(t.(playlists := t.playlists - {p}))
  {
    NothingScheduled(s, user, t.schedules, OnPlaylist(p));
    OwnPlaylistGoes(t, now, user, p);
  }

  lemma OwnedStay(s: Store, t: Store, user: UserId)
    requires SamePlaylists(s.playlists, t.playlists)
    ensures OwnedPlaylists(t, user) == OwnedPlaylists(s, user)
  {
  }

  lemma SameWithout(s: map<PlaylistId, Playlist>, t: map<PlaylistId, Playlist>, gone: set<PlaylistId>)
    requires SamePlaylists(s, t)
    ensures SamePlaylists(s - gone, t - gone)
  {
  }

  // Playlists in use for a schedule still to play are still marked so.
  ghost predicate UseRemembered(s: Store, t: Store, now: Instant) {
    forall k :: k in t.schedules && t.schedules[k].window.target.OnPlaylist? && IsUnfinished(t, k, now) ==>
      var p := t.schedules[k].window.target.playlistId;
      p in s.playlists && s.playlists[p].status == IN_USE ==> p in t.playlists && t.playlists[p].status == IN_USE
  }

  // The schedules named have gone from `s`; playlists may have changed status.
  ghost predicate SchedulesGone(s: Store, t: Store, now: Instant, gone: set<ScheduleId>) {
    && t.schedules == s.schedules - gone && SamePlaylists(s.playlists, t.playlists)
    && t.contents == s.contents && t.displays == s.displays && UseRemembered(s, t, now)
  }

  lemma NoScheduleGone(s: Store, now: Instant)
    ensures SchedulesGone(s, s, now, {})
  {
    assert s.schedules - {} == s.schedules;
  }

  lemma OneMoreScheduleGone(s: Store, t: Store, u: Store, now: Instant, done: set<ScheduleId>, k: ScheduleId)
    requires SchedulesGone(s, t, now, done) && SchedulesGone(t, u, now, {k})
    ensures SchedulesGone(s, u, now, done + {k}) == true
  {
    assert s.schedules - done - {k} == s.schedules - (done + {k});
    forall j | j in u.schedules && u.schedules[j].window.target.OnPlaylist? && IsUnfinished(u, j, now)
      ensures var p := u.schedules[j].window.target.playlistId;
              p in s.playlists && s.playlists[p].status == IN_USE ==> p in u.playlists && u.playlists[p].status == IN_USE
    {
      assert IsUnfinished(t, j, now);
    }
  }

  lemma StillOwned(s: Store, t: Store, now: Instant, done: set<ScheduleId>, user: UserId, k: ScheduleId)
    requires SchedulesGone(s, t, now, done) && k in OwnedSchedules(s, user) && k !in done
    ensures k in OwnedSchedules(t, user)
  {
  }

  lemma GoneKeeps(s: Store, t: Store, now: Instant, gone: set<ScheduleId>)
    requires Kept(s, now) && SchedulesGone(s, t, now, gone)
    ensures Kept(t, now)
  {
    forall k | k in t.schedules
      ensures ScheduleOk(t, t.schedules[k].window)
    {
      assert ScheduleOk(s, s.schedules[k].window);
    }
    forall k | k in t.schedules && t.schedules[k].window.target.OnPlaylist? && IsUnfinished(t, k, now)
      ensures var p := t.schedules[k].window.target.playlistId;
              p in t.playlists && t.playlists[p].status == IN_USE
    {
      assert IsUnfinished(s, k, now);
    }
  }

  // Playlists and content that no schedule is for can go.
  lemma UnscheduledKeeps(s: Store, t: Store, now: Instant, playlists: set<PlaylistId>, contents: set<ContentId>)
    requires Kept(s, now)
    requires t == s.(playlists := s.playlists - playlists, contents := s.contents - contents)
    requires forall k :: k in s.schedules ==> match s.schedules[k].window.target
                                              case OnPlaylist(p) => p !in playlists
                                              case OnContent(c) => c !in contents
    ensures Kept(t, now)
  {
    forall k | k in t.schedules
      ensures ScheduleOk(t, t.schedules[k].window)
    {
      assert ScheduleOk(s, s.schedules[k].window);
    }
    assert SchedulesFrom(s, t);
    CalmKeeps(s, now, t);
  }

  // The cleanup, however far it went: first the schedules, then playlists and content.
  lemma CleanupKeeps(s: Store, t: Store, u: Store, now: Instant, user: UserId, gone: set<ContentId>)
    requires Kept(s, now) && !Conflicted(s, user) && SchedulesGone(s, t, now, OwnedSchedules(s, user))
    requires gone <= OwnedContents(s, user)
    requires u == t.(playlists := t.playlists - OwnedPlaylists(s, user), contents := t.contents - gone)
    ensures Kept(u, now)
  {
    GoneKeeps(s, t, now, OwnedSchedules(s, user));
    forall k | k in t.schedules
      ensures match t.schedules[k].window.target
              case OnPlaylist(p) => p !in OwnedPlaylists(s, user)
              case OnContent(c) => c !in OwnedContents(s, user)
    {
      assert Targets(s, k, t.schedules[k].window.target);
    }
    UnscheduledKeeps(t, u, now, OwnedPlaylists(s, user), gone);
  }

  function WithoutPlaylists(s: Store, gone: set<PlaylistId>): Store {
    s.(playlists := s.playlists - gone)
  }

  lemma OneMorePlaylistGone(s: Store, done: set<PlaylistId>, user: UserId, p: PlaylistId)
    requires p in OwnedPlaylists(s, user) && p !in done
    ensures p in OwnedPlaylists(WithoutPlaylists(s, done), user)
    ensures WithoutPlaylists(WithoutPlaylists(s, done), {p}) == WithoutPlaylists(s, done + {p})
  {
    assert s.playlists - done - {p} == s.playlists - (done + {p});
  }

  // Once the user's playlists are gone, none left uses the user's content.
  lemma NothingUses(s: Store, t: Store, user: UserId, c: ContentId)
    requires !Conflicted(s, user) && c in OwnedContents(s, user)
    requires SamePlaylists(s.playlists - OwnedPlaylists(s, user), t.playlists)
    ensures !InSomePlaylist(t, c)
  {
    forall p | p in t.playlists
      ensures !UsesContent(t.playlists[p], c)
    {
      if UsesContent(t.playlists[p], c) {
        assert UsesContent(s.playlists[p], c);
        assert UsedByOthers(s, c, user);
      }
    }
  }

  // ----- The use case -----

  datatype Outcome = Done | Conflict | StorageFailed | Aborted(failure: Failure)

  // A guard that fires ends the whole cleanup.
  function Ending(failure: Option<Failure>): Outcome {
    if failure.Some? then Aborted(failure.value) else Done
  }

  // The rows were deleted one by one up to the first whose files are stuck, that one included.
  ghost predicate StoppedAt(rows: seq<ContentId>, stuck: set<ContentId>, gone: set<ContentId>, k: nat) {
    && k < |rows| && rows[k] in stuck && (forall i :: 0 <= i < k ==> rows[i] !in stuck)
    && forall c :: c in gone <==> exists i :: 0 <= i <= k && rows[i] == c
  }

  // All pages of the listing, a hundred rows at a time.
  method ListOwnedContent(rows: seq<ContentId>) returns (items: seq<ContentId>)
    ensures items == rows
  {
    items := [];
    var offset, limit := 0, 100;
    while true
      invariant offset <= |rows| && items == rows[..offset]
      decreases |rows| - offset
    {
      var page := rows[offset..if offset + limit <= |rows| then offset + limit else |rows|];
      assert rows[..offset] + page == rows[..offset + |page|];
      items := items + page;
      offset := offset + |page|;
      if offset >= |rows| || |page| == 0 {
        break;
      }
    }
  }

  class UserOwnedResourceCleanup {
    const db: Database
    const reconciles: bool

    constructor (db: Database, reconciles: bool)
      ensures this.db == db && this.reconciles == reconciles
    {
      this.db := db;
      this.reconciles := reconciles;
    }

    // Whether one of the schedules for the target was made by somebody else.
    method FindForeignSchedule(target: Target, userId: UserId) returns (found: bool)
      ensures found <==> TargetedByOthers(db.Value(), target, userId)
    {
      var existing := db.schedules;
      var rows := set k | k in existing && existing[k].window.target == target;
      var foreign := k => k in existing && existing[k].createdBy != userId;
      found := Database.AnyOf(rows, foreign);
      if TargetedByOthers(db.Value(), target, userId) {
        ghost var k :| k in db.schedules && Targets(db.Value(), k, target) && db.schedules[k].createdBy != userId;
        assert k in rows && foreign(k);
      }
    }

    // Whether one of the playlists with the content belongs to somebody else.
    method FindForeignPlaylist(c: ContentId, userId: UserId) returns (found: bool)
      ensures found <==> UsedByOthers(db.Value(), c, userId)
    {
      var existing := db.playlists;
      var rows := set p | p in existing && UsesContent(existing[p], c);
      var foreign := p => p in existing && existing[p].ownerId != userId;
      found := Database.AnyOf(rows, foreign);
      if UsedByOthers(db.Value(), c, userId) {
        ghost var p :| p in db.playlists && UsesContent(db.playlists[p], c) && db.playlists[p].ownerId != userId;
        assert p in rows && foreign(p);
      }
    }

    method FindConflict(userId: UserId, content: seq<ContentId>) returns (found: bool)
      requires forall c :: c in content <==> c in OwnedContents(db.Value(), userId)
      ensures found <==> Conflicted(db.Value(), userId)
    {
      var s := db.Value();
      var todo := OwnedPlaylists(s, userId);
      while todo != {}
        invariant forall p :: p in OwnedPlaylists(s, userId) && p !in todo ==> !TargetedByOthers(s, OnPlaylist(p), userId)
        invariant todo <= OwnedPlaylists(s, userId)
        decreases |todo|
      {
        var p :| p in todo;
        todo := todo - {p};
        found := FindForeignSchedule(OnPlaylist(p), userId);
        if found { return; }
      }
      for n := 0 to |content|
        invariant forall i :: 0 <= i < n ==>
          !UsedByOthers(s, content[i], userId) && !TargetedByOthers(s, OnContent(content[i]), userId)
      {
        assert content[n] in OwnedContents(s, userId);
        found := FindForeignPlaylist(content[n], userId);
        if found { return; }
        found := FindForeignSchedule(OnContent(content[n]), userId);
        if found { return; }
      }
      found := false;
    }

    method DeleteOwnSchedule(userId: UserId, now: Instant, k: ScheduleId) returns (outcome: Outcome)
      requires k in OwnedSchedules(db.Value(), userId)
      modifies db
      ensures outcome == Done && SchedulesGone(old(db.Value()), db.Value(), now, {k}) == true
    {
      OwnScheduleGoes(db.Value(), now, reconciles, userId, k);
      var failure := db.DeleteSchedule(now, reconciles, Some(userId), k);
      outcome := Ending(failure);
    }

    // One more of the user's schedules; `s` is the store at the start and `done` those that are gone.
    method DeleteNextSchedule(userId: UserId, now: Instant, todo: set<ScheduleId>, ghost s: Store, ghost done: set<ScheduleId>)
      returns (outcome: Outcome, rest: set<ScheduleId>)
      requires todo != {} && todo !! done && todo + done == OwnedSchedules(s, userId)
      requires SchedulesGone(s, db.Value(), now, done)
      modifies db
      ensures outcome == Done && rest < todo
      ensures SchedulesGone(s, db.Value(), now, done + (todo - rest)) == true
    {
      var k :| k in todo;
      rest := todo - {k};
      assert todo - rest == {k};
      ghost var t := db.Value();
      StillOwned(s, t, now, done, userId, k);
      outcome := DeleteOwnSchedule(userId, now, k);
      OneMoreScheduleGone(s, t, db.Value(), now, done, k);
    }

    method DeleteSchedules(userId: UserId, now: Instant) returns (outcome: Outcome)
      modifies db
      ensures outcome == Done
      ensures SchedulesGone(old(db.Value()), db.Value(), now, OwnedSchedules(old(db.Value()), userId)) == true
    {
      ghost var s := db.Value();
      var todo := OwnedSchedules(db.Value(), userId);
      ghost var all := todo;
      NoScheduleGone(s, now);
      assert all - todo == {};
      outcome := Done;
      while todo != {} && outcome == Done
        invariant todo <= all && outcome == Done
        invariant SchedulesGone(s, db.Value(), now, all - todo) == true
        decreases todo
      {
        ghost var done := all - todo;
        ghost var before := todo;
        outcome, todo := DeleteNextSchedule(userId, now, todo, s, done);
        assert done + (before - todo) == all - todo;
      }
      assert all - todo == all;
    }

    method DeleteOwnPlaylist(userId: UserId, now: Instant, p: PlaylistId, ghost s: Store) returns (outcome: Outcome)
      requires !Conflicted(s, userId) && db.schedules == s.schedules - OwnedSchedules(s, userId)
      requires p in OwnedPlaylists(s, userId) && p in OwnedPlaylists(db.Value(), userId)
      modifies db
      ensures outcome == Done && db.Value() == WithoutPlaylists(old(db.Value()), {p})
    {
      OwnPlaylistGoesThen(s, db.Value(), now, userId, p);
      var failure := db.DeletePlaylist(now, Some(userId), p);
      outcome := Ending(failure);
    }

    method DeletePlaylists(userId: UserId, now: Instant, ghost s: Store) returns (outcome: Outcome)
      requires !Conflicted(s, userId)
      requires db.schedules == s.schedules - OwnedSchedules(s, userId) && SamePlaylists(s.playlists, db.playlists)
      modifies db
      ensures outcome == Done && db.Value() == WithoutPlaylists(old(db.Value()), OwnedPlaylists(s, userId))
    {
      ghost var before, done := db.Value(), {};
      var todo := OwnedPlaylists(db.Value(), userId);
      OwnedStay(s, before, userId);
      while todo != {}
        invariant todo !! done && todo + done == OwnedPlaylists(s, userId) == OwnedPlaylists(before, userId)
        invariant db.Value() == WithoutPlaylists(before, done)
        decreases |todo|
      {
        var p :| p in todo;
        OneMorePlaylistGone(before, done, userId, p);
        outcome := DeleteOwnPlaylist(userId, now, p, s);
        if outcome != Done { return; }
        todo, done := todo - {p}, done + {p};
      }
      assert done == OwnedPlaylists(s, userId);
      outcome := Done;
    }

    // The row goes first; when the stored files of a content in `stuck` cannot be deleted, the use case throws.
    method DeleteOwnContent(userId: UserId, c: ContentId, stuck: set<ContentId>, ghost s: Store) returns (outcome: Outcome)
      requires !Conflicted(s, userId) && c in OwnedContents(s, userId) && c in OwnedContents(db.Value(), userId)
      requires db.schedules == s.schedules - OwnedSchedules(s, userId)
      requires SamePlaylists(s.playlists - OwnedPlaylists(s, userId), db.playlists)
      modifies db
      ensures outcome == (if c in stuck then StorageFailed else Done) && db.contents == old(db.contents) - {c}
      ensures db.schedules == old(db.schedules) && db.playlists == old(db.playlists) && db.displays == old(db.displays)
    {
      NothingScheduled(s, userId, db.schedules, OnContent(c));
      NothingUses(s, db.Value(), userId, c);
      OwnContentGoes(db.Value(), userId, c);
      var failure := db.DeleteContent(Some(userId), c);
      outcome := Ending(failure);
      if outcome == Done && c in stuck {
        outcome := StorageFailed;
      }
    }

    method DeleteContents(userId: UserId, content: seq<ContentId>, stuck: set<ContentId>, ghost s: Store)
      returns (outcome: Outcome, ghost gone: set<ContentId>)
      requires !Conflicted(s, userId) && db.contents == s.contents
      requires db.schedules == s.schedules - OwnedSchedules(s, userId)
      requires SamePlaylists(s.playlists - OwnedPlaylists(s, userId), db.playlists)
      requires forall c :: c in content <==> c in OwnedContents(s, userId)
      requires forall i, j :: 0 <= i < j < |content| ==> content[i] != content[j]
      modifies db
      ensures outcome == if OwnedContents(s, userId) !! stuck then Done else StorageFailed
      ensures db.contents == s.contents - gone && gone <= OwnedContents(s, userId)
      ensures outcome == Done ==> gone == OwnedContents(s, userId)
      ensures outcome == StorageFailed ==> exists k :: StoppedAt(content, stuck, gone, k)
      ensures db.schedules == old(db.schedules) && db.playlists == old(db.playlists) && db.displays == old(db.displays)
    {
      gone := {};
      for n := 0 to |content|
        invariant forall c :: c in gone <==> exists i :: 0 <= i < n && content[i] == c
        invariant gone !! stuck
        invariant db.contents == s.contents - gone
        invariant db.schedules == old(db.schedules) && db.playlists == old(db.playlists) && db.displays == old(db.displays)
      {
        assert content[n] in content;
        outcome := DeleteOwnContent(userId, content[n], stuck, s);
        gone := gone + {content[n]};
        if outcome != Done {
          assert content[n] in OwnedContents(s, userId) * stuck;
          assert StoppedAt(content, stuck, gone, n);
          return;
        }
      }
      assert gone == OwnedContents(s, userId);
      outcome := Done;
    }

    /**
     * All or nothing: with a conflict nothing changes; without one no guard of the three deletions fires, all the
     * user owns is gone and the rest stays, up to playlist status, which again means what it did. The one thing that
     * can stop it is the storage (`stuck`: content whose files cannot be deleted): then the user's schedules and
     * playlists are gone and so is some of the content. `rows` is the user's content as the database lists it.
     */
    method DeleteOwnedResourcesForUser(userId: UserId, now: Instant, rows: seq<ContentId>, stuck: set<ContentId>)
      returns (outcome: Outcome, ghost gone: set<ContentId>)
      requires forall c :: c in rows <==> c in OwnedContents(db.Value(), userId)
      requires forall i, j :: 0 <= i < j < |rows| ==> rows[i] != rows[j]
      modifies db
      ensures outcome == if old(Conflicted(db.Value(), userId)) then Conflict
                         else if OwnedContents(old(db.Value()), userId) !! stuck then Done
                         else StorageFailed
      ensures outcome == Conflict ==> db.Value() == old(db.Value())
      ensures outcome == Done ==> CleanedUp(old(db.Value()), db.Value(), userId)
      ensures outcome == StorageFailed ==> CleanedUpTo(old(db.Value()), db.Value(), userId, gone)
      ensures outcome == StorageFailed ==> exists k :: StoppedAt(rows, stuck, gone, k)
      ensures old(Kept(db.Value(), now)) ==> Kept(db.Value(), now)
    {
      gone := {};
      var content := ListOwnedContent(rows);
      var conflict := FindConflict(userId, content);
      if conflict {
        outcome := Conflict;
        return;
      }
      ghost var s := db.Value();
      outcome := DeleteSchedules(userId, now);
      if outcome != Done { return; }
      ghost var t := db.Value();
      outcome := DeletePlaylists(userId, now, s);
      if outcome != Done { return; }
      SameWithout(s.playlists, t.playlists, OwnedPlaylists(s, userId));
      outcome, gone := DeleteContents(userId, content, stuck, s);
      if Kept(s, now) {
        CleanupKeeps(s, t, db.Value(), now, userId, gone);
      }
    }
  }
}
