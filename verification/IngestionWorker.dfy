/**
 * The content ingestion worker: one stream entry, processed with retries, acknowledged or moved to the dead-letter
 * stream. Any call to the database, to Redis or to storage may fail, before or after it took effect.
 */
module IngestionWorker {
  import opened Options

  // An `ensures P(..) == true` promises P(..) as a whole: unlike a bare P(..), it is not taken apart where it is proved.

  type JobId = nat
  type ContentId = nat
  type Key = nat

  datatype JobStatus = QUEUED | JOB_PROCESSING | SUCCEEDED | JOB_FAILED
  datatype ContentStatus = PROCESSING | READY | FAILED
  datatype Media = ImageFile | VideoFile

  datatype Job = Job(contentId: ContentId, status: JobStatus)
  // `media` is None when the stored MIME type is not supported.
  datatype Content = Content(media: Option<Media>, status: ContentStatus, thumbnailKey: Option<Key>)

  datatype Reason = InvalidPayload | ProcessingFailed

  // What happened to the entry, in order.
  datatype Event = RunStarted | RunSucceeded | DeadLettered(reason: Reason) | Acked | Deleted

  // How an outside call ends: it works, it throws without effect, or it throws after its effect.
  datatype Fate = Works | ThrowsBefore | ThrowsAfter

  // The outside calls of one attempt, and of moving the entry to the dead-letter stream after the last.
  datatype Call =
    | FindJob | MarkProcessing | FindContent | Download | Extract | Thumbnail(nth: nat) | Upload | StoreContent | MarkSucceeded
    | Ack | Delete
    | FindFailedJob | FailJob | AddToDlq | AckDead | DeleteDead

  datatype Outcome = Finished | Threw | GaveUp

  predicate IsWhole(v: real) {
    v.Floor as real == v
  }

  function Count(log: seq<Event>, e: Event): nat {
    if log == [] then 0 else Count(log[..|log| - 1], e) + if log[|log| - 1] == e then 1 else 0
  }

  function DeadLetters(log: seq<Event>): nat {
    Count(log, DeadLettered(InvalidPayload)) + Count(log, DeadLettered(ProcessingFailed))
  }

  // Every acknowledgement comes after a run that succeeded or a dead-letter record.
  ghost predicate AcksJustified(log: seq<Event>) {
    forall i :: 0 <= i < |log| && log[i] == Acked ==>
      exists j :: 0 <= j < i && (log[j] == RunSucceeded || log[j].DeadLettered?)
  }

  // Every deletion from the stream comes after its acknowledgement.
  ghost predicate DeletesFollowAcks(log: seq<Event>) {
    forall i :: 0 <= i < |log| && log[i] == Deleted ==> exists j :: 0 <= j < i && log[j] == Acked
  }

  lemma CountOfMore(log: seq<Event>, next: Event, e: Event)
    ensures Count(log + [next], e) == Count(log, e) + if next == e then 1 else 0
  {
    assert (log + [next])[..|log|] == log;
  }

  function Runs(log: seq<Event>): nat {
    Count(log, RunStarted)
  }

  // A run succeeded or a dead letter was written.
  ghost predicate Settled(log: seq<Event>) {
    exists j :: 0 <= j < |log| && (log[j] == RunSucceeded || log[j].DeadLettered?)
  }

  ghost predicate Orderly(log: seq<Event>) {
    AcksJustified(log) && DeletesFollowAcks(log)
  }

  lemma Extend(log: seq<Event>, next: Event)
    requires Orderly(log)
    requires next == Acked ==> Settled(log)
    requires next == Deleted ==> exists j :: 0 <= j < |log| && log[j] == Acked
    ensures Orderly(log + [next])
    ensures Runs(log + [next]) == Runs(log) + if next == RunStarted then 1 else 0
    ensures DeadLetters(log + [next]) == DeadLetters(log) + if next.DeadLettered? then 1 else 0
  {
    var more := log + [next];
    forall i | 0 <= i < |more| && more[i] == Acked
      ensures exists j :: 0 <= j < i && (more[j] == RunSucceeded || more[j].DeadLettered?)
    {
      var j :| 0 <= j < i && (log[j] == RunSucceeded || log[j].DeadLettered?);
      assert more[j] == log[j];
    }
    forall i | 0 <= i < |more| && more[i] == Deleted
      ensures exists j :: 0 <= j < i && more[j] == Acked
    {
      var j :| 0 <= j < i && log[j] == Acked;
      assert more[j] == log[j];
    }
    CountOfMore(log, next, RunStarted);
    CountOfMore(log, next, DeadLettered(InvalidPayload));
    CountOfMore(log, next, DeadLettered(ProcessingFailed));
    assert next.DeadLettered? ==> next.reason == InvalidPayload || next.reason == ProcessingFailed;
  }

  // ----- The course of the attempts -----

  datatype Ending = Succeeds(attempt: nat) | RunsOut | StaysPending

  // How the attempts on an entry end. `oks`: which of them are processed and acknowledged without an error.
  function Course(limit: real, oks: nat -> bool, attempt: nat): Ending
    decreases limit.Floor + 1 - attempt
  {
    if attempt as real > limit then StaysPending
    else if oks(attempt) then Succeeds(attempt)
    else if attempt as real >= limit then RunsOut
    else Course(limit, oks, attempt + 1)
  }

  // The outcome and the number of runs and dead letters that go with an ending.
  predicate Fits(ending: Ending, outcome: Outcome, limit: real, runs: nat, deadLetters: nat) {
    match ending
    case Succeeds(attempt) => outcome == Finished && runs == attempt && deadLetters == 0
    case RunsOut => runs == limit.Floor && ((outcome == Finished && deadLetters == 1) || outcome == Threw)
    case StaysPending => runs == limit.Floor && outcome == GaveUp && deadLetters == 0
  }

  predicate AllFail(limit: real, oks: nat -> bool, from: nat) {
    forall a :: from <= a <= limit.Floor ==> !oks(a)
  }

  /**
   * An entry is left pending exactly when every attempt fails and the limit is no whole number, and runs out of attempts
   * exactly when every attempt fails and it is one.
   */
  lemma {:induction false} CourseExactly(limit: real, oks: nat -> bool, attempt: nat)
    requires attempt <= limit.Floor
    ensures Course(limit, oks, attempt) == StaysPending <==> !IsWhole(limit) && AllFail(limit, oks, attempt)
    ensures Course(limit, oks, attempt) == RunsOut <==> IsWhole(limit) && AllFail(limit, oks, attempt)
    decreases limit.Floor - attempt
  {
    if attempt < limit.Floor && !oks(attempt) {
      CourseExactly(limit, oks, attempt + 1);
    }
  }

  /** Otherwise the first attempt that works ends it. */
  lemma {:induction false} FirstThatWorks(limit: real, oks: nat -> bool, attempt: nat, a: nat)
    requires attempt <= a <= limit.Floor && oks(a) && forall b :: attempt <= b < a ==> !oks(b)
    ensures Course(limit, oks, attempt) == Succeeds(a)
    decreases a - attempt
  {
    if attempt < a {
      FirstThatWorks(limit, oks, attempt + 1, a);
    }
  }

  /** With a limit of two and a half and every attempt failing, the entry stays pending. */
  lemma HalfADelivery()
    ensures Course(2.5, _ => false, 1) == StaysPending
  {
    CourseExactly(2.5, _ => false, 1);
  }

  // A first attempt that works, or as many failing ones as are allowed, decide how the attempts end.
  lemma EndingOf(limit: real, oks: nat -> bool, runs: nat)
    requires 1 <= runs <= limit.Floor && forall a :: 1 <= a < runs ==> !oks(a)
    requires oks(runs) || runs == limit.Floor
    ensures Course(limit, oks, 1) == if oks(runs) then Succeeds(runs) else if IsWhole(limit) then RunsOut else StaysPending
  {
    if oks(runs) {
      FirstThatWorks(limit, oks, 1, runs);
    } else {
      CourseExactly(limit, oks, 1);
      assert AllFail(limit, oks, 1);
    }
  }

  const THUMBNAIL_MAX_RETRIES := 3

  // Only the statuses and the thumbnail of one job and its content differ.
  ghost predicate OnlyTouches(jobs: map<JobId, Job>, contents: map<ContentId, Content>, jobs': map<JobId, Job>,
                              contents': map<ContentId, Content>, jobId: JobId)
  {
    && jobs'.Keys == jobs.Keys && contents'.Keys == contents.Keys
    && (forall j :: j in jobs ==> jobs'[j].contentId == jobs[j].contentId && (j != jobId ==> jobs'[j] == jobs[j]))
    && (forall c :: c in contents ==>
          contents'[c].media == contents[c].media
          && ((jobId in jobs && c == jobs[jobId].contentId) || contents'[c] == contents[c]))
  }

  lemma TouchesTwice(jobs: map<JobId, Job>, contents: map<ContentId, Content>, jobs': map<JobId, Job>,
                     contents': map<ContentId, Content>, jobs'': map<JobId, Job>, contents'': map<ContentId, Content>, jobId: JobId)
    requires OnlyTouches(jobs, contents, jobs', contents', jobId) && OnlyTouches(jobs', contents', jobs'', contents'', jobId)
    ensures OnlyTouches(jobs, contents, jobs'', contents'', jobId) == true
  {
  }

  // The job's content is there and its file is of a supported kind.
  predicate ReadableIn(jobs: map<JobId, Job>, contents: map<ContentId, Content>, jobId: JobId) {
    jobId in jobs && jobs[jobId].contentId in contents && contents[jobs[jobId].contentId].media.Some?
  }

  // Touching leaves what there is to read.
  lemma TouchedIsThere(jobs: map<JobId, Job>, contents: map<ContentId, Content>, jobs': map<JobId, Job>,
                       contents': map<ContentId, Content>, jobId: JobId)
    requires OnlyTouches(jobs, contents, jobs', contents', jobId)
    ensures (jobId in jobs' <==> jobId in jobs) && (ReadableIn(jobs', contents', jobId) <==> ReadableIn(jobs, contents, jobId))
    ensures jobId in jobs' && jobs'[jobId].contentId in contents' <==> jobId in jobs && jobs[jobId].contentId in contents
  {
  }

  class Worker {
    var jobs: map<JobId, Job>
    var contents: map<ContentId, Content>
    // What happened to the entry at hand.
    var log: seq<Event>
    // Zod coerces the limit to a number and the configuration raises it to at least 1; nothing makes it whole.
    const maxDeliveries: real
    // How each outside call of each attempt ends, and whether a thumbnail comes out of it.
    const fates: (nat, Call) -> Fate
    const draws: (nat, nat) -> bool

    constructor (jobs: map<JobId, Job>, contents: map<ContentId, Content>, limit: real, fates: (nat, Call) -> Fate,
                 draws: (nat, nat) -> bool)
      ensures this.jobs == jobs && this.contents == contents && log == [] && this.fates == fates && this.draws == draws
      ensures maxDeliveries == if limit >= 1.0 then limit else 1.0
    {
      this.jobs, this.contents, log := jobs, contents, [];
      maxDeliveries := if limit >= 1.0 then limit else 1.0;
      this.fates, this.draws := fates, draws;
    }

    predicate Ok(attempt: nat, call: Call) {
      fates(attempt, call) == Works
    }

    predicate Known(jobId: JobId)
      reads this
    {
      jobId in jobs && jobs[jobId].contentId in contents
    }

    predicate Readable(jobId: JobId)
      reads this
    {
      ReadableIn(jobs, contents, jobId)
    }

    // The two statuses of a known job.
    predicate Is(jobId: JobId, job: JobStatus, content: ContentStatus)
      reads this
    {
      Known(jobId) && jobs[jobId].status == job && contents[jobs[jobId].contentId].status == content
    }

    method SetJobStatus(attempt: nat, call: Call, jobId: JobId, status: JobStatus) returns (ok: bool)
      requires jobId in jobs
      modifies this`jobs
      ensures ok <==> Ok(attempt, call)
      ensures jobs == if fates(attempt, call) == ThrowsBefore then old(jobs)
                      else old(jobs)[jobId := Job(old(jobs)[jobId].contentId, status)]
    {
      var fate := fates(attempt, call);
      if fate == ThrowsBefore { return false; }
      jobs := jobs[jobId := jobs[jobId].(status := status)];
      ok := fate == Works;
    }

    // Up to three attempts; a thumbnail that cannot be made is no failure.
    method RunWithThumbnailRetries(attempt: nat) returns (made: bool, tries: nat)
      ensures tries <= 3 && (!made ==> tries == 3)
      ensures forall n: nat :: n < tries && (n < tries - 1 || !made) ==> !(Ok(attempt, Thumbnail(n)) && draws(attempt, n))
      ensures made ==> tries > 0 && Ok(attempt, Thumbnail(tries - 1)) && draws(attempt, tries - 1)
    {
      made, tries := false, 0;
      while tries < THUMBNAIL_MAX_RETRIES && !made
        invariant tries <= THUMBNAIL_MAX_RETRIES
        invariant forall n: nat :: n < tries && (n < tries - 1 || !made) ==> !(Ok(attempt, Thumbnail(n)) && draws(attempt, n))
        invariant made ==> tries > 0 && Ok(attempt, Thumbnail(tries - 1)) && draws(attempt, tries - 1)
        decreases THUMBNAIL_MAX_RETRIES - tries, !made
      {
        made := fates(attempt, Thumbnail(tries)) == Works && draws(attempt, tries);
        tries := tries + 1;
      }
    }

    // One of the three tries makes a thumbnail, and it can be uploaded.
    predicate HasThumbnail(attempt: nat) {
      (exists n: nat :: n < 3 && Ok(attempt, Thumbnail(n)) && draws(attempt, n)) && Ok(attempt, Upload)
    }

    method StoreThumbnail(attempt: nat, newKey: Key) returns (thumbnailKey: Option<Key>)
      ensures thumbnailKey == if HasThumbnail(attempt) then Some(newKey) else None
    {
      thumbnailKey := None;
      var made, tries := RunWithThumbnailRetries(attempt);
      if made {
        assert tries - 1 < 3 && Ok(attempt, Thumbnail(tries - 1)) && draws(attempt, tries - 1);
        if fates(attempt, Upload) == Works {
          thumbnailKey := Some(newKey);
        }
      }
      // Deleting the old thumbnail may fail too; that is only logged.
    }

    // The run gets as far as storing what it found.
    predicate GetsToStore(attempt: nat, jobId: JobId)
      reads this
    {
      && Ok(attempt, FindJob) && Ok(attempt, MarkProcessing) && Ok(attempt, FindContent) && Readable(jobId)
      && Ok(attempt, Download) && Ok(attempt, Extract)
    }

    /**
     * One run. It ends without error exactly if the job is not there, or its content is there with a supported file
     * and every call but those for the thumbnail works; then job and content have succeeded.
     */
    method ProcessContentIngestionJob(attempt: nat, jobId: JobId, thumbnailKey: Key) returns (ok: bool)
      modifies this`jobs, this`contents
      ensures OnlyTouches(old(jobs), old(contents), jobs, contents, jobId) == true
      ensures ok <==>
                && Ok(attempt, FindJob)
                && (jobId in old(jobs) ==>
                      && old(Readable(jobId)) && Ok(attempt, MarkProcessing) && Ok(attempt, FindContent)
                      && Ok(attempt, Download) && Ok(attempt, Extract) && Ok(attempt, StoreContent) && Ok(attempt, MarkSucceeded))
      ensures ok && jobId in old(jobs) ==> Is(jobId, SUCCEEDED, READY)
      ensures jobId !in old(jobs) ==> jobs == old(jobs) && contents == old(contents)
      ensures jobId in old(jobs) ==>
                jobs[jobId].status ==
                  if !Ok(attempt, FindJob) || fates(attempt, MarkProcessing) == ThrowsBefore then old(jobs)[jobId].status
                  else if old(GetsToStore(attempt, jobId)) && Ok(attempt, StoreContent) && fates(attempt, MarkSucceeded) != ThrowsBefore then
                    SUCCEEDED
                  else JOB_PROCESSING
      ensures old(Known(jobId)) ==>
                var c := old(jobs)[jobId].contentId;
                contents[c] ==
                  if old(GetsToStore(attempt, jobId)) && fates(attempt, StoreContent) != ThrowsBefore then
                    Content(old(contents)[c].media, READY, if HasThumbnail(attempt) then Some(thumbnailKey) else None)
                  else old(contents)[c]
    {
      var fate := fates(attempt, FindJob);
      if fate != Works { return false; }
      if jobId !in jobs { return true; }
      var job := jobs[jobId];
      ok := SetJobStatus(attempt, MarkProcessing, jobId, JOB_PROCESSING);
      if !ok { return; }
      fate := fates(attempt, FindContent);
      if fate != Works || job.contentId !in contents { return false; }
      var content := contents[job.contentId];
      if content.media.None? { return false; }
      var download := fates(attempt, Download);
      if download != Works { return false; }
      var extract := fates(attempt, Extract);
      if extract != Works { return false; }
      var thumbnail := StoreThumbnail(attempt, thumbnailKey);
      fate := fates(attempt, StoreContent);
      if fate == ThrowsBefore { return false; }
      contents := contents[job.contentId := content.(status := READY, thumbnailKey := thumbnail)];
      if fate == ThrowsAfter { return false; }
      ok := SetJobStatus(attempt, MarkSucceeded, jobId, SUCCEEDED);
    }

    // Both statuses change in one transaction.
    method MarkJobFailed(attempt: nat, jobId: JobId) returns (ok: bool)
      modifies this`jobs, this`contents
      ensures OnlyTouches(old(jobs), old(contents), jobs, contents, jobId) == true
      ensures ok <==> Ok(attempt, FindFailedJob) && (jobId in old(jobs) ==> Ok(attempt, FailJob))
      ensures if Ok(attempt, FindFailedJob) && jobId in old(jobs) && fates(attempt, FailJob) != ThrowsBefore then
                jobs == old(jobs)[jobId := Job(old(jobs)[jobId].contentId, JOB_FAILED)]
                && var c := old(jobs)[jobId].contentId;
                   contents == if c in old(contents) then old(contents)[c := old(contents)[c].(status := FAILED)] else old(contents)
              else jobs == old(jobs) && contents == old(contents)
    {
      var fate := fates(attempt, FindFailedJob);
      if fate != Works { return false; }
      if jobId !in jobs { return true; }
      fate := fates(attempt, FailJob);
      if fate == ThrowsBefore { return false; }
      var c := jobs[jobId].contentId;
      if c in contents {
        contents := contents[c := contents[c].(status := FAILED)];
      }
      jobs := jobs[jobId := jobs[jobId].(status := JOB_FAILED)];
      ok := fate == Works;
    }

    method AddEntryToDlq(attempt: nat, reason: Reason) returns (ok: bool)
      requires Orderly(log)
      modifies this`log
      ensures ok <==> Ok(attempt, AddToDlq)
      ensures log == if fates(attempt, AddToDlq) == ThrowsBefore then old(log) else old(log) + [DeadLettered(reason)]
      ensures Orderly(log) && Runs(log) == Runs(old(log))
      ensures DeadLetters(log) == DeadLetters(old(log)) + |log| - |old(log)|
    {
      var fate := fates(attempt, AddToDlq);
      if fate == ThrowsBefore { return false; }
      Extend(log, DeadLettered(reason));
      log := log + [DeadLettered(reason)];
      ok := fate == Works;
    }

    // XACK, then XDEL.
    method AckAndDeleteEntry(attempt: nat, ack: Call, delete: Call) returns (ok: bool)
      requires Orderly(log) && Settled(log)
      modifies this`log
      ensures ok <==> Ok(attempt, ack) && Ok(attempt, delete)
      ensures log == if fates(attempt, ack) == ThrowsBefore then old(log)
                     else if fates(attempt, ack) == ThrowsAfter || fates(attempt, delete) == ThrowsBefore then old(log) + [Acked]
                     else old(log) + [Acked, Deleted]
      ensures Orderly(log) && Runs(log) == Runs(old(log)) && DeadLetters(log) == DeadLetters(old(log))
    {
      var fate := fates(attempt, ack);
      if fate == ThrowsBefore { return false; }
      Extend(log, Acked);
      log := log + [Acked];
      if fate == ThrowsAfter { return false; }
      fate := fates(attempt, delete);
      if fate == ThrowsBefore { return false; }
      assert log[|log| - 1] == Acked;
      Extend(log, Deleted);
      log := log + [Deleted];
      assert log == old(log) + [Acked, Deleted];
      ok := fate == Works;
    }

    // The attempt processes the job and acknowledges the entry. `exists` and `readable` are about the job and its content.
    predicate AttemptWorks(attempt: nat, exists': bool, readable: bool) {
      && Ok(attempt, FindJob) && Ok(attempt, Ack) && Ok(attempt, Delete)
      && (exists' ==>
            && readable && Ok(attempt, MarkProcessing) && Ok(attempt, FindContent)
            && Ok(attempt, Download) && Ok(attempt, Extract) && Ok(attempt, StoreContent) && Ok(attempt, MarkSucceeded))
    }

    // One run, noted in the log.
    method RunOnce(attempt: nat, jobId: JobId, thumbnailKey: Key) returns (ok: bool)
      requires Orderly(log)
      modifies this
      ensures OnlyTouches(old(jobs), old(contents), jobs, contents, jobId) == true && Orderly(log)
      ensures ok <==>
                && Ok(attempt, FindJob)
                && (jobId in old(jobs) ==>
                      && old(Readable(jobId)) && Ok(attempt, MarkProcessing) && Ok(attempt, FindContent)
                      && Ok(attempt, Download) && Ok(attempt, Extract) && Ok(attempt, StoreContent) && Ok(attempt, MarkSucceeded))
      ensures log == old(log) + if ok then [RunStarted, RunSucceeded] else [RunStarted]
      ensures Runs(log) == Runs(old(log)) + 1 && DeadLetters(log) == DeadLetters(old(log))
      ensures ok && old(Known(jobId)) ==> Is(jobId, SUCCEEDED, READY)
    {
      Extend(log, RunStarted);
      log := log + [RunStarted];
      ok := ProcessContentIngestionJob(attempt, jobId, thumbnailKey);
      if ok {
        Extend(log, RunSucceeded);
        log := log + [RunSucceeded];
        assert log == old(log) + [RunStarted, RunSucceeded];
      }
    }

    // One run and, if it succeeds, the acknowledgement.
    method Attempt(attempt: nat, jobId: JobId, thumbnailKey: Key) returns (ok: bool)
      requires Orderly(log)
      modifies this
      ensures OnlyTouches(old(jobs), old(contents), jobs, contents, jobId) == true && Orderly(log)
      ensures ok <==> AttemptWorks(attempt, jobId in old(jobs), old(Readable(jobId)))
      ensures Runs(log) == Runs(old(log)) + 1 && DeadLetters(log) == DeadLetters(old(log))
      ensures ok ==> log == old(log) + [RunStarted, RunSucceeded] + [Acked, Deleted]
      ensures ok && old(Known(jobId)) ==> Is(jobId, SUCCEEDED, READY)
    {
      ok := RunOnce(attempt, jobId, thumbnailKey);
      if ok {
        assert log[|log| - 1] == RunSucceeded;
        ok := AckAndDeleteEntry(attempt, Ack, Delete);
      }
    }

    // The failure is recorded, and the entry ends on the dead-letter stream.
    predicate MoveWorks(attempt: nat, exists': bool) {
      && Ok(attempt, FindFailedJob) && (exists' ==> Ok(attempt, FailJob)) && Ok(attempt, AddToDlq)
      && Ok(attempt, AckDead) && Ok(attempt, DeleteDead)
    }

    // After the last failed attempt.
    method MoveToDlq(attempt: nat, jobId: JobId) returns (ok: bool)
      requires Orderly(log) && DeadLetters(log) == 0
      modifies this
      ensures OnlyTouches(old(jobs), old(contents), jobs, contents, jobId) == true && Orderly(log) && Runs(log) == Runs(old(log)) && DeadLetters(log) <= 1
      ensures ok <==> MoveWorks(attempt, jobId in old(jobs))
      ensures DeadLetters(log) == 1 <==> Ok(attempt, FindFailedJob) && (jobId in old(jobs) ==> Ok(attempt, FailJob))
                                         && fates(attempt, AddToDlq) != ThrowsBefore
      ensures ok ==> DeadLetters(log) == 1 && log != [] && log[|log| - 1] == Deleted
                     && (old(Known(jobId)) ==> Is(jobId, JOB_FAILED, FAILED))
    {
      ok := MarkJobFailed(attempt, jobId);
      if !ok { return; }
      assert old(Known(jobId)) ==> Is(jobId, JOB_FAILED, FAILED);
      ok := AddEntryToDlq(attempt, ProcessingFailed);
      if !ok { return; }
      assert log[|log| - 1] == DeadLettered(ProcessingFailed);
      ok := AckAndDeleteEntry(attempt, AckDead, DeleteDead);
    }

    // Which attempts process the job and acknowledge the entry.
    function Attempts(exists': bool, readable: bool): nat -> bool {
      (a: nat) => AttemptWorks(a, exists', readable)
    }

    // An entry that names no job goes to the dead-letter stream at once.
    method RejectEntry() returns (outcome: Outcome)
      requires log == []
      modifies this`log
      ensures outcome == if Ok(0, AddToDlq) && Ok(0, AckDead) && Ok(0, DeleteDead) then Finished else Threw
      ensures outcome == Finished ==> log == [DeadLettered(InvalidPayload), Acked, Deleted]
      ensures Orderly(log) && Runs(log) == 0 && DeadLetters(log) <= 1
    {
      var ok := AddEntryToDlq(0, InvalidPayload);
      if !ok { return Threw; }
      assert log[|log| - 1] == DeadLettered(InvalidPayload);
      ok := AckAndDeleteEntry(0, AckDead, DeleteDead);
      outcome := if ok then Finished else Threw;
    }

    // How the entry ends: no attempt before the last one worked, and it did or was the last allowed.
    predicate EndsWell(exists': bool, readable: bool, outcome: Outcome)
      reads this
    {
      && 1 <= Runs(log) <= maxDeliveries.Floor
      && (forall a :: 1 <= a < Runs(log) ==> !AttemptWorks(a, exists', readable))
      && if AttemptWorks(Runs(log), exists', readable) then outcome == Finished && DeadLetters(log) == 0
         else
           && Runs(log) == maxDeliveries.Floor && (DeadLetters(log) == 1 ==> IsWhole(maxDeliveries))
           && (outcome == Finished ==> DeadLetters(log) == 1)
           && outcome == if !IsWhole(maxDeliveries) then GaveUp else if MoveWorks(Runs(log), exists') then Finished else Threw
    }

    // One attempt and, when it fails and was the last, the move to the dead-letter stream.
    method RunOneMore(attempt: nat, jobId: JobId, thumbnailKey: Key) returns (done: bool, outcome: Outcome)
      requires 1 <= attempt <= maxDeliveries.Floor && Orderly(log) && DeadLetters(log) == 0
      modifies this
      ensures Orderly(log) && Runs(log) == Runs(old(log)) + 1 && DeadLetters(log) <= 1
      ensures OnlyTouches(old(jobs), old(contents), jobs, contents, jobId) == true
      ensures var works := AttemptWorks(attempt, jobId in old(jobs), old(Readable(jobId)));
              && (done <==> works || (IsWhole(maxDeliveries) && attempt == maxDeliveries.Floor))
              && (works ==> outcome == Finished && log == old(log) + [RunStarted, RunSucceeded] + [Acked, Deleted])
              && (works || !done ==> DeadLetters(log) == 0)
              && (done && !works ==> outcome == if MoveWorks(attempt, jobId in old(jobs)) then Finished else Threw)
              && (done && !works && outcome == Finished ==> DeadLetters(log) == 1)
      ensures done && outcome == Finished ==> log != [] && log[|log| - 1] == Deleted
      ensures done && outcome == Finished && old(Known(jobId)) ==>
                if DeadLetters(log) == 0 then Is(jobId, SUCCEEDED, READY) else Is(jobId, JOB_FAILED, FAILED)
    {
      var ok := Attempt(attempt, jobId, thumbnailKey);
      if ok {
        return true, Finished;
      }
      var isLastAttempt := attempt as real >= maxDeliveries;
      if isLastAttempt {
        ghost var js, cs := jobs, contents;
        TouchedIsThere(old(jobs), old(contents), js, cs, jobId);
        ok := MoveToDlq(attempt, jobId);
        TouchesTwice(old(jobs), old(contents), js, cs, jobs, contents, jobId);
        return true, if ok then Finished else Threw;
      }
      return false, GaveUp;
    }

    // The loop over the attempts.
    method RunAttempts(jobId: JobId, thumbnailKey: Key) returns (outcome: Outcome)
      requires maxDeliveries >= 1.0 && log == []
      modifies this
      ensures Orderly(log) && DeadLetters(log) <= 1
      ensures OnlyTouches(old(jobs), old(contents), jobs, contents, jobId) == true
      ensures EndsWell(jobId in old(jobs), old(Readable(jobId)), outcome)
      ensures outcome == Finished ==> log != [] && log[|log| - 1] == Deleted
      ensures outcome == Finished && old(Known(jobId)) ==>
                if DeadLetters(log) == 0 then Is(jobId, SUCCEEDED, READY) else Is(jobId, JOB_FAILED, FAILED)
      ensures outcome == Finished && DeadLetters(log) == 0 && Runs(log) == 1 ==> log == [RunStarted, RunSucceeded, Acked, Deleted]
    {
      ghost var there, readable := jobId in jobs, Readable(jobId);
      var attempt := 1;
      while attempt as real <= maxDeliveries
        invariant 1 <= attempt <= maxDeliveries.Floor + 1
        invariant Orderly(log) && Runs(log) == attempt - 1 && DeadLetters(log) == 0
        invariant OnlyTouches(old(jobs), old(contents), jobs, contents, jobId) == true
        invariant attempt == 1 ==> log == []
        invariant forall a :: 1 <= a < attempt ==> !AttemptWorks(a, there, readable)
        invariant IsWhole(maxDeliveries) ==> attempt <= maxDeliveries.Floor
      {
        TouchedIsThere(old(jobs), old(contents), jobs, contents, jobId);
        ghost var js, cs := jobs, contents;
        var done;
        done, outcome := RunOneMore(attempt, jobId, thumbnailKey);
        TouchesTwice(old(jobs), old(contents), js, cs, jobs, contents, jobId);
        if done { return; }
        attempt := attempt + 1;
      }
      outcome := GaveUp;
    }

    /**
     * One stream entry. It is run until an attempt works, and at most `maxDeliveries` times; the entry is acknowledged
     * only after a run that succeeded or a dead-letter record. If no attempt works and the limit is a whole number the
     * failure is recorded, one dead letter is written and the entry acknowledged, unless one of these calls fails; if the
     * limit is none, nothing is dead-lettered and the entry is left pending without an error. When the method finishes
     * normally on a known job, the job and its content succeeded and there is no dead letter, or both failed and there
     * is exactly one.
     */
    method ProcessEntry(payload: Option<JobId>, thumbnailKey: Key) returns (outcome: Outcome)
      requires maxDeliveries >= 1.0
      modifies this
      ensures Orderly(log) && DeadLetters(log) <= 1
      ensures payload.Some? ==> OnlyTouches(old(jobs), old(contents), jobs, contents, payload.value)
      ensures outcome == Finished ==> log != [] && log[|log| - 1] == Deleted
      // No job can be read from the entry.
      ensures payload.None? ==> Runs(log) == 0 && jobs == old(jobs) && contents == old(contents)
      ensures payload.None? ==> outcome == if Ok(0, AddToDlq) && Ok(0, AckDead) && Ok(0, DeleteDead) then Finished else Threw
      ensures payload.None? && outcome == Finished ==> log == [DeadLettered(InvalidPayload), Acked, Deleted]
      // The runs: all but the last one failed, and the last one worked or was the last allowed.
      ensures payload.Some? ==> 1 <= Runs(log) <= maxDeliveries.Floor
      ensures payload.Some? ==>
                var works := Attempts(payload.value in old(jobs), old(Readable(payload.value)));
                && (forall a :: 1 <= a < Runs(log) ==> !works(a))
                && (works(Runs(log)) ==> outcome == Finished && DeadLetters(log) == 0)
                && (!works(Runs(log)) ==>
                      && Runs(log) == maxDeliveries.Floor
                      && outcome == if !IsWhole(maxDeliveries) then GaveUp
                                    else if MoveWorks(Runs(log), payload.value in old(jobs)) then Finished else Threw)
                && Fits(Course(maxDeliveries, works, 1), outcome, maxDeliveries, Runs(log), DeadLetters(log))
      ensures payload.Some? && DeadLetters(log) == 1 ==> Runs(log) == maxDeliveries.Floor && IsWhole(maxDeliveries)
      ensures payload.Some? && outcome == Finished && old(Known(payload.value)) ==>
                || (DeadLetters(log) == 0 && Is(payload.value, SUCCEEDED, READY))
                || (DeadLetters(log) == 1 && Is(payload.value, JOB_FAILED, FAILED))
      // Nothing fails.
      ensures payload.Some? && old(Readable(payload.value)) && (forall a: nat, call: Call :: fates(a, call) == Works) ==>
                outcome == Finished && log == [RunStarted, RunSucceeded, Acked, Deleted] && Is(payload.value, SUCCEEDED, READY)
    {
      log := [];
      if payload.None? {
        outcome := RejectEntry();
      } else {
        ghost var works := Attempts(payload.value in jobs, Readable(payload.value));
        outcome := RunAttempts(payload.value, thumbnailKey);
        EndingOf(maxDeliveries, works, Runs(log));
      }
    }
  }
}
