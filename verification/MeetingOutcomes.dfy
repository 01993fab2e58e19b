/** What one look at a meeting agent leaves behind, case by case, in the terms of what it sees. */
module MeetingOutcomes {
  import opened Wrappers
  import opened MeetingSource

  const WAITS := [2.0, 5.0, 10.0, 20.0, 30.0]

  /** The meeting the agent is in: what it reports, or else what the portal last knew. */
  function KnownMeeting(h: Health, look: Look): Option<string> {
    if look.agent.Some? && look.agent.value.url.Some? then look.agent.value.url else h.url
  }

  predicate Elsewhere(h: Health, look: Look) {
    KnownMeeting(h, look).Some? && KnownMeeting(h, look).value != look.target
  }

  predicate Dead(look: Look) { look.agent.None? || !look.agent.value.alive }

  /** The transcription worker reports when it last heard audio; 0.0 says never. */
  predicate Hears(look: Look) { look.lastAudio.Some? && look.lastAudio.value != 0.0 }

  function NoWorker(h: Health): Health { h.(config := None, workerStarted := None, healthy := None) }

  lemma ElsewhereIsOther(h: Health, look: Look)
    ensures Elsewhere(h, look) <==> JoinedOtherUrl(look.agent, h.url, look.target)
  {
  }

  lemma StoppedIsNoWorker(h: Health)
    ensures WorkerStopped(h) == NoWorker(h)
  {
  }

  /** A fresh connect forgets everything but the meeting; what happened stays so. */
  lemma ConnectForgets(cfg: Settings, t: Track, now: real, url: Option<string>)
    ensures var after := Next(cfg, t, Connect(now, url));
            && after.h == Health(0, "exited", url, None, None, -1, None, None, None, None)
            && after.lastStart == t.lastStart && after.lastStop == t.lastStop
  {
  }

  /** The waits before the restarts of one budget are 2, 5, 10, 20 and then 30 seconds. */
  lemma WaitsOfBudget(cfg: Settings, t: Track, look: Look)
    requires Inv(cfg, t) && t.clock <= look.now && t.h.next.None? && Next(cfg, t, See(look)).h.next.Some?
    ensures Next(cfg, t, See(look)).h.next.value - look.now == WAITS[if t.h.restarts < 4 then t.h.restarts else 4]
  {
    LookFacts(cfg, t.h, look);
    hide Looked;
  }

  /** The agent is in another meeting: it is sent to the right one with a fresh budget, as far as the calls work. */
  lemma RejoinMeaning(cfg: Settings, t: Track, look: Look)
    requires Elsewhere(t.h, look)
    ensures Next(cfg, t, See(look)).h
            == if !look.stopWorkerWorks then t.h
               else if !look.startWorks then NoWorker(t.h)
               else Health(0, t.h.failure, Some(look.target), None, None, -1, None, None, None, None)
    ensures Looked(cfg, t.h, look).start.UrlStart? <==> look.stopWorkerWorks
  {
    ElsewhereIsOther(t.h, look);
  }

  /** The agent is gone, or its restart is pending: what it did is forgotten, why it is down is noted. */
  lemma LossMeaning(cfg: Settings, t: Track, look: Look)
    requires !Elsewhere(t.h, look) && (Dead(look) || t.h.next.Some?)
    ensures var h := Next(cfg, t, See(look)).h;
            if !look.stopWorkerWorks then h == t.h
            else h == Health(
                   h.restarts,
                   if look.agent.None? then "missing" else if Dead(look) then look.agent.value.failure else t.h.failure,
                   h.url, h.next, None, -1, None, None, None, None)
                 && (!Looked(cfg, t.h, look).start.BudgetStart? || !look.startWorks ==> h.url == t.h.url)
  {
    ElsewhereIsOther(t.h, look);
    StoppedIsNoWorker(t.h);
    hide Backoff, JoinedOtherUrl;
  }

  /** On its way into the meeting only the meeting is noted; on its way out the worker is stopped. */
  lemma PassageMeaning(cfg: Settings, t: Track, look: Look)
    requires !Elsewhere(t.h, look) && !Dead(look) && t.h.next.None? && !look.agent.value.stage.InMeeting?
    ensures var h := t.h.(url := Some(look.target));
            Next(cfg, t, See(look)).h
            == if look.agent.value.stage.OtherStage? && look.stopWorkerWorks then NoWorker(h) else h
  {
    ElsewhereIsOther(t.h, look);
    hide JoinedOtherUrl;
  }

  /** What the look leaves of the worker and of the budget, once audio reaches the room: a worker with the
      room's settings, started anew if they changed; none if nothing was heard for the stall time; and a
      budget refilled by sixty seconds of hearing. */
  lemma WorkerMeaning(cfg: Settings, h: Health, look: Look)
    ensures var g := Transcribed(cfg, h, look).h;
            var other := h.config.Some? && h.config.value != look.config;
            var since := if other || h.workerStarted.None? then look.now else h.workerStarted.value;
            var heardAt := if Hears(look) then look.lastAudio.value else since;
            var well := if other then None else h.healthy;
            if other && !look.stopWorkerWorks then g == h
            else if !look.startWorkerWorks then g == if other then NoWorker(h) else h
            else if look.now - heardAt > cfg.stallSecs && look.lateStopWorks then g == NoWorker(h)
            else
              && g.config == Some(look.config) && g.workerStarted == Some(since)
              && g.healthy == (if look.now - heardAt > cfg.stallSecs || !Hears(look) then well
                               else Some(well.GetOr(look.now)))
              && g.restarts == (if look.now - heardAt <= cfg.stallSecs && Hears(look) && well.Some?
                                   && look.now - well.value >= 60.0 then 0 else h.restarts)
              && h == g.(config := h.config, workerStarted := h.workerStarted, healthy := h.healthy,
                         restarts := h.restarts)
  {
  }

  /** In the meeting: the bytes of the media server are the progress, and the worker follows it. */
  lemma AttendMeaning(cfg: Settings, t: Track, look: Look)
    requires !Elsewhere(t.h, look) && !Dead(look) && t.h.next.None? && look.agent.value.stage.InMeeting?
    requires !Needs(cfg, t.h, look)
    ensures var moved := look.bytes.Some? && look.bytes.value != t.h.lastBytes;
            var there := t.h.(url := Some(look.target), joined := Some(t.h.joined.GetOr(look.now)));
            var h := there.(lastBytes := if moved then look.bytes.value else t.h.lastBytes,
                            progress := if moved then Some(look.now) else t.h.progress);
            Next(cfg, t, See(look)).h
            == if !look.mediaKnown then there
               else if h.progress.None? then h
               else if look.problem then (if look.stopWorkerWorks then NoWorker(h) else h)
               else Transcribed(cfg, h, look).h
  {
    ElsewhereIsOther(t.h, look);
    hide JoinedOtherUrl, Transcribed, Recovered, Backoff;
  }

  /** A meeting without audio for the whole limit loses its worker and is treated as down. */
  lemma SilenceMeaning(cfg: Settings, t: Track, look: Look)
    requires !Elsewhere(t.h, look) && !Dead(look) && t.h.next.None? && Needs(cfg, t.h, look)
    ensures var h := Next(cfg, t, See(look)).h;
            if look.stopWorkerWorks
            then h == Health(h.restarts, "no_audio", h.url, h.next, None, -1, None, None, None, None)
            else h.config == t.h.config && h.workerStarted == t.h.workerStarted && h.healthy == t.h.healthy
                 && h.restarts == t.h.restarts && h.next.None? && h.failure == t.h.failure
  {
    ElsewhereIsOther(t.h, look);
    hide JoinedOtherUrl, Transcribed, Backoff;
  }

  lemma WorkerKeeps(cfg: Settings, h: Health, look: Look)
    ensures h.workerStarted.Some? && Transcribed(cfg, h, look).h.workerStarted.None? ==>
              Transcribed(cfg, h, look).stopped
  {
  }

  /** The history is true: a paid start is the last start, and a worker that is gone was stopped now. */
  lemma HistoryIsTrue(cfg: Settings, t: Track, look: Look)
    ensures Pays(cfg, t, See(look)) ==> Next(cfg, t, See(look)).lastStart == Some(look.now)
    ensures t.h.workerStarted.Some? && Next(cfg, t, See(look)).h.workerStarted.None? ==>
              Next(cfg, t, See(look)).lastStop == Some(look.now)
  {
    var there := t.h.(url := Some(look.target), joined := Some(t.h.joined.GetOr(look.now)));
    WorkerKeeps(cfg, there, look);
    WorkerKeeps(cfg, there.(lastBytes := look.bytes.GetOr(0), progress := Some(look.now)), look);
    hide JoinedOtherUrl, Transcribed, Backoff;
  }
}
