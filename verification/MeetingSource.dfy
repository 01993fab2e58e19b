/** portal/meeting_source.py: the health record of one room's meeting agent, what one look of the
    reconciler makes of it, and the budget of automatic restarts. Times are seconds on one clock. */
module MeetingSource {
  import opened Wrappers

  /** AgentHealth, without the texts shown to operators. */
  datatype Health = Health(
    restarts: nat, failure: string, url: Option<string>, next: Option<real>, joined: Option<real>,
    lastBytes: int, progress: Option<real>, healthy: Option<real>, config: Option<nat>, workerStarted: Option<real>)

  datatype Stage = Launching | Joining | InMeeting | OtherStage

  /** What the floor bot reports of a room's agent; `url` is the meeting it joined, if it says so. */
  datatype Agent = Agent(alive: bool, stage: Stage, failure: string, url: Option<string>)

  /** Everything one look sees, and how the calls it makes end. `bytes` is what the media server counted on
      a ready path with a source. */
  datatype Look = Look(
    now: real, target: string, agent: Option<Agent>, mediaKnown: bool, bytes: Option<int>, problem: bool,
    config: nat, lastAudio: Option<real>, stopWorkerWorks: bool, lateStopWorks: bool, startWorks: bool,
    startWorkerWorks: bool)

  datatype Settings = Settings(limit: nat, noAudioSecs: real, stallSecs: real)

  /** Which call of start_agent a look made: none, one of the budget, or one for a changed URL. */
  datatype Start = NoStart | BudgetStart | UrlStart

  /** The record after a look; whether it finished a _stop_worker, and whether it refilled the budget. */
  datatype Done = Done(h: Health, start: Start, stopped: bool, refilled: bool)

  const RECONCILE_INTERVAL_SECS := 2.0
  const STABLE_RESET_SECS := 60.0

  function Fresh(url: Option<string>): Health { Health(0, "exited", url, None, None, -1, None, None, None, None) }

  /** RESTART_BACKOFF_SECS, the last one for every later restart. */
  function Backoff(restarts: nat): real {
    match restarts
    case 0 => 2.0
    case 1 => 5.0
    case 2 => 10.0
    case 3 => 20.0
    case _ => 30.0
  }

  /** `t or default`: a reading of 0.0 counts as none. */
  function Truthy(t: Option<real>, default: real): real {
    if t.Some? && t.value != 0.0 then t.value else default
  }

  predicate JoinedOtherUrl(agent: Option<Agent>, known: Option<string>, target: string) {
    if agent.Some? && agent.value.url.Some? then agent.value.url.value != target
    else known.Some? && known.value != target
  }

  function WorkerStopped(h: Health): Health { h.(config := None, workerStarted := None, healthy := None) }

  // ---- One look on values ----

  function Recovered(cfg: Settings, h: Health, look: Look, failure: string): Done {
    var g := h.(joined := None, progress := None, lastBytes := -1, failure := failure);
    if g.restarts >= cfg.limit then Done(g, NoStart, true, false)
    else
      var next := g.next.GetOr(look.now + Backoff(g.restarts));
      if look.now < next then Done(g.(next := Some(next)), NoStart, true, false)
      else
        var spent := g.(restarts := g.restarts + 1, next := None);
        Done(if look.startWorks then spent.(url := Some(look.target)) else spent, BudgetStart, true, false)
  }

  function Rejoined(h: Health, look: Look): Done {
    if !look.stopWorkerWorks then Done(h, NoStart, false, false)
    else if !look.startWorks then Done(WorkerStopped(h), UrlStart, true, false)
    else
      Done(WorkerStopped(h).(url := Some(look.target), restarts := 0, next := None, joined := None,
                             progress := None, lastBytes := -1),
           UrlStart, true, true)
  }

  function WithoutWorker(h: Health, works: bool, before: bool): Done {
    if works then Done(WorkerStopped(h), NoStart, true, false) else Done(h, NoStart, before, false)
  }

  /** Audio reaches the room: keep the transcription worker running. */
  function Transcribed(cfg: Settings, h: Health, look: Look): Done {
    var changed := h.config.Some? && h.config != Some(look.config);
    if changed && !look.stopWorkerWorks then Done(h, NoStart, false, false)
    else
      var g := if changed then WorkerStopped(h) else h;
      if !look.startWorkerWorks then Done(g, NoStart, changed, false)
      else
        var w := g.(config := Some(look.config), workerStarted := Some(g.workerStarted.GetOr(look.now)));
        if look.now - Truthy(look.lastAudio, w.workerStarted.value) > cfg.stallSecs then
          WithoutWorker(w, look.lateStopWorks, changed)
        else if look.lastAudio.None? || look.lastAudio.value == 0.0 then Done(w, NoStart, changed, false)
        else if w.healthy.None? then Done(w.(healthy := Some(look.now)), NoStart, changed, false)
        else if look.now - w.healthy.value >= STABLE_RESET_SECS then Done(w.(restarts := 0), NoStart, changed, true)
        else Done(w, NoStart, changed, false)
  }

  function Attending(cfg: Settings, h: Health, look: Look): Done {
    var j := h.(joined := Some(h.joined.GetOr(look.now)));
    if !look.mediaKnown then Done(j, NoStart, false, false)
    else
      var p := if look.bytes.Some? && look.bytes.value != j.lastBytes
               then j.(lastBytes := look.bytes.value, progress := Some(look.now)) else j;
      if look.now - Truthy(p.progress, p.joined.value) >= cfg.noAudioSecs then
        if look.stopWorkerWorks then Recovered(cfg, WorkerStopped(p), look, "no_audio")
        else Done(p, NoStart, false, false)
      else if p.progress.None? then Done(p, NoStart, false, false)
      else if look.problem then WithoutWorker(p, look.stopWorkerWorks, false)
      else Transcribed(cfg, p, look)
  }

  /** reconcile_room. */
  function Looked(cfg: Settings, h: Health, look: Look): Done {
    var alive := look.agent.Some? && look.agent.value.alive;
    if JoinedOtherUrl(look.agent, h.url, look.target) then Rejoined(h, look)
    else if !alive || h.next.Some? then
      if !look.stopWorkerWorks then Done(h, NoStart, false, false)
      else
        var failure := if alive then h.failure else if look.agent.None? then "missing" else look.agent.value.failure;
        Recovered(cfg, WorkerStopped(h), look, failure)
    else
      var a := h.(url := Some(look.target));
      match look.agent.value.stage
      case Launching => Done(a, NoStart, false, false)
      case Joining => Done(a, NoStart, false, false)
      case OtherStage => WithoutWorker(a, look.stopWorkerWorks, false)
      case InMeeting => Attending(cfg, a, look)
  }

  /** The record as the portal keeps it, updated in place. */
  class AgentHealth {
    var restarts: nat
    var failure: string
    var url: Option<string>
    var next: Option<real>
    var joined: Option<real>
    var lastBytes: int
    var progress: Option<real>
    var healthy: Option<real>
    var config: Option<nat>
    var workerStarted: Option<real>

    constructor (url: Option<string>)
      ensures Value() == Fresh(url)
    {
      restarts, failure, this.url, next, joined := 0, "exited", url, None, None;
      lastBytes, progress, healthy, config, workerStarted := -1, None, None, None, None;
    }

    ghost function Value(): Health
      reads this
    {
      Health(restarts, failure, url, next, joined, lastBytes, progress, healthy, config, workerStarted)
    }

    method StopWorker(works: bool) returns (ok: bool)
      modifies this`config, this`workerStarted, this`healthy
      ensures ok == works && Value() == if ok then WorkerStopped(old(Value())) else old(Value())
    {
      if !works { return false; }
      config, workerStarted, healthy := None, None, None;
      return true;
    }

    method Recover(cfg: Settings, look: Look, reason: string) returns (start: Start)
      modifies this
      ensures (Value(), start) == (Recovered(cfg, old(Value()), look, reason).h,
                                   Recovered(cfg, old(Value()), look, reason).start)
    {
      joined, progress, lastBytes, failure := None, None, -1, reason;
      if restarts >= cfg.limit { return NoStart; }
      if next.None? { next := Some(look.now + Backoff(restarts)); }
      if look.now < next.value { return NoStart; }
      restarts := restarts + 1;
      next := None;
      if look.startWorks { url := Some(look.target); }
      return BudgetStart;
    }

    method Rejoin(look: Look) returns (start: Start)
      modifies this
      ensures (Value(), start) == (Rejoined(old(Value()), look).h, Rejoined(old(Value()), look).start)
    {
      var ok := StopWorker(look.stopWorkerWorks);
      if !ok { return NoStart; }
      if !look.startWorks { return UrlStart; }
      url, restarts, next, joined, progress, lastBytes := Some(look.target), 0, None, None, None, -1;
      return UrlStart;
    }

    method Transcribe(cfg: Settings, look: Look)
      modifies this
      ensures Value() == Transcribed(cfg, old(Value()), look).h
      ensures Transcribed(cfg, old(Value()), look).start == NoStart
    {
      if config.Some? && config != Some(look.config) {
        var ok := StopWorker(look.stopWorkerWorks);
        if !ok { return; }
      }
      if !look.startWorkerWorks { return; }
      config := Some(look.config);
      if workerStarted.None? { workerStarted := Some(look.now); }
      if look.now - Truthy(look.lastAudio, workerStarted.value) > cfg.stallSecs {
        var _ := StopWorker(look.lateStopWorks);
      } else if look.lastAudio.Some? && look.lastAudio.value != 0.0 {
        if healthy.None? {
          healthy := Some(look.now);
        } else if look.now - healthy.value >= STABLE_RESET_SECS {
          restarts := 0;
        }
      }
    }

    method Attend(cfg: Settings, look: Look) returns (start: Start)
      modifies this
      ensures (Value(), start) == (Attending(cfg, old(Value()), look).h, Attending(cfg, old(Value()), look).start)
    {
      start := NoStart;
      if joined.None? { joined := Some(look.now); }
      if !look.mediaKnown { return; }
      if look.bytes.Some? && look.bytes.value != lastBytes {
        lastBytes, progress := look.bytes.value, Some(look.now);
      }
      if look.now - Truthy(progress, joined.value) >= cfg.noAudioSecs {
        var ok := StopWorker(look.stopWorkerWorks);
        if ok { start := Recover(cfg, look, "no_audio"); }
        return;
      }
      if progress.None? { return; }
      if look.problem {
        var _ := StopWorker(look.stopWorkerWorks);
        return;
      }
      Transcribe(cfg, look);
    }

    method ReconcileRoom(cfg: Settings, look: Look) returns (start: Start)
      modifies this
      ensures (Value(), start) == (Looked(cfg, old(Value()), look).h, Looked(cfg, old(Value()), look).start)
    {
      start := NoStart;
      if JoinedOtherUrl(look.agent, url, look.target) {
        start := Rejoin(look);
        return;
      }
      var alive := look.agent.Some? && look.agent.value.alive;
      if !alive || next.Some? {
        var ok := StopWorker(look.stopWorkerWorks);
        if !ok { return; }
        var reason := if alive then failure else if look.agent.None? then "missing" else look.agent.value.failure;
        start := Recover(cfg, look, reason);
        return;
      }
      url := Some(look.target);
      match look.agent.value.stage {
        case Launching =>
        case Joining =>
        case OtherStage => var _ := StopWorker(look.stopWorkerWorks);
        case InMeeting => start := Attend(cfg, look);
      }
    }
  }

  // ---- Runs ----

  /** A room's record and its history: when the pending restart was scheduled, when the budget last paid for
      a start, and when the worker was last stopped. The history is not in the program. */
  datatype Track = Track(
    h: Health, clock: real, scheduled: Option<real>, lastStart: Option<real>, lastStop: Option<real>)

  /** A look, a fresh connect (or the record's loss and return), or the record of a restarted portal. */
  datatype Step = See(look: Look) | Connect(now: real, url: Option<string>)

  function Now(step: Step): real { if step.See? then step.look.now else step.now }

  function Next(cfg: Settings, t: Track, step: Step): Track {
    match step
    case Connect(now, url) => Track(Fresh(url), now, None, t.lastStart, t.lastStop)
    case See(look) =>
      var d := Looked(cfg, t.h, look);
      Track(
        d.h, look.now,
        if d.h.next.None? then None else if t.h.next.None? then Some(look.now) else t.scheduled,
        if d.start.BudgetStart? then Some(look.now) else t.lastStart,
        if d.stopped then Some(look.now) else t.lastStop)
  }

  ghost predicate Before(t: Option<real>, u: real) { t.Some? ==> t.value <= u }

  ghost predicate Inv(cfg: Settings, t: Track) {
    && t.h.restarts <= cfg.limit
    && (t.h.next.Some? <==> t.scheduled.Some?)
    && (t.h.next.Some? ==> t.h.restarts < cfg.limit && t.scheduled.value <= t.clock
                           && t.h.next.value == t.scheduled.value + Backoff(t.h.restarts)
                           && Before(t.lastStart, t.scheduled.value))
    && Before(t.lastStart, t.clock) && Before(t.lastStop, t.clock)
    && (t.h.healthy.Some? ==> t.h.healthy.value <= t.clock && Before(t.lastStop, t.h.healthy.value))
  }

  lemma RecoveredKeepsInv(cfg: Settings, h: Health, look: Look, failure: string)
    requires h.restarts <= cfg.limit && (h.next.Some? ==> h.restarts < cfg.limit)
    ensures var d := Recovered(cfg, h, look, failure);
            && d.h.restarts <= cfg.limit && (d.h.next.Some? ==> d.h.restarts < cfg.limit)
            && (d.h.next.Some? ==> d.h.restarts == h.restarts)
            && (d.h.next.Some? ==> d.h.next == Some(h.next.GetOr(look.now + Backoff(h.restarts))))
            && d.h.healthy == h.healthy && d.stopped && !d.refilled && !d.start.UrlStart?
            && (if d.start.BudgetStart?
                then d.h.restarts == h.restarts + 1 && h.restarts < cfg.limit && d.h.next.None?
                     && h.next.Some? && look.now >= h.next.value
                else d.h.restarts == h.restarts)
  {
  }

  lemma TranscribeFacts(cfg: Settings, h: Health, look: Look)
    ensures var d := Transcribed(cfg, h, look);
            && d.h.next == h.next && d.start == NoStart && d.h.restarts == (if d.refilled then 0 else h.restarts)
            && (d.h.healthy.Some? ==> d.h.healthy == Some(look.now) || (!d.stopped && d.h.healthy == h.healthy))
            && (d.refilled ==> h.healthy.Some? && look.now - h.healthy.value >= STABLE_RESET_SECS)
  {
  }

  lemma AttendFacts(cfg: Settings, h: Health, look: Look)
    requires h.restarts <= cfg.limit && h.next.None?
    ensures var d := Attending(cfg, h, look);
            && d.h.restarts <= cfg.limit && (d.h.next.Some? ==> d.h.restarts < cfg.limit)
            && (d.h.next.Some? ==> d.h.restarts == h.restarts && d.h.next == Some(look.now + Backoff(h.restarts)))
            && (d.h.healthy.Some? ==> d.h.healthy == Some(look.now) || (!d.stopped && d.h.healthy == h.healthy))
            && d.start == NoStart
            && d.h.restarts == (if d.refilled then 0 else h.restarts)
            && (d.refilled ==> h.healthy.Some? && look.now - h.healthy.value >= STABLE_RESET_SECS)
  {
    hide Backoff, Recovered, Transcribed;
    var j := h.(joined := Some(h.joined.GetOr(look.now)));
    var p := if look.bytes.Some? && look.bytes.value != j.lastBytes
             then j.(lastBytes := look.bytes.value, progress := Some(look.now)) else j;
    RecoveredKeepsInv(cfg, WorkerStopped(p), look, "no_audio");
    TranscribeFacts(cfg, p, look);
  }

  /** What a look does to the counters that matter. */
  lemma LookFacts(cfg: Settings, h: Health, look: Look)
    requires h.restarts <= cfg.limit && (h.next.Some? ==> h.restarts < cfg.limit)
    ensures var d := Looked(cfg, h, look);
            && d.h.restarts <= cfg.limit && (d.h.next.Some? ==> d.h.restarts < cfg.limit)
            && (d.h.next.Some? ==> d.h.restarts == h.restarts)
            && (d.h.next.Some? ==> d.h.next == Some(h.next.GetOr(look.now + Backoff(h.restarts))))
            && (d.h.healthy.Some? ==> d.h.healthy == Some(look.now) || (!d.stopped && d.h.healthy == h.healthy))
            && (d.start.BudgetStart? ==> h.next.Some? && look.now >= h.next.value && h.restarts < cfg.limit)
            && d.h.restarts == (if d.refilled then 0 else if d.start.BudgetStart? then h.restarts + 1 else h.restarts)
            && (d.refilled ==> !d.start.BudgetStart?)
            && (d.refilled ==>
                  (d.start.UrlStart? && look.startWorks && JoinedOtherUrl(look.agent, h.url, look.target))
                  || (h.healthy.Some? && look.now - h.healthy.value >= STABLE_RESET_SECS))
  {
    hide Backoff, JoinedOtherUrl, Recovered, Attending;
    RecoveredKeepsInv(cfg, WorkerStopped(h), look, "missing");
    if look.agent.Some? { RecoveredKeepsInv(cfg, WorkerStopped(h), look, look.agent.value.failure); }
    RecoveredKeepsInv(cfg, WorkerStopped(h), look, h.failure);
    if h.next.None? { AttendFacts(cfg, h.(url := Some(look.target)), look); }
  }

  lemma StepKeepsInv(cfg: Settings, t: Track, step: Step)
    requires Inv(cfg, t) && t.clock <= Now(step)
    ensures Inv(cfg, Next(cfg, t, step))
  {
    if step.See? {
      hide Looked, Backoff;
      LookFacts(cfg, t.h, step.look);
    }
  }

  ghost predicate Ordered(steps: seq<Step>, clock: real)
    decreases |steps|
  {
    steps == [] || (clock <= Now(steps[0]) && Ordered(steps[1..], Now(steps[0])))
  }

  function After(cfg: Settings, t: Track, steps: seq<Step>): Track
    decreases |steps|
  {
    if steps == [] then t else After(cfg, Next(cfg, t, steps[0]), steps[1..])
  }

  lemma {:induction false} ReachableInv(cfg: Settings, t: Track, steps: seq<Step>)
    requires Inv(cfg, t) && Ordered(steps, t.clock)
    ensures Inv(cfg, After(cfg, t, steps))
    decreases |steps|
  {
    if steps != [] {
      StepKeepsInv(cfg, t, steps[0]);
      ReachableInv(cfg, Next(cfg, t, steps[0]), steps[1..]);
    }
  }

  lemma InitialInv(cfg: Settings, now: real, url: Option<string>)
    ensures Inv(cfg, Track(Fresh(url), now, None, None, None))
  {
  }

  // ---- The budget ----

  predicate Refills(cfg: Settings, t: Track, step: Step) {
    step.Connect? || Looked(cfg, t.h, step.look).refilled
  }

  predicate Pays(cfg: Settings, t: Track, step: Step) {
    step.See? && Looked(cfg, t.h, step.look).start.BudgetStart?
  }

  ghost predicate NeverRefilled(cfg: Settings, t: Track, steps: seq<Step>)
    decreases |steps|
  {
    steps == [] || (!Refills(cfg, t, steps[0]) && NeverRefilled(cfg, Next(cfg, t, steps[0]), steps[1..]))
  }

  /** The starts of the budget along a run, whether or not the calls work. */
  function Paid(cfg: Settings, t: Track, steps: seq<Step>): nat
    decreases |steps|
  {
    if steps == [] then 0
    else (if Pays(cfg, t, steps[0]) then 1 else 0) + Paid(cfg, Next(cfg, t, steps[0]), steps[1..])
  }

  /** Between two refills the agent is restarted at most `limit` times, even if every call fails. */
  lemma {:induction false} BudgetHolds(cfg: Settings, t: Track, steps: seq<Step>)
    requires Inv(cfg, t) && Ordered(steps, t.clock) && NeverRefilled(cfg, t, steps)
    ensures t.h.restarts + Paid(cfg, t, steps) == After(cfg, t, steps).h.restarts <= cfg.limit
    decreases |steps|
  {
    if steps != [] {
      hide Looked, Backoff;
      LookFacts(cfg, t.h, steps[0].look);
      StepKeepsInv(cfg, t, steps[0]);
      BudgetHolds(cfg, Next(cfg, t, steps[0]), steps[1..]);
    }
  }

  /** A restart waits: it comes at least its backoff after the look that scheduled it, and as long after the
      restart before it. */
  lemma RestartsWait(cfg: Settings, t: Track, look: Look)
    requires Inv(cfg, t) && t.clock <= look.now && Pays(cfg, t, See(look))
    ensures t.scheduled.Some? && look.now - t.scheduled.value >= Backoff(t.h.restarts) >= 2.0
    ensures t.lastStart.Some? ==> look.now - t.lastStart.value >= Backoff(t.h.restarts)
  {
    hide Looked;
    LookFacts(cfg, t.h, look);
  }

  /** A scheduled restart is made at the first look from its time on that can stop the worker, and at no other,
      unless the meeting's URL changed. */
  lemma PaysExactly(cfg: Settings, t: Track, look: Look)
    requires Inv(cfg, t) && t.clock <= look.now
    ensures Pays(cfg, t, See(look)) <==>
              t.h.next.Some? && t.h.next.value <= look.now && look.stopWorkerWorks
              && !JoinedOtherUrl(look.agent, t.h.url, look.target)
    ensures Pays(cfg, t, See(look)) ==>
              var h := Next(cfg, t, See(look)).h;
              && h.restarts == t.h.restarts + 1 && h.next.None?
              && h.url == if look.startWorks then Some(look.target) else t.h.url
  {
    LookFacts(cfg, t.h, look);
    if t.h.next.None? { AttendFacts(cfg, t.h.(url := Some(look.target)), look); }
    hide Backoff, JoinedOtherUrl, Attending;
  }

  /** The agent is gone, or has been in the meeting for the whole limit without a new byte of audio. */
  predicate Needs(cfg: Settings, h: Health, look: Look) {
    look.agent.None? || !look.agent.value.alive
    || (look.agent.value.stage.InMeeting? && look.mediaKnown
        && var moved := look.bytes.Some? && look.bytes.value != h.lastBytes;
           var progress := if moved then look.now else h.progress.GetOr(0.0);
           look.now - (if progress != 0.0 then progress else h.joined.GetOr(look.now)) >= cfg.noAudioSecs)
  }

  lemma BackoffWaits(restarts: nat)
    ensures Backoff(restarts) > 0.0
  {
  }

  lemma AttendSchedules(cfg: Settings, h: Health, look: Look)
    requires h.next.None?
    ensures look.agent.Some? && look.agent.value.alive && look.agent.value.stage.InMeeting? ==>
              var g := Attending(cfg, h, look).h;
              && (g.next.Some? <==> Needs(cfg, h, look) && h.restarts < cfg.limit && look.stopWorkerWorks)
              && (g.next.Some? ==> g.next == Some(look.now + Backoff(h.restarts)))
  {
    BackoffWaits(h.restarts);
    hide Backoff, Transcribed;
    var j := h.(joined := Some(h.joined.GetOr(look.now)));
    var p := if look.bytes.Some? && look.bytes.value != j.lastBytes
             then j.(lastBytes := look.bytes.value, progress := Some(look.now)) else j;
    TranscribeFacts(cfg, p, look);
  }

  /** A restart is scheduled exactly when one is needed and the budget has one left, for its backoff from now. */
  lemma SchedulesExactly(cfg: Settings, t: Track, look: Look)
    requires Inv(cfg, t) && t.clock <= look.now && t.h.next.None?
    ensures var h := Next(cfg, t, See(look)).h;
            && (h.next.Some? <==> Needs(cfg, t.h, look) && t.h.restarts < cfg.limit && look.stopWorkerWorks
                                  && !JoinedOtherUrl(look.agent, t.h.url, look.target))
            && (h.next.Some? ==> h.next == Some(look.now + Backoff(t.h.restarts)))
  {
    AttendSchedules(cfg, t.h.(url := Some(look.target)), look);
    BackoffWaits(t.h.restarts);
    hide JoinedOtherUrl, Attending, Backoff;
  }

  /** A missing agent is restarted: found missing once, it is started at the next look after the backoff, and
      known under its URL if the start works. */
  lemma MissingIsRestarted(cfg: Settings, t: Track, look: Look, again: Look)
    requires Inv(cfg, t) && t.clock <= look.now && t.h.next.None? && t.h.restarts < cfg.limit
    requires look.agent.None? && again == look.(now := again.now) && look.stopWorkerWorks
    requires again.now >= look.now + Backoff(t.h.restarts) && !JoinedOtherUrl(None, t.h.url, look.target)
    ensures var found := Next(cfg, t, See(look));
            && Pays(cfg, found, See(again)) && Paid(cfg, t, [See(look), See(again)]) == 1
            && (look.startWorks ==> Next(cfg, found, See(again)).h.url == Some(look.target))
  {
    StepKeepsInv(cfg, t, See(look));
    PaysExactly(cfg, t, look);
    PaysExactly(cfg, Next(cfg, t, See(look)), again);
    SchedulesExactly(cfg, t, look);
    assert [See(look), See(again)][1..] == [See(again)] && [See(again)][1..] == [];
    assert Paid(cfg, Next(cfg, t, See(look)), [See(again)]) == 1;
  }

  /** A look refills the budget only for a meeting whose URL changed and that the agent was started for, or
      once the room was processed for a minute during which the worker was never stopped. */
  lemma RefillIsEarned(cfg: Settings, t: Track, look: Look)
    requires Inv(cfg, t) && t.clock <= look.now && Refills(cfg, t, See(look))
    ensures (JoinedOtherUrl(look.agent, t.h.url, look.target) && look.startWorks)
            || (t.h.healthy.Some? && look.now - t.h.healthy.value >= STABLE_RESET_SECS
                && (t.lastStop.Some? ==> look.now - t.lastStop.value >= STABLE_RESET_SECS))
    ensures Next(cfg, t, See(look)).h.restarts == 0
  {
    hide Looked, JoinedOtherUrl;
    LookFacts(cfg, t.h, look);
  }

  // ---- All starts ----

  /** The guard of a start outside the budget: the agent is in another meeting and the worker could be
      stopped. */
  predicate TriesUrl(t: Track, step: Step) {
    step.See? && JoinedOtherUrl(step.look.agent, t.h.url, step.look.target) && step.look.stopWorkerWorks
  }

  lemma UrlStartExactly(cfg: Settings, t: Track, look: Look)
    ensures Looked(cfg, t.h, look).start.UrlStart? <==> TriesUrl(t, See(look))
    ensures TriesUrl(t, See(look)) ==> !Pays(cfg, t, See(look))
    ensures TriesUrl(t, See(look)) && !look.startWorks ==>
              Looked(cfg, t.h, look).h == WorkerStopped(t.h) && !Refills(cfg, t, See(look))
  {
    hide JoinedOtherUrl, Backoff;
  }

  /** The looks of a run that meet the guard. */
  function UrlTries(cfg: Settings, t: Track, steps: seq<Step>): nat
    decreases |steps|
  {
    if steps == [] then 0
    else (if TriesUrl(t, steps[0]) then 1 else 0) + UrlTries(cfg, Next(cfg, t, steps[0]), steps[1..])
  }

  /** Every call of start_agent the reconciler makes along a run. */
  function AllStarts(cfg: Settings, t: Track, steps: seq<Step>): nat
    decreases |steps|
  {
    if steps == [] then 0
    else
      (if steps[0].See? && !Looked(cfg, t.h, steps[0].look).start.NoStart? then 1 else 0)
      + AllStarts(cfg, Next(cfg, t, steps[0]), steps[1..])
  }

  lemma {:induction false} StartsAddUp(cfg: Settings, t: Track, steps: seq<Step>)
    ensures AllStarts(cfg, t, steps) == Paid(cfg, t, steps) + UrlTries(cfg, t, steps)
    decreases |steps|
  {
    if steps != [] {
      hide Looked, JoinedOtherUrl;
      if steps[0].See? { UrlStartExactly(cfg, t, steps[0].look); }
      StartsAddUp(cfg, Next(cfg, t, steps[0]), steps[1..]);
    }
  }

  /** Between two refills the agent is started at most `limit` times in all if and only if no more looks
      meet the guard for a changed URL than the budget leaves unspent. */
  lemma AllStartsBounded(cfg: Settings, t: Track, steps: seq<Step>)
    requires Inv(cfg, t) && Ordered(steps, t.clock) && NeverRefilled(cfg, t, steps)
    ensures AllStarts(cfg, t, steps) <= cfg.limit <==>
              UrlTries(cfg, t, steps) <= cfg.limit - (After(cfg, t, steps).h.restarts - t.h.restarts)
  {
    StartsAddUp(cfg, t, steps);
    BudgetHolds(cfg, t, steps);
  }

  /** The look some seconds later. */
  function Later(look: Look, seconds: real): Look { look.(now := look.now + seconds) }

  /** The looks, one a round, of a meeting whose URL changed while the agent cannot be started. */
  function Rounds(look: Look, n: nat): (steps: seq<Step>)
    ensures |steps| == n && (n > 0 ==> steps[0] == See(look))
    decreases n
  {
    if n == 0 then [] else [See(look)] + Rounds(Later(look, RECONCILE_INTERVAL_SECS), n - 1)
  }

  /** Every look is the one before it, a round of two seconds later. */
  ghost predicate RoundByRound(steps: seq<Step>) {
    |steps| < 2
    || (steps[0].See? && steps[1] == See(steps[0].look.(now := steps[0].look.now + 2.0)) && RoundByRound(steps[1..]))
  }

  lemma {:induction false} RoundsAdvance(look: Look, n: nat)
    ensures RoundByRound(Rounds(look, n))
    decreases n
  {
    if n > 1 {
      var next := Later(look, RECONCILE_INTERVAL_SECS);
      RoundsAdvance(next, n - 1);
      assert Rounds(look, n)[1..] == Rounds(next, n - 1);
    }
  }

  /** So nothing bounds the starts: while they fail, every round makes one more and spends nothing. */
  lemma {:induction false} UrlStartsAreUnbounded(cfg: Settings, t: Track, look: Look, n: nat)
    requires t.clock <= look.now && JoinedOtherUrl(look.agent, t.h.url, look.target)
    requires look.stopWorkerWorks && !look.startWorks
    ensures var steps := Rounds(look, n);
            && RoundByRound(steps) && Ordered(steps, t.clock) && NeverRefilled(cfg, t, steps)
            && AllStarts(cfg, t, steps) == n && Paid(cfg, t, steps) == 0
            && After(cfg, t, steps).h.restarts == t.h.restarts
    decreases n
  {
    RoundsAdvance(look, n);
    if n > 0 {
      hide Looked, JoinedOtherUrl, RoundByRound;
      var steps, next := Rounds(look, n), Later(look, RECONCILE_INTERVAL_SECS);
      UrlStartExactly(cfg, t, look);
      assert steps[0] == See(look) && steps[1..] == Rounds(next, n - 1);
      UrlStartsAreUnbounded(cfg, Next(cfg, t, See(look)), next, n - 1);
    }
  }
}
