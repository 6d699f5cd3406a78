/**
 * The update, reload and log-level calls on the held configuration, which feed the scheduler's
 * interval ranges and the session timeout.
 */
module ConfigHandlers {
  import opened Basics
  import opened Configuration
  import Slots
  import SchedulerObject
  import Sessions

  /** The held configuration, its file, and what was last handed on. */
  datatype Held = Held(cfg: Cfg, file: File, restartIvl: Range, lockIvl: Range, timeout: int)

  datatype Status = Done | BadRequest | SaveError | ReloadError

  function HandOn(h: Held): Held {
    var d := h.cfg.data;
    h.(restartIvl := Range(d.restartMin, d.restartMax), lockIvl := Range(d.lockMin, d.lockMax),
       timeout := d.sessionTimeout * MINUTE)
  }

  function Reloaded(decode: Decoder, h: Held, create: SaveOutcome): (Held, Status) {
    var h' := h.(file := FileAfterLoad(h.file, create));
    match Load(decode, h.file)
    case Err(_) => (h', ReloadError)
    case Ok(c) => (HandOn(h'.(cfg := c)), Done)
  }

  /** The held configuration is changed before it is saved, and stays changed if saving fails. */
  function Updated(decode: Decoder, h: Held, req: UpdateRequest, save: SaveOutcome, create: SaveOutcome): (Held, Status) {
    if !Acceptable(req) then (h, BadRequest)
    else
      var c := Merge(h.cfg, req);
      var h' := h.(cfg := c, file := Save(c, save));
      if save.Failed? then (h', SaveError) else Reloaded(decode, h', create)
  }

  /** A log level that cannot be saved is taken back. */
  function LevelSet(h: Held, level: string, save: SaveOutcome): (Held, Status) {
    if !KnownLevel(level) then (h, BadRequest)
    else
      var c := h.cfg.(data := h.cfg.data.(logLevel := level));
      if save.Failed? then (h.(file := save.leaves), SaveError)
      else (h.(cfg := c, file := Save(c, save)), Done)
  }

  // ---- the objects

  class ConfigHolder {
    var cfg: Config
    const file: ConfigFile

    constructor (cfg: Config, file: ConfigFile)
      ensures this.cfg == cfg && this.file == file
    {
      this.cfg, this.file := cfg, file;
    }

    method Reload(decode: Decoder, create: SaveOutcome) returns (r: Result<Config, LoadError>)
      modifies this, file
      ensures file.content == FileAfterLoad(old(file.content), create)
      ensures var l := Load(decode, old(file.content));
              if l.Ok? then r == Ok(cfg) && fresh(cfg) && cfg.View() == l.value
              else r == Err(l.error) && cfg == old(cfg)
    {
      r := LoadConfig(decode, file, create);
      if r.Ok? {
        cfg := r.value;
      }
    }

    method SetLogLevel(level: string, save: SaveOutcome) returns (ok: bool)
      modifies cfg, file
      ensures ok == save.Written?
      ensures cfg.View() == if ok then old(cfg.View()).(data := old(cfg.data).(logLevel := level)) else old(cfg.View())
      ensures file.content == if ok then Json(cfg.data) else save.leaves
    {
      var prev := cfg.data.logLevel;
      cfg.data := cfg.data.(logLevel := level);
      ok := file.Write(cfg.data, save);
      if !ok {
        cfg.data := cfg.data.(logLevel := prev);
      }
    }
  }

  class Handlers {
    const config: ConfigHolder
    const scheduler: SchedulerObject.Scheduler
    const sessions: Sessions.SessionStore

    constructor (config: ConfigHolder, scheduler: SchedulerObject.Scheduler, sessions: Sessions.SessionStore)
      ensures this.config == config && this.scheduler == scheduler && this.sessions == sessions
    {
      this.config, this.scheduler, this.sessions := config, scheduler, sessions;
    }

    ghost function View(): Held
      reads this, config, config.cfg, config.file, scheduler, sessions
    {
      Held(config.cfg.View(), config.file.content, scheduler.restartInterval, scheduler.lockInterval, sessions.timeout)
    }

    method ConfigReload(decode: Decoder, create: SaveOutcome) returns (status: Status)
      modifies config, config.file, scheduler`restartInterval, scheduler`lockInterval, sessions
      ensures (View(), status) == Reloaded(decode, old(View()), create)
    {
      var r := config.Reload(decode, create);
      if r.Err? {
        return ReloadError;
      }
      var d := r.value.data;
      scheduler.UpdateIntervals(Range(d.restartMin, d.restartMax), Range(d.lockMin, d.lockMax));
      sessions.UpdateTimeout(d.sessionTimeout);
      return Done;
    }

    method ConfigUpdate(decode: Decoder, req: UpdateRequest, save: SaveOutcome, create: SaveOutcome) returns (status: Status)
      modifies config, config.cfg, config.file, scheduler`restartInterval, scheduler`lockInterval, sessions
      ensures (View(), status) == Updated(decode, old(View()), req, save, create)
    {
      var errors := Validate(req);
      if errors != [] {
        return BadRequest;
      }
      var cfg := config.cfg;
      cfg.data := cfg.data.(sessionTimeout := req.sessionTimeout);
      cfg.data := cfg.data.(restartMin := req.restartMin);
      cfg.data := cfg.data.(restartMax := req.restartMax);
      cfg.data := cfg.data.(lockMin := req.lockMin);
      cfg.data := cfg.data.(lockMax := req.lockMax);
      cfg.data := cfg.data.(updateCheck := req.updateCheck);
      cfg.data := cfg.data.(logLevel := req.logLevel);
      assert cfg.View() == Merge(old(config.cfg.View()), req);
      var ok := config.file.Write(cfg.data, save);
      if !ok {
        return SaveError;
      }
      status := ConfigReload(decode, create);
    }

    method ConfigSetLogLevel(level: string, save: SaveOutcome) returns (status: Status)
      modifies config.cfg, config.file
      ensures (View(), status) == LevelSet(old(View()), level, save)
    {
      if !KnownLevel(level) {
        return BadRequest;
      }
      var ok := config.SetLogLevel(level, save);
      status := if ok then Done else SaveError;
    }
  }

  // ---- runs

  datatype Event =
    | Update(req: UpdateRequest, save: SaveOutcome, create: SaveOutcome)
    | Reload(create: SaveOutcome)
    | SetLevel(level: string, save: SaveOutcome)
    | Edit(file: File)   // the file is changed from outside

  function Next(decode: Decoder, h: Held, e: Event): (Held, Status) {
    match e
    case Update(req, save, create) => Updated(decode, h, req, save, create)
    case Reload(create) => Reloaded(decode, h, create)
    case SetLevel(level, save) => LevelSet(h, level, save)
    case Edit(file) => (h.(file := file), Done)
  }

  function After(decode: Decoder, h: Held, es: seq<Event>): Held {
    if es == [] then h else Next(decode, After(decode, h, es[..|es| - 1]), es[|es| - 1]).0
  }

  predicate RangeInBounds(r: Range) {
    ValidRange(r.min, r.max)
  }

  predicate HeldValid(decode: Decoder, h: Held) {
    Valid(decode, h.cfg) && RangeInBounds(h.restartIvl) && RangeInBounds(h.lockIvl) && h.timeout >= MINUTE
  }

  /** What was handed on is what the held configuration says. */
  predicate InStep(h: Held) { h == HandOn(h) }

  predicate DefaultDecodes(decode: Decoder) {
    decode(DEFAULT_PASSWORD_B64) == Some(DEFAULT_PASSWORD)
  }

  lemma NextValid(decode: Decoder, h: Held, e: Event)
    requires DefaultDecodes(decode) && HeldValid(decode, h)
    ensures HeldValid(decode, Next(decode, h, e).0)
    ensures !(e.Update? && Next(decode, h, e).1 == SaveError) && InStep(h) ==> InStep(Next(decode, h, e).0)
  {
    match e
    case Update(req, save, create) =>
      AcceptedIffMergedValid(decode, h.cfg, req);
      LoadedIsValid(decode, Save(Merge(h.cfg, req), save));
    case Reload(_) => LoadedIsValid(decode, h.file);
    case _ =>
  }

  /**
   * Over any run of updates, reloads, log-level changes and outside edits, with writes that fail
   * and leave anything behind: the held configuration stays valid, and every range handed to the
   * scheduler lies within one minute and one day.
   */
  lemma {:induction false} HeldStaysValid(decode: Decoder, c: Cfg, file: File, es: seq<Event>)
    requires DefaultDecodes(decode) && Valid(decode, c)
    ensures var start := HandOn(Held(c, file, Range(1, 1), Range(1, 1), MINUTE));
            HeldValid(decode, After(decode, start, es))
  {
    if es != [] {
      HeldStaysValid(decode, c, file, es[..|es| - 1]);
      var start := HandOn(Held(c, file, Range(1, 1), Range(1, 1), MINUTE));
      NextValid(decode, After(decode, start, es[..|es| - 1]), es[|es| - 1]);
    }
  }

  /** No update of the run failed to be saved. */
  predicate EverySaveWorked(es: seq<Event>) {
    forall i :: 0 <= i < |es| && es[i].Update? ==> es[i].save.Written?
  }

  /** As long as every update can be saved, scheduler and session store agree with the held configuration. */
  lemma {:induction false} StaysInStep(decode: Decoder, c: Cfg, file: File, es: seq<Event>)
    requires DefaultDecodes(decode) && Valid(decode, c) && EverySaveWorked(es)
    ensures var start := HandOn(Held(c, file, Range(1, 1), Range(1, 1), MINUTE));
            InStep(After(decode, start, es))
  {
    if es != [] {
      var front := es[..|es| - 1];
      var start := HandOn(Held(c, file, Range(1, 1), Range(1, 1), MINUTE));
      StaysInStep(decode, c, file, front);
      HeldStaysValid(decode, c, file, front);
      NextValid(decode, After(decode, start, front), es[|es| - 1]);
    }
  }

  /**
   * An accepted update of a valid held configuration that is saved is always reloaded without
   * error: every field has the requested value, none was replaced by a default, and the
   * scheduler and the session store get the new values.
   */
  lemma AcceptedUpdateTakesEffect(decode: Decoder, h: Held, req: UpdateRequest, create: SaveOutcome)
    requires Valid(decode, h.cfg) && Acceptable(req)
    ensures var (r, status) := Updated(decode, h, req, Written, create);
            && status == Done && r.cfg == Merge(h.cfg, req) && r.file == Json(r.cfg.data) && InStep(r)
            && Requested(r.cfg.data, req) && Untouched(r.cfg, h.cfg)
            && r.restartIvl == Range(req.restartMin, req.restartMax) && r.lockIvl == Range(req.lockMin, req.lockMax)
            && r.timeout == req.sessionTimeout * MINUTE
  {
    AcceptedIffMergedValid(decode, h.cfg, req);
    ReloadsUnchangedIffValid(decode, Merge(h.cfg, req));
  }

  /** The seven fields of an update have the requested values. */
  predicate Requested(d: Data, req: UpdateRequest) {
    && d.sessionTimeout == req.sessionTimeout && d.updateCheck == req.updateCheck && d.logLevel == req.logLevel
    && d.restartMin == req.restartMin && d.restartMax == req.restartMax
    && d.lockMin == req.lockMin && d.lockMax == req.lockMax
  }

  /** The fields no update reaches. */
  predicate Untouched(c: Cfg, before: Cfg) {
    && c.password == before.password && c.data.passwordB64 == before.data.passwordB64
    && c.data.port == before.data.port && c.data.username == before.data.username
  }

  /**
   * What an update answers.  A request out of bounds is refused with nothing changed; one that
   * cannot be saved leaves the held fields changed and everything handed on as it was; and with a
   * valid held configuration nothing else goes wrong.
   */
  lemma UpdateAnswers(decode: Decoder, h: Held, req: UpdateRequest, save: SaveOutcome, create: SaveOutcome)
    requires Valid(decode, h.cfg)
    ensures var (r, status) := Updated(decode, h, req, save, create);
            var inBounds := req.sessionTimeout >= 1 && req.updateCheck >= 1
                            && 1 <= req.restartMin <= req.restartMax <= 1440 && 1 <= req.lockMin <= req.lockMax <= 1440
                            && (req.logLevel == "debug" || req.logLevel == "info" || req.logLevel == "error");
            && (status == BadRequest <==> !inBounds)
            && (status == SaveError <==> inBounds && save.Failed?)
            && (status == Done <==> inBounds && save.Written?)
            && (status == BadRequest ==> r == h)
            && (status == SaveError ==>
                  && Requested(r.cfg.data, req) && Untouched(r.cfg, h.cfg) && r.file == save.leaves
                  && r.restartIvl == h.restartIvl && r.lockIvl == h.lockIvl && r.timeout == h.timeout)
  {
    if Acceptable(req) {
      AcceptedIffMergedValid(decode, h.cfg, req);
      ReloadsUnchangedIffValid(decode, Merge(h.cfg, req));
    }
  }

  /** What a reload answers: an error exactly if the file does not load, and then nothing held changes. */
  lemma ReloadAnswers(decode: Decoder, h: Held, create: SaveOutcome)
    ensures var (r, status) := Reloaded(decode, h, create);
            && (status == Done || status == ReloadError)
            && (status == ReloadError <==> Load(decode, h.file).Err?)
            && (status == ReloadError ==>
                  r.cfg == h.cfg && r.restartIvl == h.restartIvl && r.lockIvl == h.lockIvl && r.timeout == h.timeout)
            && (status == Done ==>
                  && Load(decode, h.file) == Ok(r.cfg)
                  && r.restartIvl == Range(r.cfg.data.restartMin, r.cfg.data.restartMax)
                  && r.lockIvl == Range(r.cfg.data.lockMin, r.cfg.data.lockMax)
                  && r.timeout == r.cfg.data.sessionTimeout * MINUTE)
  {
  }

  /** What a change of the log level answers; only the level ever changes, and only if it was saved. */
  lemma LevelAnswers(h: Held, level: string, save: SaveOutcome)
    ensures var (r, status) := LevelSet(h, level, save);
            var known := level == "debug" || level == "info" || level == "error";
            && (status == BadRequest <==> !known) && (status == BadRequest ==> r == h)
            && (status == SaveError <==> known && save.Failed?) && (status == SaveError ==> r.cfg == h.cfg)
            && (status == Done <==> known && save.Written?)
            && (status == Done ==>
                  r.cfg == h.cfg.(data := h.cfg.data.(logLevel := level)) && r.file == Json(r.cfg.data))
            && r.restartIvl == h.restartIvl && r.lockIvl == h.lockIvl && r.timeout == h.timeout
  {
  }

  /** With a failed save the two can part: the held configuration has moved on, the ranges have not. */
  lemma FailedSaveParts(decode: Decoder, h: Held, req: UpdateRequest, leaves: File, create: SaveOutcome)
    requires InStep(h) && Acceptable(req)
    ensures InStep(Updated(decode, h, req, Failed(leaves), create).0) <==>
              && h.restartIvl == Range(req.restartMin, req.restartMax) && h.lockIvl == Range(req.lockMin, req.lockMax)
              && h.timeout == req.sessionTimeout * MINUTE
  {
  }

  lemma RollInBounds(ivl: Range, draw: nat)
    requires RangeInBounds(ivl) && draw <= Slots.Spread(ivl)
    ensures ivl.min <= ivl.min + draw <= ivl.max
    ensures MINUTE <= (ivl.min + draw) * MINUTE <= 1440 * MINUTE < MAX_INT64
  {
    var m := ivl.min + draw;
    assert 1 <= m <= 1440;
  }
}
