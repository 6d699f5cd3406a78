/**
 * Configuration: what the file may hold, what Load makes of it, and how an update request is
 * validated and merged.  Base64 decoding is a parameter.
 */
module Configuration {
  import opened Basics

  const MAX_INTERVAL_MINUTES := 1440
  const DEFAULT_PASSWORD := "changeme"
  const DEFAULT_PASSWORD_B64 := "Y2hhbmdlbWU="

  /** The fields that are written to the file. */
  datatype Data = Data(
    port: int, username: string, passwordB64: string, sessionTimeout: int,
    restartMin: int, restartMax: int, lockMin: int, lockMax: int, updateCheck: int, logLevel: string)

  /** A configuration in memory also carries the decoded password. */
  datatype Cfg = Cfg(data: Data, password: string)

  datatype File = Missing | Unreadable | Garbage | Json(data: Data)

  datatype LoadError = ReadFailed | BadJson | BadBase64 | BadPort | NoUsername | NoPassword
                     | BadRestartMin | BadRestartMax | BadLockMin | BadLockMax

  type Decoder = string -> Option<string>

  const DEFAULTS := Cfg(Data(8443, "admin", DEFAULT_PASSWORD_B64, 30, 5, 15, 5, 15, 360, "info"), DEFAULT_PASSWORD)

  predicate KnownLevel(level: string) {
    level == "debug" || level == "info" || level == "error"
  }

  predicate ValidRange(min: int, max: int) {
    1 <= min <= max <= MAX_INTERVAL_MINUTES
  }

  /** What a usable configuration is. */
  predicate Valid(decode: Decoder, c: Cfg) {
    var d := c.data;
    && decode(d.passwordB64) == Some(c.password) && c.password != ""
    && 1 <= d.port <= 65535 && d.username != ""
    && ValidRange(d.restartMin, d.restartMax) && ValidRange(d.lockMin, d.lockMax)
    && d.sessionTimeout >= 1 && d.updateCheck >= 1 && KnownLevel(d.logLevel)
  }

  /** What Load makes of decoded JSON: some bad fields are errors, others take a default. */
  function Parse(decode: Decoder, d: Data): Result<Cfg, LoadError> {
    if decode(d.passwordB64).None? then Err(BadBase64)
    else
      var password := decode(d.passwordB64).value;
      if d.port < 1 || d.port > 65535 then Err(BadPort)
      else if d.username == "" then Err(NoUsername)
      else if password == "" then Err(NoPassword)
      else if d.restartMin < 1 || d.restartMin > MAX_INTERVAL_MINUTES then Err(BadRestartMin)
      else if d.restartMax < d.restartMin || d.restartMax > MAX_INTERVAL_MINUTES then Err(BadRestartMax)
      else if d.lockMin < 1 || d.lockMin > MAX_INTERVAL_MINUTES then Err(BadLockMin)
      else if d.lockMax < d.lockMin || d.lockMax > MAX_INTERVAL_MINUTES then Err(BadLockMax)
      else Ok(Cfg(d.(sessionTimeout := if d.sessionTimeout <= 0 then 30 else d.sessionTimeout,
                     updateCheck := if d.updateCheck <= 0 then 360 else d.updateCheck,
                     logLevel := if KnownLevel(d.logLevel) then d.logLevel else "info"), password))
  }

  function Load(decode: Decoder, file: File): Result<Cfg, LoadError> {
    match file
    case Missing => Ok(DEFAULTS)
    case Unreadable => Err(ReadFailed)
    case Garbage => Err(BadJson)
    case Json(d) => Parse(decode, d)
  }

  /** A write that fails may leave anything behind. */
  datatype SaveOutcome = Written | Failed(leaves: File)

  function Save(c: Cfg, outcome: SaveOutcome): File {
    if outcome.Written? then Json(c.data) else outcome.leaves
  }

  /** Loading a missing file tries to create it with the defaults. */
  function FileAfterLoad(file: File, outcome: SaveOutcome): File {
    if file.Missing? then Save(DEFAULTS, outcome) else file
  }

  datatype UpdateRequest = UpdateRequest(
    sessionTimeout: int, restartMin: int, restartMax: int, lockMin: int, lockMax: int,
    updateCheck: int, logLevel: string)

  function Merge(c: Cfg, req: UpdateRequest): Cfg {
    c.(data := c.data.(sessionTimeout := req.sessionTimeout, restartMin := req.restartMin, restartMax := req.restartMax,
                       lockMin := req.lockMin, lockMax := req.lockMax, updateCheck := req.updateCheck,
                       logLevel := req.logLevel))
  }

  /** The complaints of the update handler, in its order. */
  datatype Complaint = SessionTimeout | RestartMin | RestartMax | LockMin | LockMax | UpdateCheck | LogLevel

  function Nth(n: nat): Complaint {
    match n
    case 0 => SessionTimeout
    case 1 => RestartMin
    case 2 => RestartMax
    case 3 => LockMin
    case 4 => LockMax
    case 5 => UpdateCheck
    case _ => LogLevel
  }

  /** What is wrong with the request; a maximum is measured against its minimum. */
  predicate Deserves(req: UpdateRequest, c: Complaint) {
    match c
    case SessionTimeout => req.sessionTimeout < 1
    case RestartMin => !(1 <= req.restartMin <= MAX_INTERVAL_MINUTES)
    case RestartMax => !(req.restartMin <= req.restartMax <= MAX_INTERVAL_MINUTES)
    case LockMin => !(1 <= req.lockMin <= MAX_INTERVAL_MINUTES)
    case LockMax => !(req.lockMin <= req.lockMax <= MAX_INTERVAL_MINUTES)
    case UpdateCheck => req.updateCheck < 1
    case LogLevel => !KnownLevel(req.logLevel)
  }

  /** Those of the first `n` complaints that the request deserves, in order. */
  function Deserved(req: UpdateRequest, n: nat): seq<Complaint> {
    if n == 0 then []
    else Deserved(req, n - 1) + if Deserves(req, Nth(n - 1)) then [Nth(n - 1)] else []
  }

  lemma {:induction false} DeservedExactly(req: UpdateRequest, n: nat, c: Complaint)
    ensures c in Deserved(req, n) <==> Deserves(req, c) && exists i :: 0 <= i < n && Nth(i) == c
    decreases n
  {
    if n > 0 {
      DeservedExactly(req, n - 1, c);
    }
  }

  /** The complaints and their causes, written out in the order in which they are listed. */
  lemma DeservedInOrder(req: UpdateRequest)
    ensures Deserved(req, 7)
            == If(req.sessionTimeout < 1, SessionTimeout)
               + If(req.restartMin < 1 || req.restartMin > 1440, RestartMin)
               + If(req.restartMax < req.restartMin || req.restartMax > 1440, RestartMax)
               + If(req.lockMin < 1 || req.lockMin > 1440, LockMin)
               + If(req.lockMax < req.lockMin || req.lockMax > 1440, LockMax)
               + If(req.updateCheck < 1, UpdateCheck)
               + If(req.logLevel != "debug" && req.logLevel != "info" && req.logLevel != "error", LogLevel)
  {
    assert Deserved(req, 1) == If(req.sessionTimeout < 1, SessionTimeout);
    assert Deserved(req, 2) == Deserved(req, 1) + If(req.restartMin < 1 || req.restartMin > 1440, RestartMin);
    assert Deserved(req, 3) == Deserved(req, 2) + If(req.restartMax < req.restartMin || req.restartMax > 1440, RestartMax);
    assert Deserved(req, 4) == Deserved(req, 3) + If(req.lockMin < 1 || req.lockMin > 1440, LockMin);
    assert Deserved(req, 5) == Deserved(req, 4) + If(req.lockMax < req.lockMin || req.lockMax > 1440, LockMax);
    assert Deserved(req, 6) == Deserved(req, 5) + If(req.updateCheck < 1, UpdateCheck);
  }

  function If(bad: bool, c: Complaint): seq<Complaint> { if bad then [c] else [] }

  lemma NoneDeservedIff(req: UpdateRequest)
    ensures Deserved(req, 7) == [] <==> Acceptable(req)
  {
    var r := Deserved(req, 7);
    forall c: Complaint ensures c in r <==> Deserves(req, c) {
      DeservedExactly(req, 7, c);
      assert Nth(0) == SessionTimeout && Nth(1) == RestartMin && Nth(2) == RestartMax && Nth(3) == LockMin
          && Nth(4) == LockMax && Nth(5) == UpdateCheck && Nth(6) == LogLevel;
    }
    if r == [] {
      assert SessionTimeout !in r && RestartMin !in r && RestartMax !in r && LockMin !in r
          && LockMax !in r && UpdateCheck !in r && LogLevel !in r;
    } else {
      assert r[0] in r;
    }
  }

  /** All the complaints that the request deserves, in order. */
  method Validate(req: UpdateRequest) returns (errors: seq<Complaint>)
    ensures errors == Deserved(req, 7)
    ensures errors == [] <==> Acceptable(req)
  {
    errors := [];
    if req.sessionTimeout < 1 {
      errors := errors + [SessionTimeout];
    }
    errors := ValidateIntervals(req, errors);
    if req.updateCheck < 1 {
      errors := errors + [UpdateCheck];
    }
    assert errors == Deserved(req, 6);
    if !KnownLevel(req.logLevel) {
      errors := errors + [LogLevel];
    }
    NoneDeservedIff(req);
  }

  /** The four interval checks in the middle. */
  method ValidateIntervals(req: UpdateRequest, before: seq<Complaint>) returns (errors: seq<Complaint>)
    requires before == Deserved(req, 1)
    ensures errors == Deserved(req, 5)
  {
    errors := before;
    if req.restartMin < 1 || req.restartMin > 1440 {
      errors := errors + [RestartMin];
    }
    assert errors == Deserved(req, 2);
    if req.restartMax < req.restartMin || req.restartMax > 1440 {
      errors := errors + [RestartMax];
    }
    assert errors == Deserved(req, 3);
    if req.lockMin < 1 || req.lockMin > 1440 {
      errors := errors + [LockMin];
    }
    assert errors == Deserved(req, 4);
    if req.lockMax < req.lockMin || req.lockMax > 1440 {
      errors := errors + [LockMax];
    }
  }

  predicate Acceptable(req: UpdateRequest) {
    && req.sessionTimeout >= 1 && req.updateCheck >= 1 && KnownLevel(req.logLevel)
    && ValidRange(req.restartMin, req.restartMax) && ValidRange(req.lockMin, req.lockMax)
  }

  /** Merged into a valid configuration, a request is accepted exactly when the result is valid. */
  lemma AcceptedIffMergedValid(decode: Decoder, c: Cfg, req: UpdateRequest)
    requires Valid(decode, c)
    ensures Acceptable(req) <==> Valid(decode, Merge(c, req))
  {
  }

  /** A saved configuration is loaded back unchanged, with no default replacing a value, exactly if it is valid. */
  lemma ReloadsUnchangedIffValid(decode: Decoder, c: Cfg)
    ensures Load(decode, Save(c, Written)) == Ok(c) <==> Valid(decode, c)
  {
  }

  /** Whatever the file holds, a configuration that loads is valid. */
  lemma LoadedIsValid(decode: Decoder, file: File)
    requires decode(DEFAULT_PASSWORD_B64) == Some(DEFAULT_PASSWORD)
    ensures Load(decode, file).Ok? ==> Valid(decode, Load(decode, file).value)
  {
  }

  /** What makes the file unusable: it cannot be read or decoded, or a field has no sensible default. */
  lemma LoadFailsIff(decode: Decoder, file: File)
    ensures Load(decode, file).Err? <==>
              || file.Unreadable? || file.Garbage?
              || (file.Json?
                  && var d := file.data;
                     || decode(d.passwordB64) == None || decode(d.passwordB64) == Some("") || d.username == ""
                     || d.port < 1 || d.port > 65535
                     || !(1 <= d.restartMin <= d.restartMax <= 1440) || !(1 <= d.lockMin <= d.lockMax <= 1440))
  {
  }

  /** The error names its cause. */
  lemma ErrorNamesCause(decode: Decoder, file: File)
    requires Load(decode, file).Err?
    ensures match Load(decode, file).error
            case ReadFailed => file.Unreadable?
            case BadJson => file.Garbage?
            case BadBase64 => file.Json? && decode(file.data.passwordB64) == None
            case BadPort => file.Json? && !(1 <= file.data.port <= 65535)
            case NoUsername => file.Json? && file.data.username == ""
            case NoPassword => file.Json? && decode(file.data.passwordB64) == Some("")
            case BadRestartMin => file.Json? && !(1 <= file.data.restartMin <= 1440)
            case BadRestartMax => file.Json? && !(file.data.restartMin <= file.data.restartMax <= 1440)
            case BadLockMin => file.Json? && !(1 <= file.data.lockMin <= 1440)
            case BadLockMax => file.Json? && !(file.data.lockMin <= file.data.lockMax <= 1440)
  {
  }

  /**
   * A file that loads keeps every field it holds; only a session timeout or update interval
   * below one minute and an unknown log level are replaced, by 30, 360 and "info".
   */
  lemma LoadedFields(decode: Decoder, d: Data)
    requires Load(decode, Json(d)).Ok?
    ensures var c := Load(decode, Json(d)).value;
            && Some(c.password) == decode(d.passwordB64)
            && c.data.port == d.port && c.data.username == d.username && c.data.passwordB64 == d.passwordB64
            && c.data.restartMin == d.restartMin && c.data.restartMax == d.restartMax
            && c.data.lockMin == d.lockMin && c.data.lockMax == d.lockMax
            && c.data.sessionTimeout == (if d.sessionTimeout < 1 then 30 else d.sessionTimeout)
            && c.data.updateCheck == (if d.updateCheck < 1 then 360 else d.updateCheck)
            && c.data.logLevel == (if d.logLevel == "debug" || d.logLevel == "error" then d.logLevel else "info")
  {
  }

  /** Without a file the program runs with its defaults, and leaves a file that loads as the same. */
  lemma FirstRun(decode: Decoder)
    requires decode("Y2hhbmdlbWU=") == Some("changeme")
    ensures var c := Load(decode, Missing);
            && c.Ok?
            && c.value.data == Data(8443, "admin", "Y2hhbmdlbWU=", 30, 5, 15, 5, 15, 360, "info")
            && c.value.password == "changeme"
            && FileAfterLoad(Missing, Written) == Json(c.value.data)
            && Load(decode, FileAfterLoad(Missing, Written)) == c
  {
  }

  /** A file that exists is left as it is, whether it loads or not. */
  lemma LoadKeepsFile(file: File, create: SaveOutcome)
    ensures !file.Missing? ==> FileAfterLoad(file, create) == file
    ensures file.Missing? && create.Failed? ==> FileAfterLoad(file, create) == create.leaves
  {
  }

  // ---- the objects

  class ConfigFile {
    var content: File

    constructor (content: File)
      ensures this.content == content
    {
      this.content := content;
    }

    method Write(d: Data, outcome: SaveOutcome) returns (ok: bool)
      modifies this
      ensures ok == outcome.Written? && content == (if ok then Json(d) else outcome.leaves)
    {
      match outcome {
        case Written => content := Json(d);
        case Failed(leaves) => content := leaves;
      }
      ok := outcome.Written?;
    }
  }

  class Config {
    var data: Data
    var password: string

    constructor (data: Data, password: string)
      ensures this.data == data && this.password == password
    {
      this.data, this.password := data, password;
    }

    ghost function View(): Cfg
      reads this
    {
      Cfg(data, password)
    }
  }

  /** Load patches the fields of a new configuration one after the other. */
  method LoadConfig(decode: Decoder, file: ConfigFile, outcome: SaveOutcome) returns (r: Result<Config, LoadError>)
    modifies file
    ensures file.content == FileAfterLoad(old(file.content), outcome)
    ensures Load(decode, old(file.content)).Err? ==> r == Err(Load(decode, old(file.content)).error)
    ensures Load(decode, old(file.content)).Ok? ==>
              r.Ok? && fresh(r.value) && r.value.View() == Load(decode, old(file.content)).value
  {
    match file.content {
      case Missing =>
        var cfg := new Config(DEFAULTS.data, DEFAULTS.password);
        var _ := file.Write(cfg.data, outcome);
        return Ok(cfg);
      case Unreadable => return Err(ReadFailed);
      case Garbage => return Err(BadJson);
      case Json(d) =>
        var cfg := new Config(d, "");
        var decoded := decode(cfg.data.passwordB64);
        if decoded.None? {
          return Err(BadBase64);
        }
        cfg.password := decoded.value;
        if cfg.data.sessionTimeout <= 0 {
          cfg.data := cfg.data.(sessionTimeout := 30);
        }
        if cfg.data.port < 1 || cfg.data.port > 65535 {
          return Err(BadPort);
        }
        if cfg.data.username == "" {
          return Err(NoUsername);
        }
        if cfg.password == "" {
          return Err(NoPassword);
        }
        r := CheckIntervals(cfg);
        if r.Err? {
          return;
        }
        if cfg.data.updateCheck <= 0 {
          cfg.data := cfg.data.(updateCheck := 360);
        }
        if !KnownLevel(cfg.data.logLevel) {
          cfg.data := cfg.data.(logLevel := "info");
        }
    }
  }

  method CheckIntervals(cfg: Config) returns (r: Result<Config, LoadError>)
    ensures r.Ok? <==> ValidRange(cfg.data.restartMin, cfg.data.restartMax) && ValidRange(cfg.data.lockMin, cfg.data.lockMax)
    ensures r.Ok? ==> r.value == cfg
    ensures r.Err? ==>
              var d := cfg.data;
              r.error == if !(1 <= d.restartMin <= MAX_INTERVAL_MINUTES) then BadRestartMin
                         else if !(d.restartMin <= d.restartMax <= MAX_INTERVAL_MINUTES) then BadRestartMax
                         else if !(1 <= d.lockMin <= MAX_INTERVAL_MINUTES) then BadLockMin
                         else BadLockMax
  {
    if cfg.data.restartMin < 1 || cfg.data.restartMin > MAX_INTERVAL_MINUTES {
      return Err(BadRestartMin);
    }
    if cfg.data.restartMax < cfg.data.restartMin || cfg.data.restartMax > MAX_INTERVAL_MINUTES {
      return Err(BadRestartMax);
    }
    if cfg.data.lockMin < 1 || cfg.data.lockMin > MAX_INTERVAL_MINUTES {
      return Err(BadLockMin);
    }
    if cfg.data.lockMax < cfg.data.lockMin || cfg.data.lockMax > MAX_INTERVAL_MINUTES {
      return Err(BadLockMax);
    }
    return Ok(cfg);
  }
}
