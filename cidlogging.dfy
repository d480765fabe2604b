/**
  The logging side of the CardioID component (components/CardioIDLogging/cidlogging.c):
  the SD-card sink that ESP-IDF's log output is redirected to, the mount
  routine that installs it, the level dispatch of CARDIO_LOG and the
  initialisation entry point.

  The mount, fopen and vfprintf results are inputs; the hardware
  configuration, the clock and the text formatting of ESP-IDF's macros are
  not modelled.
 */
module CidLogging {
  import opened Utils

  datatype Option<T> = None | Some(value: T)

  /** ESP-IDF's esp_err_t values the mount routine distinguishes. */
  const ESP_OK: int := 0
  const ESP_FAIL: int := -1

  /** Path opened for logging, in append mode. */
  const LOG_FILE_PATH: string := "/sdcard/log.txt"

  /**
    An open log stream, a stdio FILE: the path it was opened on; `flushed`,
    what the stdio layer has handed to the file descriptor; `buffer`, text
    vfprintf has accepted that is still in the stream's own buffer; and
    `durable`, what of the descriptor's data fsync has committed to the card.
   */
  datatype LogStream = LogStream(path: string, flushed: seq<char>, buffer: seq<char>, durable: seq<char>)

  /** Everything written through the stream, in order. */
  function Written(s: LogStream): seq<char> {
    s.flushed + s.buffer
  }

  /**
    The stream after one PRINT_TO_SD_CARD call: vfprintf appends the text to
    the stream's buffer (when it succeeds); the stdio layer hands the first
    `handed` characters of that buffer to the descriptor, as its own buffering
    decides (possibly none, since nothing calls fflush); fsync commits what the
    descriptor holds (when it succeeds; its result is ignored).
   */
  function AfterPrint(s: LogStream, text: seq<char>, writeOk: bool, handed: nat, syncOk: bool): (r: LogStream)
    ensures r.path == s.path
    ensures Written(r) == Written(s) + (if writeOk then text else [])
    ensures s.flushed <= r.flushed <= Written(r)
    ensures r.durable == (if syncOk then r.flushed else s.durable)
  {
    var buffer := if writeOk then s.buffer + text else s.buffer;
    var h := if handed < |buffer| then handed else |buffer|;
    var flushed := s.flushed + buffer[..h];
    assert flushed + buffer[h..] == s.flushed + buffer by {
      assert buffer[..h] + buffer[h..] == buffer;
    }
    LogStream(s.path, flushed, buffer[h..], if syncOk then flushed else s.durable)
  }

  /** The stream after a series of sink calls whose vfprintf results are `oks`, hand-overs `handed` and fsync results `syncs`. */
  function AfterPrints(s: LogStream, texts: seq<seq<char>>, oks: seq<bool>, handed: seq<nat>, syncs: seq<bool>): (r: LogStream)
    requires |texts| == |oks| == |handed| == |syncs|
    ensures r.path == s.path
    decreases |texts|
  {
    if texts == [] then s
    else AfterPrints(AfterPrint(s, texts[0], oks[0], handed[0], syncs[0]), texts[1..], oks[1..], handed[1..], syncs[1..])
  }

  /**
    A series of successful sink calls on a stream opened in append mode
    writes the earlier content first, then every text in call order, whatever
    the stdio layer and fsync do.
   */
  lemma {:induction false} PrintsAppendInOrder(s: LogStream, texts: seq<seq<char>>, oks: seq<bool>, handed: seq<nat>, syncs: seq<bool>)
    requires |texts| == |oks| == |handed| == |syncs|
    requires forall i :: 0 <= i < |oks| ==> oks[i]
    ensures Written(AfterPrints(s, texts, oks, handed, syncs)) == Written(s) + Concat(texts)
    decreases |texts|
  {
    if texts != [] {
      var s' := AfterPrint(s, texts[0], oks[0], handed[0], syncs[0]);
      PrintsAppendInOrder(s', texts[1..], oks[1..], handed[1..], syncs[1..]);
      assert Written(s) + texts[0] + Concat(texts[1..]) == Written(s) + Concat(texts);
    }
  }

  /** A failed vfprintf leaves what was written as it was; fsync still commits what the descriptor holds when it succeeds. */
  lemma FailedPrintWritesNothing(s: LogStream, text: seq<char>, handed: nat, syncOk: bool)
    ensures Written(AfterPrint(s, text, false, handed, syncOk)) == Written(s)
    ensures AfterPrint(s, text, false, handed, syncOk).durable ==
      (if syncOk then AfterPrint(s, text, false, handed, syncOk).flushed else s.durable)
  {
  }

  /**
    Whatever the sink calls and their results, what is on the card is a
    prefix of what the descriptor was given, which is a prefix of what was
    written: text is only ever appended, and nothing once committed is lost.
   */
  lemma {:induction false} DurableIsWrittenPrefix(s: LogStream, texts: seq<seq<char>>, oks: seq<bool>, handed: seq<nat>, syncs: seq<bool>)
    requires |texts| == |oks| == |handed| == |syncs|
    requires s.durable <= s.flushed
    ensures var r := AfterPrints(s, texts, oks, handed, syncs);
      Written(s) <= Written(r) && s.flushed <= r.flushed && s.durable <= r.durable &&
      r.durable <= r.flushed <= Written(r)
    decreases |texts|
  {
    if texts != [] {
      var s' := AfterPrint(s, texts[0], oks[0], handed[0], syncs[0]);
      DurableIsWrittenPrefix(s', texts[1..], oks[1..], handed[1..], syncs[1..]);
    }
  }

  /**
    fsync does not flush the stream's own buffer: a line printed on a fresh
    stream, with nothing handed to the descriptor, is written but not on the
    card even though fsync succeeds.
   */
  lemma SyncLeavesBufferedText()
    ensures var r := AfterPrint(LogStream(LOG_FILE_PATH, [], [], []), "x\n", true, 0, true);
      Written(r) == "x\n" && r.durable == []
  {
  }

  /** When the stdio layer hands over its whole buffer and fsync succeeds, everything written is on the card. */
  lemma FullHandOverReachesCard(s: LogStream, text: seq<char>, writeOk: bool, handed: nat)
    requires handed >= |s.buffer| + |text|
    ensures var r := AfterPrint(s, text, writeOk, handed, true);
      r.durable == Written(r) && r.buffer == []
  {
  }

  /** ESP-IDF's severities (esp_log_level_t without ESP_LOG_NONE). */
  datatype Severity = ErrorLevel | WarnLevel | InfoLevel | DebugLevel | VerboseLevel

  /** One call of an ESP_LOGx macro: its severity, tag and message (passed through "%s"). */
  datatype Emission = Emission(severity: Severity, tag: string, message: string)

  /** CARDIO_LOG: the one log emission a call makes for the integer level. */
  function CardioLog(tag: string, message: string, level: int): (e: Emission)
    ensures e.tag == tag && e.message == message
  {
    if level == 0 then Emission(ErrorLevel, tag, message)
    else if level == 1 then Emission(WarnLevel, tag, message)
    else if level == 2 then Emission(InfoLevel, tag, message)
    else Emission(DebugLevel, tag, message)
  }

  /** The CARDIO_LOG level that selects each severity; VerboseLevel is selected by none. */
  function LevelOf(s: Severity): Option<int> {
    match s
    case ErrorLevel => Some(0)
    case WarnLevel => Some(1)
    case InfoLevel => Some(2)
    case DebugLevel => Some(3)
    case VerboseLevel => None
  }

  /**
    Level dispatch: 0, 1 and 2 select error, warn and info; every other
    integer, 4 ("verbose") and negative levels included, selects debug, so the
    verbose severity is never emitted.
   */
  lemma CardioLogDispatch(tag: string, message: string, level: int)
    ensures CardioLog(tag, message, level).severity ==
      (if level == 0 then ErrorLevel else if level == 1 then WarnLevel
       else if level == 2 then InfoLevel else DebugLevel)
    ensures CardioLog(tag, message, level).severity != VerboseLevel
    ensures CardioLog(tag, message, level).severity == DebugLevel <==> !(0 <= level <= 2)
  {
  }

  /** Each emitted severity is produced by exactly the level LevelOf names (and by every level outside 0..2 for debug). */
  lemma CardioLogLevelOf(tag: string, message: string, level: int)
    ensures LevelOf(CardioLog(tag, message, level).severity) ==
      Some(if 0 <= level <= 2 then level else 3)
  {
  }

  lemma CardioLogRoundTrip(tag: string, message: string, s: Severity)
    requires LevelOf(s).Some?
    ensures CardioLog(tag, message, LevelOf(s).value).severity == s
  {
  }

  /** What MOUNT_SD_CARD reports on its diagnostic channel. */
  datatype MountReport = MountFailed | CardInitFailed(code: int) | OpenFailed | Redirected

  /**
    The static state of cidlogging.c: the `log_file` handle (None for NULL),
    whether esp_log_set_vprintf has installed PRINT_TO_SD_CARD, and whether
    SNTP has been started.
   */
  class Logger {
    var logFile: Option<LogStream>
    var redirected: bool
    var sntpStarted: bool

    /** Program start: `log_file` is a zero-initialised static, nothing is installed. */
    constructor ()
      ensures logFile == None && !redirected && !sntpStarted
    {
      logFile := None;
      redirected := false;
      sntpStarted := false;
    }

    /**
      PRINT_TO_SD_CARD: -1 and no write when no file is open; otherwise the
      text goes through vfprintf into the stream, the descriptor is fsynced
      and the result is 0, whatever vfprintf and fsync returned.
     */
    method PrintToSdCard(text: seq<char>, writeOk: bool, handed: nat, syncOk: bool) returns (res: int)
      modifies this
      ensures old(logFile).None? ==> res == -1 && logFile == None
      ensures old(logFile).Some? ==> res == 0 && logFile == Some(AfterPrint(old(logFile).value, text, writeOk, handed, syncOk))
      ensures redirected == old(redirected) && sntpStarted == old(sntpStarted)
    {
      if logFile.None? {
        return -1;
      }
      var stream := logFile.value;
      // vfprintf(log_file, fmt, list)
      var buffer := if writeOk then stream.buffer + text else stream.buffer;
      var h := if handed < |buffer| then handed else |buffer|;
      var flushed := stream.flushed + buffer[..h];
      // fsync(fileno(log_file)), whose result is not looked at
      var durable := if syncOk then flushed else stream.durable;
      logFile := Some(LogStream(stream.path, flushed, buffer[h..], durable));
      return 0;
    }

    /**
      MOUNT_SD_CARD, on the outcomes of esp_vfs_fat_sdmmc_mount (`mountResult`)
      and of fopen("/sdcard/log.txt", "a") (`openOk`, with the file's earlier
      contents `existing`, already on the card).
     */
    method MountSdCard(mountResult: int, openOk: bool, existing: seq<char>) returns (report: MountReport)
      modifies this
      ensures mountResult != ESP_OK ==> logFile == old(logFile) && redirected == old(redirected)
      ensures mountResult != ESP_OK ==> report == (if mountResult == ESP_FAIL then MountFailed else CardInitFailed(mountResult))
      ensures mountResult == ESP_OK && openOk ==>
        logFile == Some(LogStream(LOG_FILE_PATH, existing, [], existing)) && redirected && report == Redirected
      ensures mountResult == ESP_OK && !openOk ==>
        logFile == None && redirected == old(redirected) && report == OpenFailed
      ensures redirected && !old(redirected) ==> logFile.Some?
      ensures sntpStarted == old(sntpStarted)
    {
      if mountResult != ESP_OK {
        if mountResult == ESP_FAIL {
          report := MountFailed;
        } else {
          report := CardInitFailed(mountResult);
        }
        return;
      }
      // append mode: the stream starts after the file's earlier contents
      logFile := if openOk then Some(LogStream(LOG_FILE_PATH, existing, [], existing)) else None;
      if logFile.None? {
        report := OpenFailed;
      } else {
        redirected := true;
        report := Redirected;
      }
    }

    /** CARDIO_LOGGING_INIT: starts SNTP only; the mount call is commented out. */
    method CardioLoggingInit()
      modifies this
      ensures sntpStarted
      ensures logFile == old(logFile) && redirected == old(redirected)
    {
      sntpStarted := true;
    }
  }

  /**
    The start-up path of main.c: after CARDIO_LOGGING_INIT alone no log file
    is open and no redirect exists, so a sink call returns -1 and writes
    nothing.
   */
  method InitThenPrint(text: seq<char>, writeOk: bool, handed: nat, syncOk: bool) returns (res: int, redirected: bool, logFile: Option<LogStream>)
    ensures res == -1 && !redirected && logFile == None
  {
    var logger := new Logger();
    logger.CardioLoggingInit();
    res := logger.PrintToSdCard(text, writeOk, handed, syncOk);
    redirected, logFile := logger.redirected, logger.logFile;
  }

  /**
    From program start, a successful mount followed by two successful sink
    calls writes the earlier file contents, then both texts, to log.txt; the
    card keeps at least the earlier contents, and at most what was written.
   */
  method MountThenPrint(existing: seq<char>, first: seq<char>, second: seq<char>, handed1: nat, handed2: nat)
    returns (r1: int, r2: int, logFile: Option<LogStream>)
    ensures r1 == 0 && r2 == 0
    ensures logFile.Some? && logFile.value.path == LOG_FILE_PATH
    ensures Written(logFile.value) == existing + first + second
    ensures existing <= logFile.value.durable <= Written(logFile.value)
  {
    var logger := new Logger();
    var report := logger.MountSdCard(ESP_OK, true, existing);
    r1 := logger.PrintToSdCard(first, true, handed1, true);
    r2 := logger.PrintToSdCard(second, true, handed2, true);
    logFile := logger.logFile;
  }
}
