/**
  The delivery side of the CardioID component (components/CardioIDLogging/ssh.c):
  the server host-key check, the sweep `sftpClientTest` that uploads every
  finished log file of the SD card over SFTP and then deletes it locally,
  and the retry loop `SSH_INIT`.

  Every foreign call whose result the source inspects (name resolution, the
  SFTP client calls, opendir, remove) is an oracle: it takes the next
  outcome of the input sequence `outcomes`, and once that sequence is used
  up every such call succeeds. The SD card is a directory listing (names and
  whether each is a regular file) plus a map from local paths to contents;
  fopen of a local path succeeds exactly when the map holds it. The calls
  made are recorded, in order, as events.
 */
module Ssh {
  import opened Utils
  import opened Fgets

  /** error_list: NO_ERROR, ERROR_INVALID_KEY, and every other code. */
  datatype Error = NoError | InvalidKey | Failure(code: nat)

  // The name constants of include/utils.h, and the fixed parts ssh.c adds to them.
  const APP_SFTP_TEMP_FILENAME: string := "/home/ganilha/kibana/temp-"
  const APP_SFTP_FILENAME: string := "/home/ganilha/kibana/"
  const LOG_FILE_DIR: string := "/sdcard"
  const REMOTE_PREFIX: string := "cardioid"
  const LOG_SUFFIX: string := ".txt"

  /** Size of the `temp_filename` and `filename` buffers. */
  const NAME_BUFFER_SIZE: nat := 100

  /** Remote name the upload is written to first. */
  function TempName(n: string): (r: string)
    ensures |r| == |n| + 34 && r[34..] == n
  {
    APP_SFTP_TEMP_FILENAME + REMOTE_PREFIX + n
  }

  /** Remote name the upload is renamed to once it is complete. */
  function FinalName(n: string): (r: string)
    ensures |r| == |n| + 29 && r[29..] == n
  {
    APP_SFTP_FILENAME + REMOTE_PREFIX + n
  }

  /** Local path of a directory entry, for fopen and for remove. */
  function LocalPath(n: string): (r: string)
    ensures |r| == |n| + 8 && r[8..] == n
  {
    LOG_FILE_DIR + "/" + n
  }

  // ---------------------------------------------------------------------------
  // The SD card, the oracle and the record of calls

  datatype Entry = Entry(name: string, regular: bool)

  datatype Volume = Volume(entries: seq<Entry>, files: map<string, seq<char>>)

  /** The sweep's filter: `d_type == DT_REG && ENDSWITH(d_name, ".txt")`. */
  predicate Selected(e: Entry)
    ensures Selected(e) ==> e.regular && |e.name| >= |LOG_SUFFIX|
  {
    e.regular && EndsWith(e.name, LOG_SUFFIX) != 0
  }

  /** The outcome the next checked call gets. */
  function Outcome(outcomes: seq<Error>): Error {
    if outcomes == [] then NoError else outcomes[0]
  }

  /** The outcomes left after one checked call. */
  function Later(outcomes: seq<Error>): seq<Error> {
    if outcomes == [] then [] else outcomes[1..]
  }

  datatype OpenFlag = Creat | Write

  datatype DhcpContext = ClientContext | ServerContext

  datatype Call =
    | ResolveHost | RegisterSshInit | SetTimeout | Connect | OpenDir
    | OpenRemote(path: string, flag: OpenFlag)
    | CloseRemote
    | OpenLocal(path: string)
    | WriteRemote(data: seq<char>)
    | RenameRemote(from: string, to: string)
    | RemoveLocal(path: string)
    | Disconnect
    | DhcpClientRelease(context: DhcpContext)
    | StopInterface(index: nat)

  /** A call whose result the source tests, with that result; or one whose result it ignores. */
  datatype Event = Checked(call: Call, ok: bool) | Unchecked(call: Call)

  /** The sweep's state: local files, names deleted so far, calls made, outcomes left. */
  datatype Progress = Progress(files: map<string, seq<char>>, deleted: seq<string>, events: seq<Event>, rest: seq<Error>)

  datatype Reply = Reply(error: Error, p: Progress)

  /** One checked foreign call: it takes the next outcome and is recorded with it. */
  function Invoke(p: Progress, c: Call): (r: Reply)
    ensures r.p.files == p.files && r.p.deleted == p.deleted
    ensures r.p.events == p.events + [Checked(c, r.error == NoError)]
    ensures |r.p.rest| <= |p.rest|
    ensures r.error != NoError ==> |r.p.rest| < |p.rest|
  {
    var e := Outcome(p.rest);
    Reply(e, p.(events := p.events + [Checked(c, e == NoError)], rest := Later(p.rest)))
  }

  // ---------------------------------------------------------------------------
  // Specification of sftpClientTest

  /**
    The fgets loop over the part of the file not read yet: each chunk's
    strlen bytes are written; the first failed write ends the loop with its
    error.
   */
  function Stream(unread: seq<char>, p: Progress): (r: Reply)
    ensures r.p.files == p.files && r.p.deleted == p.deleted
    ensures p.events <= r.p.events
    ensures |r.p.rest| <= |p.rest|
    ensures r.error != NoError ==> |r.p.rest| < |p.rest|
    decreases |unread|
  {
    if unread == [] then Reply(NoError, p)
    else
      var k := ChunkLength(unread);
      var w := Invoke(p, WriteRemote(UpToNul(unread[..k])));
      if w.error != NoError then w else Stream(unread[k..], w.p)
  }

  /** What the per-file block does to the loop: go on to the next entry, or break out of the readdir loop with `error`. */
  datatype Step = Continue(p: Progress) | Break(error: Error, p: Progress)

  /**
    The per-file block after the write loop: close the remote file, rename it
    to its final name, remove the local file. It starts from the progress
    after the loop, whose error the close overwrites.
   */
  function Finalize(n: string, q: Progress): (s: Step)
    ensures q.events <= s.p.events
    ensures |s.p.rest| <= |q.rest|
    ensures s.Break? && s.error != NoError ==> |s.p.rest| < |q.rest|
    ensures s.Break? ==> s.error != NoError && s.p.files == q.files && s.p.deleted == q.deleted
    ensures s.Break? ==> forall i :: |q.events| <= i < |s.p.events| ==> !s.p.events[i].call.RemoveLocal?
    ensures s.Continue? ==> var k := |s.p.events|;
      k == |q.events| + 3 &&
      s.p.events[k - 2] == Checked(RenameRemote(TempName(n), FinalName(n)), true) &&
      s.p.events[k - 1].Checked? && s.p.events[k - 1].call == RemoveLocal(LocalPath(n)) &&
      (if s.p.events[k - 1].ok
       then s.p.deleted == q.deleted + [n] && s.p.files == q.files - {LocalPath(n)}
       else s.p.deleted == q.deleted && s.p.files == q.files)
  {
    var local := LocalPath(n);
    var r5 := Invoke(q, CloseRemote);
    if r5.error != NoError then Break(r5.error, r5.p) else
    var r6 := Invoke(r5.p, RenameRemote(TempName(n), FinalName(n)));
    if r6.error != NoError then Break(r6.error, r6.p) else
    var r7 := Invoke(r6.p, RemoveLocal(local));
    // a failed remove is only traced; `error` keeps the rename's NO_ERROR
    if r7.error == NoError then Continue(r7.p.(files := r7.p.files - {local}, deleted := r7.p.deleted + [n]))
    else Continue(r7.p)
  }

  /** The per-file block of the readdir loop for a selected entry named `n`. */
  function Deliver(n: string, p: Progress): (s: Step)
    ensures p.events <= s.p.events
    ensures |s.p.rest| <= |p.rest|
    ensures s.Break? && s.error != NoError ==> |s.p.rest| < |p.rest|
    ensures s.p.files.Keys <= p.files.Keys
    ensures forall path :: path in s.p.files ==> s.p.files[path] == p.files[path]
  {
    var temp, local := TempName(n), LocalPath(n);
    var r1 := Invoke(p, OpenRemote(temp, Creat));
    if r1.error != NoError then Break(r1.error, r1.p) else
    var r2 := Invoke(r1.p, CloseRemote);
    if r2.error != NoError then Break(r2.error, r2.p) else
    var r3 := Invoke(r2.p, OpenRemote(temp, Write));
    if r3.error != NoError then Break(r3.error, r3.p) else
    var p3 := r3.p;
    // a failed local fopen breaks out with `error` still NO_ERROR
    if local !in p3.files then Break(r3.error, p3.(events := p3.events + [Checked(OpenLocal(local), false)])) else
    var r4 := Stream(p3.files[local], p3.(events := p3.events + [Checked(OpenLocal(local), true)]));
    Finalize(n, r4.p)
  }

  /** How the readdir loop ended: `stopped` when by a break; `error` is the last value assigned. */
  datatype SweepResult = SweepResult(error: Error, stopped: bool, p: Progress)

  /** The readdir loop over `entries`, in directory order. */
  function Sweep(entries: seq<Entry>, p: Progress): (r: SweepResult)
    ensures !r.stopped ==> r.error == NoError
    ensures p.events <= r.p.events
    ensures |r.p.rest| <= |p.rest|
    ensures r.error != NoError ==> |r.p.rest| < |p.rest|
    ensures r.p.files.Keys <= p.files.Keys
    ensures forall path :: path in r.p.files ==> r.p.files[path] == p.files[path]
  {
    if entries == [] then SweepResult(NoError, false, p)
    else if !Selected(entries[0]) then Sweep(entries[1..], p)
    else match Deliver(entries[0].name, p)
      case Break(e, p') => SweepResult(e, true, p')
      case Continue(p') => Sweep(entries[1..], p')
  }

  /** The listing without the regular files whose names are in `deleted`. */
  function Surviving(entries: seq<Entry>, deleted: set<string>): (r: seq<Entry>)
    ensures forall e :: e in r <==> e in entries && !(e.regular && e.name in deleted)
  {
    if entries == [] then []
    else
      var head := if entries[0].regular && entries[0].name in deleted then [] else [entries[0]];
      head + Surviving(entries[1..], deleted)
  }

  /** The result of one sftpClientTest call. */
  datatype Run = Run(error: Error, volume: Volume, deleted: seq<string>, events: seq<Event>, rest: seq<Error>)

  /** The run's result once the loop is over: the card loses the entries of the files deleted. */
  function Finish(error: Error, vol: Volume, p: Progress): (r: Run)
    ensures r.error == error && r.volume.files == p.files && r.deleted == p.deleted
    ensures forall e :: e in r.volume.entries <==> e in vol.entries && !(e.regular && e.name in p.deleted)
  {
    var deleted := set n | n in p.deleted;
    Run(error, Volume(Surviving(vol.entries, deleted), p.files), p.deleted, p.events, p.rest)
  }

  function Disconnected(p: Progress): Progress {
    p.(events := p.events + [Unchecked(Disconnect)])
  }

  /** sftpClientTest on the card `vol`, with the foreign calls' outcomes `outcomes`. */
  function TestRun(vol: Volume, outcomes: seq<Error>): (r: Run)
    ensures |r.rest| <= |outcomes|
    ensures r.error != NoError ==> |r.rest| < |outcomes|
    ensures r.volume.files.Keys <= vol.files.Keys
    ensures forall path :: path in r.volume.files ==> r.volume.files[path] == vol.files[path]
  {
    var p0 := Progress(vol.files, [], [], outcomes);
    var r1 := Invoke(p0, ResolveHost);
    if r1.error != NoError then Finish(r1.error, vol, r1.p) else
    var r2 := Invoke(r1.p, RegisterSshInit);
    if r2.error != NoError then Finish(r2.error, vol, r2.p) else
    var r3 := Invoke(r2.p, SetTimeout);
    if r3.error != NoError then Finish(r3.error, vol, r3.p) else
    var r4 := Invoke(r3.p, Connect);
    if r4.error != NoError then Finish(r4.error, vol, r4.p) else
    var d := Invoke(r4.p, OpenDir);
    // opendir failing skips the loop; `error` keeps the connect's NO_ERROR
    if d.error != NoError then Finish(r4.error, vol, Disconnected(d.p)) else
    var s := Sweep(vol.entries, d.p);
    Finish(s.error, vol, Disconnected(s.p))
  }

  // ---------------------------------------------------------------------------
  // Specification of SSH_INIT

  datatype Attempts = Attempts(volume: Volume, count: nat, events: seq<Event>, rest: seq<Error>)

  /**
    The while(1) loop of SSH_INIT: sftpClientTest again and again until it
    returns NO_ERROR. Every failing run takes up at least one outcome, and
    once they are used up a run cannot fail, so the loop ends.
   */
  function Retry(vol: Volume, outcomes: seq<Error>): (a: Attempts)
    ensures 1 <= a.count <= |outcomes| + 1
    decreases |outcomes|
  {
    var run := TestRun(vol, outcomes);
    if run.error == NoError then Attempts(run.volume, 1, run.events, run.rest)
    else
      var next := Retry(run.volume, run.rest);
      Attempts(next.volume, next.count + 1, run.events + next.events, next.rest)
  }

  /** What SSH_INIT does once the loop has ended. */
  const TEARDOWN: seq<Event> := [
    Unchecked(DhcpClientRelease(ClientContext)),
    Unchecked(DhcpClientRelease(ServerContext)),
    Unchecked(StopInterface(0)),
    Unchecked(StopInterface(1))
  ]

  // ---------------------------------------------------------------------------
  // The routines of ssh.c

  /**
    The fgets/sftpClientWriteFile loop of sftpClientTest: reads the local
    file chunk by chunk and writes strlen bytes of each, stopping at the
    first failed write.
   */
  method WriteLocalFile(content: seq<char>, p0: Progress) returns (error: Error, p: Progress)
    ensures Reply(error, p) == Stream(content, p0)
  {
    error, p := NoError, p0;
    var unread := content;
    while unread != []
      invariant error == NoError
      invariant Stream(unread, p) == Stream(content, p0)
      decreases |unread|
    {
      // fgets(write_buffer, sizeof(write_buffer), file)
      var k := ChunkLength(unread);
      var writeBuffer := unread[..k];
      var reply := Invoke(p, WriteRemote(UpToNul(writeBuffer)));
      error, p := reply.error, reply.p;
      if error != NoError {
        break;
      }
      unread := unread[k..];
    }
  }

  /**
    The per-file block of sftpClientTest's readdir loop for a selected entry:
    `stop` says that the block breaks out of the loop, with `error`.
   */
  method DeliverEntry(name: string, p0: Progress) returns (stop: bool, error: Error, p: Progress)
    ensures stop ==> Deliver(name, p0) == Break(error, p)
    ensures !stop ==> Deliver(name, p0) == Continue(p) && error == NoError
  {
    var reply: Reply;
    var tempFilename := TempName(name);
    reply := Invoke(p0, OpenRemote(tempFilename, Creat));
    error, p := reply.error, reply.p;
    if error != NoError { return true, error, p; }
    reply := Invoke(p, CloseRemote);
    error, p := reply.error, reply.p;
    if error != NoError { return true, error, p; }
    reply := Invoke(p, OpenRemote(tempFilename, Write));
    error, p := reply.error, reply.p;
    if error != NoError { return true, error, p; }
    var logFilePath := LocalPath(name);
    if logFilePath !in p.files {
      p := p.(events := p.events + [Checked(OpenLocal(logFilePath), false)]);
      return true, error, p;
    }
    var content := p.files[logFilePath];
    p := p.(events := p.events + [Checked(OpenLocal(logFilePath), true)]);
    error, p := WriteLocalFile(content, p);
    ghost var written := p;
    reply := Invoke(p, CloseRemote);
    error, p := reply.error, reply.p;
    if error != NoError {
      assert Finalize(name, written) == Break(error, p);
      return true, error, p;
    }
    reply := Invoke(p, RenameRemote(tempFilename, FinalName(name)));
    error, p := reply.error, reply.p;
    if error != NoError {
      assert Finalize(name, written) == Break(error, p);
      return true, error, p;
    }
    var removed := Invoke(p, RemoveLocal(logFilePath));
    p := removed.p;
    if removed.error == NoError {
      p := p.(files := p.files - {logFilePath}, deleted := p.deleted + [name]);
    }
    assert Finalize(name, written) == Continue(p);
    stop := false;
  }

  /** sftpClientTest: connect, then upload and delete every selected file of the SD card. */
  method SftpClientTest(vol: Volume, outcomes: seq<Error>) returns (run: Run)
    ensures run == TestRun(vol, outcomes)
  {
    var error: Error;
    var p := Progress(vol.files, [], [], outcomes);
    var reply: Reply;
    label exceptionBlock: {
      reply := Invoke(p, ResolveHost);
      error, p := reply.error, reply.p;
      if error != NoError { break exceptionBlock; }
      reply := Invoke(p, RegisterSshInit);
      error, p := reply.error, reply.p;
      if error != NoError { break exceptionBlock; }
      reply := Invoke(p, SetTimeout);
      error, p := reply.error, reply.p;
      if error != NoError { break exceptionBlock; }
      reply := Invoke(p, Connect);
      error, p := reply.error, reply.p;
      if error != NoError { break exceptionBlock; }

      reply := Invoke(p, OpenDir);
      p := reply.p;
      if reply.error == NoError {
        ghost var start := p;
        var i := 0;
        while i < |vol.entries|
          invariant 0 <= i <= |vol.entries|
          invariant error == NoError
          invariant Sweep(vol.entries[i..], p) == Sweep(vol.entries, start)
        {
          assert vol.entries[i..][1..] == vol.entries[i + 1..];
          var ent := vol.entries[i];
          if ent.regular && EndsWith(ent.name, LOG_SUFFIX) != 0 {
            ghost var before := p;
            var stop;
            stop, error, p := DeliverEntry(ent.name, p);
            if stop {
              assert Sweep(vol.entries[i..], before) == SweepResult(error, true, p);
              break;
            }
          }
          i := i + 1;
        }
        assert Sweep(vol.entries, start).error == error && Sweep(vol.entries, start).p == p;
      }
      p := Disconnected(p);
    }
    run := Finish(error, vol, p);
  }

  /**
    SSH_INIT: runs sftpClientTest until it returns NO_ERROR, then releases
    DHCP and stops both interfaces. Returns the card afterwards, the number of
    runs and every call made.
   */
  method SshInit(vol: Volume, outcomes: seq<Error>) returns (final: Volume, attempts: nat, events: seq<Event>)
    ensures final == Retry(vol, outcomes).volume
    ensures attempts == Retry(vol, outcomes).count
    ensures events == Retry(vol, outcomes).events + TEARDOWN
  {
    var current, rest := vol, outcomes;
    attempts, events := 0, [];
    while true
      invariant Retry(vol, outcomes).volume == Retry(current, rest).volume
      invariant Retry(vol, outcomes).count == attempts + Retry(current, rest).count
      invariant Retry(vol, outcomes).events == events + Retry(current, rest).events
      decreases |rest|
    {
      var run := SftpClientTest(current, rest);
      attempts := attempts + 1;
      if run.error == NoError {
        events := events + run.events;
        current := run.volume;
        break;
      }
      assert events + Retry(current, rest).events == (events + run.events) + Retry(run.volume, run.rest).events;
      events := events + run.events;
      current, rest := run.volume, run.rest;
    }
    events := events + TEARDOWN;
    final := current;
  }

  // ---------------------------------------------------------------------------
  // Host-key verification

  /** trustedHostKeys: the Rebex test server's RSA, NIST P-256 and Ed25519 host keys. */
  const TRUSTED_HOST_KEYS: seq<string> := [
    "ssh-rsa AAAAB3NzaC1yc2EAAAADAQABAAABgQCzF//E0I0Jq8QN6zm+1Db9WfBkXKtIr1DuJ/wdh3oBrjf9/DsVuJXxXbFBJEg+pO/FfBBTLcjDT0UkSFD/v7+ewjZeN08Ji32MP8QbGCj5CwnCGy6lmLjFpLDqwoKytNKsVmLhFUkEZkJg5YRY79trS1gBOTrcoE8lEymfCYJx4GRa5biEs1vTqQFT6JWqQKyqwxQPbmgU4nD862y2wljbzsao5LMzxkGCnzbHu7ekv0Z1G1xjR2DNpOyHVqFH4X7UR4jFyysQrF6I42s4OJN19tJWc564K2vHDIV9jwHsvtqQkFQ5BAUJFab8dmFpWCk8xIzTBEvcaQ7JV3j2QARP9OLx6d407oVDqGU877d2LA1L1JhCxDJn1CaJ4zbx2eUUIxILU1q4IZmaZIIPEs4qcnRknCv0iVWSr+SA4nchsIQN92ybcQfRVhURLOFGQEwBNhidgmR5urjHQHmZ6Imt8yNE1PghtvgzrDOC1TPsY5KU6+5yeSQsBXKxDRcim00=",
    "ecdsa-sha2-nistp256 AAAAE2VjZHNhLXNoYTItbmlzdHAyNTYAAAAIbmlzdHAyNTYAAABBBJUIrOCAht2uFV2IkBppqw1nbDTdGFaCO/RxfKUoQW9g+Ith83DH4edrcKUiocTx/MxC9Arrj4nicHiK7bOqma0=",
    "ssh-ed25519 AAAAC3NzaC1lZDI1NTE5AAAAIC2LvW2Y0E+GiOCPPzk3S69nsZG/J6lsgbOWIrFR5Awc"
  ]

  /**
    sftpClientHostKeyVerifyCallback: tries the trusted keys in order with
    sshVerifyHostKey (`verify`) and stops at the first that succeeds. The host
    key is accepted exactly when some trusted key verifies it; otherwise the
    error of the last key tried is returned. `tried` is how many were tried.
   */
  method HostKeyVerifyCallback(hostKey: seq<bv8>, verify: (seq<bv8>, string) -> Error) returns (error: Error, ghost tried: nat)
    ensures error == NoError <==> exists i :: 0 <= i < |TRUSTED_HOST_KEYS| && verify(hostKey, TRUSTED_HOST_KEYS[i]) == NoError
    ensures error != NoError ==> error == verify(hostKey, TRUSTED_HOST_KEYS[|TRUSTED_HOST_KEYS| - 1])
    ensures 1 <= tried <= |TRUSTED_HOST_KEYS|
    ensures error == verify(hostKey, TRUSTED_HOST_KEYS[tried - 1])
    ensures forall j :: 0 <= j < tried - 1 ==> verify(hostKey, TRUSTED_HOST_KEYS[j]) != NoError
  {
    error := InvalidKey;
    var i := 0;
    while i < |TRUSTED_HOST_KEYS| && error != NoError
      invariant 0 <= i <= |TRUSTED_HOST_KEYS|
      invariant i == 0 ==> error == InvalidKey
      invariant i > 0 ==> error == verify(hostKey, TRUSTED_HOST_KEYS[i - 1])
      invariant forall j :: 0 <= j < i - 1 ==> verify(hostKey, TRUSTED_HOST_KEYS[j]) != NoError
    {
      error := verify(hostKey, TRUSTED_HOST_KEYS[i]);
      i := i + 1;
    }
    tried := i;
  }
}
