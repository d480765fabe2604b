/**
  What the delivery sweep and the retry loop of ssh.c guarantee, proved on
  the specification functions of module Ssh (which the methods
  SftpClientTest and SshInit are proved to compute).
 */
module SshProperties {
  import opened Utils
  import opened Fgets
  import opened Ssh

  // ---------------------------------------------------------------------------
  // Names

  /**
    The names built for an entry fit their 100-byte buffers (with the
    terminating NUL) only for short entry names: 65 characters for the
    temporary remote name, the tightest of the three.
   */
  lemma NameBuffersFit(n: string)
    ensures |TempName(n)| < NAME_BUFFER_SIZE <==> |n| <= 65
    ensures |FinalName(n)| < NAME_BUFFER_SIZE <==> |n| <= 70
    ensures |LocalPath(n)| < NAME_BUFFER_SIZE <==> |n| <= 91
  {
  }

  /** The temporary and the final remote names never coincide, so the rename always moves the upload. */
  lemma TempNeverFinal(n: string, m: string)
    ensures TempName(n) != FinalName(m)
  {
    assert TempName(n)[21] == 't';
    assert FinalName(m)[21] == 'c';
  }

  /** Distinct entries get distinct remote and local names. */
  lemma NamesInjective(n: string, m: string)
    requires n != m
    ensures TempName(n) != TempName(m)
    ensures FinalName(n) != FinalName(m)
    ensures LocalPath(n) != LocalPath(m)
  {
    assert TempName(n)[34..] == n && TempName(m)[34..] == m;
    assert FinalName(n)[29..] == n && FinalName(m)[29..] == m;
    assert LocalPath(n)[8..] == n && LocalPath(m)[8..] == m;
  }

  /** The filter lets through exactly the regular files whose names end in ".txt". */
  lemma SelectedIff(e: Entry)
    requires CString(e.name)
    ensures Selected(e) <==> e.regular && |e.name| >= 4 && e.name[|e.name| - 4..] == ".txt"
  {
    assert CString(LOG_SUFFIX);
    EndsWithIff(e.name, LOG_SUFFIX);
  }

  /** Every regular file named "*.txt" passes the filter. */
  lemma TxtFilesSelected(stem: string)
    requires CString(stem)
    ensures Selected(Entry(stem + LOG_SUFFIX, true))
  {
    assert CString(LOG_SUFFIX);
    EndsWithAppended(stem, LOG_SUFFIX);
  }

  // ---------------------------------------------------------------------------
  // The filter

  function SelectedOnly(entries: seq<Entry>): (r: seq<Entry>)
    ensures forall e :: e in r <==> e in entries && Selected(e)
  {
    if entries == [] then []
    else (if Selected(entries[0]) then [entries[0]] else []) + SelectedOnly(entries[1..])
  }

  function SelectedNames(entries: seq<Entry>): seq<string> {
    if entries == [] then []
    else (if Selected(entries[0]) then [entries[0].name] else []) + SelectedNames(entries[1..])
  }

  /** The sweep over the whole listing is the sweep over its selected entries: nothing else causes a call. */
  lemma {:induction false} SweepSeesOnlySelected(entries: seq<Entry>, p: Progress)
    ensures Sweep(entries, p) == Sweep(SelectedOnly(entries), p)
    decreases |entries|
  {
    if entries != [] {
      var tail := entries[1..];
      if Selected(entries[0]) {
        var s := SelectedOnly(entries);
        assert s == [entries[0]] + SelectedOnly(tail);
        assert s[0] == entries[0] && s[1..] == SelectedOnly(tail);
        match Deliver(entries[0].name, p)
        case Break(_, _) =>
        case Continue(q) => SweepSeesOnlySelected(tail, q);
      } else {
        assert SelectedOnly(entries) == SelectedOnly(tail);
        SweepSeesOnlySelected(tail, p);
      }
    }
  }

  /** A listing without selected entries makes no call, takes no outcome and changes nothing. */
  lemma NothingSelectedNothingHappens(entries: seq<Entry>, p: Progress)
    requires forall e :: e in entries ==> !Selected(e)
    ensures Sweep(entries, p) == SweepResult(NoError, false, p)
  {
    SweepSeesOnlySelected(entries, p);
    assert SelectedOnly(entries) == [];
  }

  // ---------------------------------------------------------------------------
  // Breaking out of the readdir loop

  /** Splitting the listing: a break in the first part ends the sweep; otherwise the second part goes on from where the first stopped. */
  lemma {:induction false} SweepAppend(a: seq<Entry>, b: seq<Entry>, p: Progress)
    ensures Sweep(a, p).stopped ==> Sweep(a + b, p) == Sweep(a, p)
    ensures !Sweep(a, p).stopped ==> Sweep(a + b, p) == Sweep(b, Sweep(a, p).p)
    decreases |a|
  {
    if a == [] {
      assert a + b == b;
    } else {
      assert (a + b)[0] == a[0] && (a + b)[1..] == a[1..] + b;
      if !Selected(a[0]) {
        SweepAppend(a[1..], b, p);
      } else {
        match Deliver(a[0].name, p)
        case Break(_, _) =>
        case Continue(q) => SweepAppend(a[1..], b, q);
      }
    }
  }

  /**
    A per-file failure breaks out of the whole directory loop: the entries
    after the failing one are not attempted, the sweep returns that file's
    error, and the files deleted before it stay deleted.
   */
  lemma FailureSkipsRemainingEntries(a: seq<Entry>, e: Entry, b: seq<Entry>, p: Progress)
    requires !Sweep(a, p).stopped
    requires Selected(e) && Deliver(e.name, Sweep(a, p).p).Break?
    ensures var q := Sweep(a, p).p;
      Sweep(a + [e] + b, p) == SweepResult(Deliver(e.name, q).error, true, Deliver(e.name, q).p)
    ensures Sweep(a + [e] + b, p).p.deleted == Sweep(a, p).p.deleted
    ensures Sweep(a + [e] + b, p).p.files == Sweep(a, p).p.files
  {
    var q := Sweep(a, p).p;
    assert a + [e] + b == a + ([e] + b);
    SweepAppend(a, [e] + b, p);
    assert ([e] + b)[0] == e;
    DeliverBreakChangesNothing(e.name, q);
  }

  // ---------------------------------------------------------------------------
  // One file

  /**
    A per-file block that breaks out of the loop has changed nothing on the
    card and tried no local removal.
   */
  lemma DeliverBreakChangesNothing(n: string, p: Progress)
    requires Deliver(n, p).Break?
    ensures var s := Deliver(n, p);
      s.p.files == p.files && s.p.deleted == p.deleted &&
      forall i :: |p.events| <= i < |s.p.events| ==> !s.p.events[i].call.RemoveLocal?
  {
    var local := LocalPath(n);
    var r1 := Invoke(p, OpenRemote(TempName(n), Creat));
    var r2 := Invoke(r1.p, CloseRemote);
    var r3 := Invoke(r2.p, OpenRemote(TempName(n), Write));
    if r1.error == NoError && r2.error == NoError && r3.error == NoError && local in r3.p.files {
      var p4 := r3.p.(events := r3.p.events + [Checked(OpenLocal(local), true)]);
      assert p4.events == p.events + [Checked(OpenRemote(TempName(n), Creat), true),
        Checked(CloseRemote, true), Checked(OpenRemote(TempName(n), Write), true),
        Checked(OpenLocal(local), true)];
      var r4 := Stream(r3.p.files[local], p4);
      StreamOnlyWrites(r3.p.files[local], p4);
      assert Deliver(n, p) == Finalize(n, r4.p);
      var s := Finalize(n, r4.p);
      forall i | |p.events| <= i < |s.p.events| ensures !s.p.events[i].call.RemoveLocal? {
        if i >= |r4.p.events| {
        } else if i >= |p4.events| {
          assert s.p.events[i] == r4.p.events[i];
          assert OnlyWrites(r4.p.events, |p4.events|);
        } else {
          assert s.p.events[i] == p4.events[i];
        }
      }
    }
  }

  /**
    A per-file block that goes on to the next entry ends with a successful
    rename of the temporary name to the final one and then the removal of the
    local file, which deletes it exactly when it succeeded.
   */
  lemma DeliverContinueEndsWithRemoval(n: string, p: Progress)
    requires Deliver(n, p).Continue?
    ensures var s := Deliver(n, p); var k := |s.p.events|;
      k >= |p.events| + 2 &&
      s.p.events[k - 2] == Checked(RenameRemote(TempName(n), FinalName(n)), true) &&
      s.p.events[k - 1].Checked? && s.p.events[k - 1].call == RemoveLocal(LocalPath(n)) &&
      (if s.p.events[k - 1].ok
       then s.p.deleted == p.deleted + [n] && s.p.files == p.files - {LocalPath(n)}
       else s.p.deleted == p.deleted && s.p.files == p.files)
  {
    var local := LocalPath(n);
    var r1 := Invoke(p, OpenRemote(TempName(n), Creat));
    var r2 := Invoke(r1.p, CloseRemote);
    var r3 := Invoke(r2.p, OpenRemote(TempName(n), Write));
    var p4 := r3.p.(events := r3.p.events + [Checked(OpenLocal(local), true)]);
    var r4 := Stream(r3.p.files[local], p4);
    assert Deliver(n, p) == Finalize(n, r4.p);
  }

  /** Every call recorded from index `from` on is a remote write. */
  ghost predicate OnlyWrites(events: seq<Event>, from: nat) {
    forall i :: from <= i < |events| ==> events[i].call.WriteRemote?
  }

  /** The fgets loop only ever writes. */
  lemma {:induction false} StreamOnlyWrites(unread: seq<char>, p: Progress)
    ensures OnlyWrites(Stream(unread, p).p.events, |p.events|)
    decreases |unread|
  {
    if unread != [] {
      var k := ChunkLength(unread);
      var w := Invoke(p, WriteRemote(UpToNul(unread[..k])));
      if w.error == NoError {
        StreamOnlyWrites(unread[k..], w.p);
        var r := Stream(unread[k..], w.p);
        assert r.p.events[|p.events|] == w.p.events[|p.events|];
      }
    }
  }

  /** No outcome left to fail: every checked call succeeds. */
  ghost predicate AllOk(outcomes: seq<Error>) {
    forall i :: 0 <= i < |outcomes| ==> outcomes[i] == NoError
  }

  lemma InvokeAllOk(p: Progress, c: Call)
    requires AllOk(p.rest)
    ensures Invoke(p, c).error == NoError && AllOk(Invoke(p, c).p.rest)
  {
  }

  /** The write events of a successful write loop, one per chunk. */
  function WriteEvents(data: seq<seq<char>>): (r: seq<Event>)
    ensures |r| == |data|
  {
    if data == [] then [] else [Checked(WriteRemote(data[0]), true)] + WriteEvents(data[1..])
  }

  lemma SentCons(c: seq<char>, cs: seq<seq<char>>)
    ensures WriteEvents(Sent([c] + cs)) == [Checked(WriteRemote(UpToNul(c)), true)] + WriteEvents(Sent(cs))
  {
    var out := Sent([c] + cs);
    assert out == [UpToNul(c)] + Sent(cs) by {
      assert ([c] + cs)[0] == c && ([c] + cs)[1..] == cs;
    }
    assert out[0] == UpToNul(c) && out[1..] == Sent(cs);
  }

  /** When no outcome can fail, the write loop succeeds and leaves every later call succeeding. */
  lemma {:induction false} StreamAllOkSucceeds(unread: seq<char>, p: Progress)
    requires AllOk(p.rest)
    ensures var r := Stream(unread, p);
      r.error == NoError && AllOk(r.p.rest)
    decreases |unread|
  {
    if unread != [] {
      var k := ChunkLength(unread);
      var w := Invoke(p, WriteRemote(UpToNul(unread[..k])));
      InvokeAllOk(p, WriteRemote(UpToNul(unread[..k])));
      StreamAllOkSucceeds(unread[k..], w.p);
    }
  }

  /** When every write succeeds the loop writes each chunk's strlen bytes, in file order. */
  lemma {:induction false} StreamAllOkWrites(unread: seq<char>, p: Progress)
    requires AllOk(p.rest)
    ensures var r := Stream(unread, p);
      r.p.events == p.events + WriteEvents(Sent(Chunks(unread)))
    decreases |unread|
  {
    if unread != [] {
      var k := ChunkLength(unread);
      var ev := Checked(WriteRemote(UpToNul(unread[..k])), true);
      var w := Invoke(p, WriteRemote(UpToNul(unread[..k])));
      InvokeAllOk(p, WriteRemote(UpToNul(unread[..k])));
      StreamAllOkWrites(unread[k..], w.p);
      var later := WriteEvents(Sent(Chunks(unread[k..])));
      SentCons(unread[..k], Chunks(unread[k..]));
      assert (p.events + [ev]) + later == p.events + ([ev] + later);
    }
  }

  /** The calls one file gets when nothing fails: its fixed step order. */
  function DeliveryEvents(n: string, content: seq<char>): seq<Event> {
    [ Checked(OpenRemote(TempName(n), Creat), true),
      Checked(CloseRemote, true),
      Checked(OpenRemote(TempName(n), Write), true),
      Checked(OpenLocal(LocalPath(n)), true) ]
    + WriteEvents(Sent(Chunks(content)))
    + [ Checked(CloseRemote, true),
        Checked(RenameRemote(TempName(n), FinalName(n)), true),
        Checked(RemoveLocal(LocalPath(n)), true) ]
  }

  /**
    With every call succeeding and the local file present, a file is created
    remotely, closed, reopened for writing, streamed chunk by chunk, closed,
    renamed to its final name and then deleted locally.
   */
  lemma DeliverAllOk(n: string, p: Progress)
    requires AllOk(p.rest)
    requires LocalPath(n) in p.files
    ensures var s := Deliver(n, p);
      s.Continue? && AllOk(s.p.rest) &&
      s.p.events == p.events + DeliveryEvents(n, p.files[LocalPath(n)]) &&
      s.p.deleted == p.deleted + [n] &&
      s.p.files == p.files - {LocalPath(n)}
  {
    var temp, local := TempName(n), LocalPath(n);
    var content := p.files[local];
    var r1 := Invoke(p, OpenRemote(temp, Creat));
    InvokeAllOk(p, OpenRemote(temp, Creat));
    var r2 := Invoke(r1.p, CloseRemote);
    InvokeAllOk(r1.p, CloseRemote);
    var r3 := Invoke(r2.p, OpenRemote(temp, Write));
    InvokeAllOk(r2.p, OpenRemote(temp, Write));
    var p4 := r3.p.(events := r3.p.events + [Checked(OpenLocal(local), true)]);
    StreamAllOkSucceeds(content, p4);
    StreamAllOkWrites(content, p4);
    var r4 := Stream(content, p4);
    InvokeAllOk(r4.p, CloseRemote);
    var r5 := Invoke(r4.p, CloseRemote);
    InvokeAllOk(r5.p, RenameRemote(temp, FinalName(n)));
    var r6 := Invoke(r5.p, RenameRemote(temp, FinalName(n)));
    InvokeAllOk(r6.p, RemoveLocal(local));
  }

  /** With every call succeeding, a file breaks the loop only when its local fopen fails, and then with NO_ERROR. */
  lemma DeliverAllOkNeverFails(n: string, p: Progress)
    requires AllOk(p.rest)
    ensures var s := Deliver(n, p);
      AllOk(s.p.rest) && (s.Break? ==> s.error == NoError && LocalPath(n) !in p.files)
  {
    if LocalPath(n) in p.files {
      DeliverAllOk(n, p);
    } else {
      var r1 := Invoke(p, OpenRemote(TempName(n), Creat));
      InvokeAllOk(p, OpenRemote(TempName(n), Creat));
      var r2 := Invoke(r1.p, CloseRemote);
      InvokeAllOk(r1.p, CloseRemote);
      InvokeAllOk(r2.p, OpenRemote(TempName(n), Write));
    }
  }

  /**
    A failed local fopen, after the remote file was opened for writing,
    breaks out of the readdir loop with `error` still NO_ERROR; nothing is
    written, renamed or deleted.
   */
  lemma MissingLocalFileBreaksWithNoError(n: string, p: Progress)
    requires |p.rest| >= 3 && p.rest[0] == NoError && p.rest[1] == NoError && p.rest[2] == NoError
    requires LocalPath(n) !in p.files
    ensures Deliver(n, p).Break? && Deliver(n, p).error == NoError
    ensures Deliver(n, p).p.files == p.files && Deliver(n, p).p.deleted == p.deleted
    ensures Deliver(n, p).p.events == p.events + [
      Checked(OpenRemote(TempName(n), Creat), true),
      Checked(CloseRemote, true),
      Checked(OpenRemote(TempName(n), Write), true),
      Checked(OpenLocal(LocalPath(n)), false)]
  {
    var r1 := Invoke(p, OpenRemote(TempName(n), Creat));
    assert r1.p.rest == p.rest[1..];
    var r2 := Invoke(r1.p, CloseRemote);
    assert r2.p.rest == p.rest[2..];
  }

  /**
    A failed chunk write does not stop the file: the loop ends, `error` is
    overwritten by a successful close, and the partly written upload is still
    renamed and the local file deleted.
   */
  lemma WriteFailureStillDeletes(n: string, p: Progress)
    requires LocalPath(n) in p.files && p.files[LocalPath(n)] != []
    requires |p.rest| >= 7
    requires p.rest[0] == NoError && p.rest[1] == NoError && p.rest[2] == NoError
    requires p.rest[3] != NoError
    requires p.rest[4] == NoError && p.rest[5] == NoError && p.rest[6] == NoError
    ensures Deliver(n, p).Continue?
    ensures Deliver(n, p).p.deleted == p.deleted + [n]
    ensures Deliver(n, p).p.files == p.files - {LocalPath(n)}
    ensures Deliver(n, p).p.rest == p.rest[7..]
  {
    var temp, local := TempName(n), LocalPath(n);
    var content := p.files[local];
    var r1 := Invoke(p, OpenRemote(temp, Creat));
    assert r1.p.rest == p.rest[1..];
    var r2 := Invoke(r1.p, CloseRemote);
    assert r2.p.rest == p.rest[2..];
    var r3 := Invoke(r2.p, OpenRemote(temp, Write));
    assert r3.error == NoError && r3.p.rest == p.rest[3..];
    var p4 := r3.p.(events := r3.p.events + [Checked(OpenLocal(local), true)]);
    var r4 := Stream(content, p4);
    assert r4.error == p.rest[3] && r4.p.rest == p.rest[4..];
    var r5 := Invoke(r4.p, CloseRemote);
    assert r5.error == NoError && r5.p.rest == p.rest[5..];
    var r6 := Invoke(r5.p, RenameRemote(temp, FinalName(n)));
    assert r6.error == NoError && r6.p.rest == p.rest[6..];
  }

  /** The progress the write loop starts from, once the three remote calls and the local fopen have succeeded. */
  function WriteStart(n: string, p: Progress): Progress {
    p.(events := p.events + [
         Checked(OpenRemote(TempName(n), Creat), true),
         Checked(CloseRemote, true),
         Checked(OpenRemote(TempName(n), Write), true),
         Checked(OpenLocal(LocalPath(n)), true)],
       rest := Later(Later(Later(p.rest))))
  }

  /**
    Whatever error the write loop ends with, at whichever chunk, it is
    dropped: once the three remote calls succeed and the local file opens, the
    block goes on to close, rename and remove from wherever the loop stopped.
   */
  lemma WriteErrorOverwritten(n: string, p: Progress)
    requires LocalPath(n) in p.files
    requires Outcome(p.rest) == NoError && Outcome(Later(p.rest)) == NoError && Outcome(Later(Later(p.rest))) == NoError
    ensures Deliver(n, p) == Finalize(n, Stream(p.files[LocalPath(n)], WriteStart(n, p)).p)
  {
    var r1 := Invoke(p, OpenRemote(TempName(n), Creat));
    var r2 := Invoke(r1.p, CloseRemote);
    var r3 := Invoke(r2.p, OpenRemote(TempName(n), Write));
    assert r3.p.(events := r3.p.events + [Checked(OpenLocal(LocalPath(n)), true)]) == WriteStart(n, p);
  }

  /** A close and a rename that succeed always let the loop go on to the next entry, whatever the remove does. */
  lemma CloseAndRenameGoOn(n: string, q: Progress)
    requires Outcome(q.rest) == NoError && Outcome(Later(q.rest)) == NoError
    ensures Finalize(n, q).Continue?
    ensures Finalize(n, q).p.events[|q.events|] == Checked(CloseRemote, true)
  {
    var r5 := Invoke(q, CloseRemote);
    assert r5.p.events[|q.events|] == Checked(CloseRemote, true);
  }

  /**
    A write failing at any chunk never keeps the file from being renamed:
    when the close and rename after the loop succeed, the file is renamed to
    its final name and removed, and deleted when the remove succeeds.
   */
  lemma AnyWriteFailureStillRenamed(n: string, p: Progress)
    requires LocalPath(n) in p.files
    requires Outcome(p.rest) == NoError && Outcome(Later(p.rest)) == NoError && Outcome(Later(Later(p.rest))) == NoError
    requires var r := Stream(p.files[LocalPath(n)], WriteStart(n, p));
      Outcome(r.p.rest) == NoError && Outcome(Later(r.p.rest)) == NoError
    ensures var s := Deliver(n, p); var k := |s.p.events|;
      s.Continue? &&
      s.p.events[k - 2] == Checked(RenameRemote(TempName(n), FinalName(n)), true) &&
      s.p.events[k - 1].call == RemoveLocal(LocalPath(n))
  {
    WriteErrorOverwritten(n, p);
    CloseAndRenameGoOn(n, Stream(p.files[LocalPath(n)], WriteStart(n, p)).p);
  }

  /** The write loop over "a\nb" when its first write succeeds and its second fails. */
  lemma TwoChunkSecondWriteFails(q: Progress, code: nat)
    requires |q.rest| >= 2 && q.rest[0] == NoError && q.rest[1] == Failure(code)
    ensures Stream("a\nb", q) == Reply(Failure(code), q.(
      events := q.events + [Checked(WriteRemote("a\n"), true), Checked(WriteRemote("b"), false)],
      rest := q.rest[2..]))
  {
    var content: seq<char> := "a\nb";
    assert content[1..] == "\nb" && content[2..] == "b";
    assert LineLength(content[1..], MAX_CHUNK - 1) == 1;
    assert ChunkLength(content) == 2;
    assert content[..2] == "a\n";
    assert UpToNul("a\n"[1..]) == "\n";
    assert UpToNul("a\n") == "a\n";
    assert ChunkLength("b") == 1 && "b"[..1] == "b" && "b"[1..] == [];
    assert UpToNul("b") == "b";
    var w1 := Invoke(q, WriteRemote("a\n"));
    assert w1.p.rest == q.rest[1..];
    assert Stream(content, q) == Stream("b", w1.p);
  }

  /**
    The two-chunk file "a\nb" whose second write fails: the first line is
    sent, the second write fails, and the upload, missing its last line, is
    still renamed and the local file deleted.
   */
  lemma SecondWriteFailureStillDeletes(n: string, p: Progress, code: nat)
    requires LocalPath(n) in p.files && p.files[LocalPath(n)] == "a\nb"
    requires p.rest == [NoError, NoError, NoError, NoError, Failure(code), NoError, NoError, NoError]
    ensures var s := Deliver(n, p);
      s.Continue? && s.p.deleted == p.deleted + [n] && s.p.files == p.files - {LocalPath(n)} &&
      s.p.events[|p.events| + 4] == Checked(WriteRemote("a\n"), true) &&
      s.p.events[|p.events| + 5] == Checked(WriteRemote("b"), false)
  {
    var q := WriteStart(n, p);
    assert q.rest == [NoError, Failure(code), NoError, NoError, NoError];
    TwoChunkSecondWriteFails(q, code);
    var r := Stream("a\nb", q);
    assert r.p.rest == [NoError, NoError, NoError];
    WriteErrorOverwritten(n, p);
    var r5 := Invoke(r.p, CloseRemote);
    var r6 := Invoke(r5.p, RenameRemote(TempName(n), FinalName(n)));
    assert r6.p.rest == [NoError];
    assert Deliver(n, p).p.events[|p.events| + 4] == r.p.events[|p.events| + 4];
    assert Deliver(n, p).p.events[|p.events| + 5] == r.p.events[|p.events| + 5];
  }

  /**
    A failed local remove after a successful close and rename is only traced:
    the block goes on to the next entry with the card unchanged.
   */
  lemma RemoveFailureOnlyTraced(n: string, q: Progress)
    requires |q.rest| >= 3 && q.rest[0] == NoError && q.rest[1] == NoError && q.rest[2] != NoError
    ensures Finalize(n, q).Continue?
    ensures Finalize(n, q).p.files == q.files && Finalize(n, q).p.deleted == q.deleted
    ensures Finalize(n, q).p.events == q.events + [
      Checked(CloseRemote, true),
      Checked(RenameRemote(TempName(n), FinalName(n)), true),
      Checked(RemoveLocal(LocalPath(n)), false)]
  {
    var r5 := Invoke(q, CloseRemote);
    assert r5.p.rest == q.rest[1..];
    var r6 := Invoke(r5.p, RenameRemote(TempName(n), FinalName(n)));
    assert r6.p.rest == q.rest[2..];
  }

  // ---------------------------------------------------------------------------
  // The whole sweep

  function LocalPaths(names: seq<string>): set<string> {
    set n | n in names :: LocalPath(n)
  }

  /** The rename-then-remove pair, both successful, that deleting `n` leaves in the record of calls. */
  ghost predicate Delivered(events: seq<Event>, n: string) {
    exists j :: 0 <= j < |events| - 1 &&
      events[j] == Checked(RenameRemote(TempName(n), FinalName(n)), true) &&
      events[j + 1] == Checked(RemoveLocal(LocalPath(n)), true)
  }

  lemma DeliveredPersists(events: seq<Event>, more: seq<Event>, n: string)
    requires Delivered(events, n) && events <= more
    ensures Delivered(more, n)
  {
    var j :| 0 <= j < |events| - 1 &&
      events[j] == Checked(RenameRemote(TempName(n), FinalName(n)), true) &&
      events[j + 1] == Checked(RemoveLocal(LocalPath(n)), true);
    assert more[j] == events[j] && more[j + 1] == events[j + 1];
  }

  lemma LocalPathsAppend(a: seq<string>, b: seq<string>)
    ensures LocalPaths(a + b) == LocalPaths(a) + LocalPaths(b)
  {
    forall x | x in LocalPaths(a + b) ensures x in LocalPaths(a) + LocalPaths(b) {
      var n :| n in a + b && x == LocalPath(n);
      if n in a { assert x in LocalPaths(a); } else { assert x in LocalPaths(b); }
    }
    forall x | x in LocalPaths(a) + LocalPaths(b) ensures x in LocalPaths(a + b) {
      if x in LocalPaths(a) {
        var n :| n in a && x == LocalPath(n);
        assert n in a + b;
      } else {
        var n :| n in b && x == LocalPath(n);
        assert n in a + b;
      }
    }
  }

  /**
    From `p` to `q`, the names deleted are among `names`, each was renamed to
    its final name and removed locally, and the card lost exactly their local
    paths.
   */
  ghost predicate DeletesOnly(p: Progress, q: Progress, names: seq<string>) {
    p.deleted <= q.deleted &&
    q.files == p.files - LocalPaths(q.deleted[|p.deleted|..]) &&
    forall n :: n in q.deleted[|p.deleted|..] ==> n in names && Delivered(q.events, n)
  }

  lemma DeletesOnlyNothing(p: Progress)
    ensures DeletesOnly(p, p, [])
  {
    assert p.deleted[|p.deleted|..] == [];
    assert p.files - LocalPaths([]) == p.files;
  }

  lemma DeletesOnlyChain(p: Progress, q: Progress, r: Progress, a: seq<string>, b: seq<string>)
    requires DeletesOnly(p, q, a) && DeletesOnly(q, r, b) && q.events <= r.events
    ensures DeletesOnly(p, r, a + b)
  {
    var here, later := q.deleted[|p.deleted|..], r.deleted[|q.deleted|..];
    assert r.deleted[|p.deleted|..] == here + later;
    LocalPathsAppend(here, later);
    assert r.files == p.files - LocalPaths(here + later);
    forall n | n in here + later ensures n in a + b && Delivered(r.events, n) {
      if n in here {
        DeliveredPersists(q.events, r.events, n);
      }
    }
  }

  lemma DeletesOnlyUnchanged(p: Progress, q: Progress, names: seq<string>)
    requires q.deleted == p.deleted && q.files == p.files
    ensures DeletesOnly(p, q, names)
  {
    assert q.deleted[|p.deleted|..] == [];
    assert q.files == p.files - LocalPaths([]);
  }

  lemma DeletesOnlyOne(p: Progress, q: Progress, n: string)
    requires q.deleted == p.deleted + [n] && q.files == p.files - {LocalPath(n)}
    requires Delivered(q.events, n)
    ensures DeletesOnly(p, q, [n])
  {
    assert q.deleted[|p.deleted|..] == [n];
    assert LocalPaths([n]) == {LocalPath(n)};
  }

  /** One file: only its own name can be deleted, and only after its rename and removal succeeded. */
  lemma DeliverDeletesOnly(n: string, p: Progress)
    ensures DeletesOnly(p, Deliver(n, p).p, [n])
  {
    var s := Deliver(n, p);
    if s.Break? {
      DeliverBreakChangesNothing(n, p);
      DeletesOnlyUnchanged(p, s.p, [n]);
    } else {
      DeliverContinueEndsWithRemoval(n, p);
      var k := |s.p.events|;
      if s.p.events[k - 1].ok {
        assert Delivered(s.p.events, n) by {
          assert s.p.events[k - 2] == Checked(RenameRemote(TempName(n), FinalName(n)), true);
          assert s.p.events[k - 1] == Checked(RemoveLocal(LocalPath(n)), true);
        }
        DeletesOnlyOne(p, s.p, n);
      } else {
        DeletesOnlyUnchanged(p, s.p, [n]);
      }
    }
  }

  /**
    Which local files a sweep deletes: only selected entries, each after its
    upload was renamed to the final name and its removal succeeded; the card
    loses exactly their local paths and nothing else changes.
   */
  lemma {:induction false} SweepDeletesOnlyDelivered(entries: seq<Entry>, p: Progress)
    ensures DeletesOnly(p, Sweep(entries, p).p, SelectedNames(entries))
    decreases |entries|
  {
    if entries == [] {
      DeletesOnlyNothing(p);
    } else if !Selected(entries[0]) {
      SweepDeletesOnlyDelivered(entries[1..], p);
      assert SelectedNames(entries) == SelectedNames(entries[1..]);
    } else {
      var n0 := entries[0].name;
      DeliverDeletesOnly(n0, p);
      assert SelectedNames(entries) == [n0] + SelectedNames(entries[1..]);
      match Deliver(n0, p)
      case Break(_, q) =>
        assert DeletesOnly(p, q, [n0]);
      case Continue(q) =>
        SweepDeletesOnlyDelivered(entries[1..], q);
        DeletesOnlyChain(p, q, Sweep(entries[1..], q).p, [n0], SelectedNames(entries[1..]));
    }
  }

  /** Names with no repeats among the selected entries, as in a real directory. */
  ghost predicate DistinctNames(names: seq<string>) {
    forall i, j :: 0 <= i < j < |names| ==> names[i] != names[j]
  }

  /** With every call succeeding, the sweep returns NO_ERROR whatever it meets. */
  lemma {:induction false} SweepAllOkNoError(entries: seq<Entry>, p: Progress)
    requires AllOk(p.rest)
    ensures var r := Sweep(entries, p);
      r.error == NoError && AllOk(r.p.rest)
    decreases |entries|
  {
    if entries != [] {
      if !Selected(entries[0]) {
        SweepAllOkNoError(entries[1..], p);
      } else {
        DeliverAllOkNeverFails(entries[0].name, p);
        match Deliver(entries[0].name, p)
        case Break(_, _) =>
        case Continue(q) => SweepAllOkNoError(entries[1..], q);
      }
    }
  }

  /** From `p` to `q`, exactly `names` were deleted, in that order, and the card lost exactly their local paths. */
  ghost predicate DeletesAll(p: Progress, q: Progress, names: seq<string>) {
    q.deleted == p.deleted + names && q.files == p.files - LocalPaths(names)
  }

  lemma DeletesAllChain(p: Progress, q: Progress, r: Progress, a: seq<string>, b: seq<string>)
    requires DeletesAll(p, q, a) && DeletesAll(q, r, b)
    ensures DeletesAll(p, r, a + b)
  {
    assert p.deleted + a + b == p.deleted + (a + b);
    LocalPathsAppend(a, b);
  }

  /** The conditions under which the rest of a listing is delivered whole. */
  ghost predicate Deliverable(entries: seq<Entry>, p: Progress) {
    AllOk(p.rest) && DistinctNames(SelectedNames(entries)) &&
    forall n :: n in SelectedNames(entries) ==> LocalPath(n) in p.files
  }

  lemma DistinctTail(names: seq<string>)
    requires names != [] && DistinctNames(names)
    ensures DistinctNames(names[1..]) && names[0] !in names[1..]
  {
    forall i, j | 0 <= i < j < |names[1..]| ensures names[1..][i] != names[1..][j] {
      assert names[i + 1] != names[j + 1];
    }
    forall i | 0 <= i < |names[1..]| ensures names[1..][i] != names[0] {
      assert names[0] != names[i + 1];
    }
  }

  /** Removing one local path keeps every other name's local file. */
  lemma OthersStayPresent(n0: string, names: seq<string>, files: map<string, seq<char>>)
    requires n0 !in names
    requires forall n :: n in names ==> LocalPath(n) in files
    ensures forall n :: n in names ==> LocalPath(n) in files - {LocalPath(n0)}
  {
    forall n | n in names ensures LocalPath(n) in files - {LocalPath(n0)} {
      NamesInjective(n0, n);
    }
  }

  /** Delivering the first selected entry keeps the rest deliverable. */
  lemma DeliverableTail(entries: seq<Entry>, p: Progress)
    requires entries != [] && Selected(entries[0]) && Deliverable(entries, p)
    ensures var q := Deliver(entries[0].name, p);
      q.Continue? && DeletesAll(p, q.p, [entries[0].name]) && Deliverable(entries[1..], q.p)
  {
    var n0, tail := entries[0].name, entries[1..];
    var names := SelectedNames(entries);
    assert names == [n0] + SelectedNames(tail);
    assert names[1..] == SelectedNames(tail);
    DistinctTail(names);
    DeliverAllOk(n0, p);
    assert LocalPaths([n0]) == {LocalPath(n0)};
    OthersStayPresent(n0, SelectedNames(tail), p.files);
  }

  /**
    With every call succeeding and every selected file present locally, the
    sweep runs to the end of the listing and deletes every selected file,
    in directory order.
   */
  lemma {:induction false} SweepAllOkDeliversAll(entries: seq<Entry>, p: Progress)
    requires Deliverable(entries, p)
    ensures var r := Sweep(entries, p);
      !r.stopped && DeletesAll(p, r.p, SelectedNames(entries))
    decreases |entries|
  {
    if entries == [] {
      assert p.files - LocalPaths([]) == p.files;
    } else if !Selected(entries[0]) {
      assert SelectedNames(entries) == SelectedNames(entries[1..]);
      SweepAllOkDeliversAll(entries[1..], p);
    } else {
      DeliverableTail(entries, p);
      var q := Deliver(entries[0].name, p).p;
      SweepAllOkDeliversAll(entries[1..], q);
      assert SelectedNames(entries) == [entries[0].name] + SelectedNames(entries[1..]);
      DeletesAllChain(p, q, Sweep(entries[1..], q).p, [entries[0].name], SelectedNames(entries[1..]));
    }
  }

  // ---------------------------------------------------------------------------
  // A whole sftpClientTest run

  /** A run that deleted nothing leaves the card as it found it. */
  lemma FinishUntouched(error: Error, vol: Volume, p: Progress)
    requires p.deleted == [] && p.files == vol.files
    ensures Finish(error, vol, p) == Run(error, vol, [], p.events, p.rest)
  {
    var deleted := set n | n in p.deleted;
    assert deleted == {};
    SurvivingNothing(vol.entries, deleted);
  }

  lemma {:induction false} SurvivingNothing(entries: seq<Entry>, deleted: set<string>)
    requires deleted == {}
    ensures Surviving(entries, deleted) == entries
    decreases |entries|
  {
    if entries != [] {
      SurvivingNothing(entries[1..], deleted);
      assert entries == [entries[0]] + entries[1..];
    }
  }

  /** A failure before the connection is up ends the run at once: no disconnect, the card untouched. */
  lemma ConnectFailureLeavesCardAlone(vol: Volume, outcomes: seq<Error>)
    requires exists i :: 0 <= i < 4 && i < |outcomes| && outcomes[i] != NoError
    ensures var r := TestRun(vol, outcomes);
      r.error != NoError && r.volume == vol && r.deleted == [] &&
      forall i :: 0 <= i < |r.events| ==> r.events[i] != Unchecked(Disconnect)
  {
    var p0 := Progress(vol.files, [], [], outcomes);
    var r1 := Invoke(p0, ResolveHost);
    var r2 := Invoke(r1.p, RegisterSshInit);
    var r3 := Invoke(r2.p, SetTimeout);
    var r4 := Invoke(r3.p, Connect);
    var i :| 0 <= i < 4 && i < |outcomes| && outcomes[i] != NoError;
    assert r1.error == outcomes[0] && r1.p.rest == outcomes[1..];
    assert i >= 1 ==> r2.error == outcomes[1] && r2.p.rest == outcomes[2..];
    assert i >= 2 ==> r3.error == outcomes[2] && r3.p.rest == outcomes[3..];
    assert i >= 3 ==> r4.error == outcomes[3];
    if r1.error != NoError {
      FinishUntouched(r1.error, vol, r1.p);
    } else if r2.error != NoError {
      FinishUntouched(r2.error, vol, r2.p);
    } else if r3.error != NoError {
      FinishUntouched(r3.error, vol, r3.p);
    } else {
      FinishUntouched(r4.error, vol, r4.p);
    }
  }

  /** With every call succeeding, sftpClientTest returns NO_ERROR, even when a local file cannot be opened. */
  lemma AllOkRunSucceeds(vol: Volume, outcomes: seq<Error>)
    requires AllOk(outcomes)
    ensures TestRun(vol, outcomes).error == NoError
  {
    var p0 := Progress(vol.files, [], [], outcomes);
    var r1 := Invoke(p0, ResolveHost);
    InvokeAllOk(p0, ResolveHost);
    var r2 := Invoke(r1.p, RegisterSshInit);
    InvokeAllOk(r1.p, RegisterSshInit);
    var r3 := Invoke(r2.p, SetTimeout);
    InvokeAllOk(r2.p, SetTimeout);
    var r4 := Invoke(r3.p, Connect);
    InvokeAllOk(r3.p, Connect);
    var d := Invoke(r4.p, OpenDir);
    InvokeAllOk(r4.p, OpenDir);
    SweepAllOkNoError(vol.entries, d.p);
  }

  /**
    With every call succeeding and every selected file present, one run
    delivers and deletes every selected file, in directory order, and leaves
    every other file and entry of the card as it was.
   */
  lemma AllOkRunDeliversAll(vol: Volume, outcomes: seq<Error>)
    requires AllOk(outcomes)
    requires DistinctNames(SelectedNames(vol.entries))
    requires forall n :: n in SelectedNames(vol.entries) ==> LocalPath(n) in vol.files
    ensures var r := TestRun(vol, outcomes);
      r.error == NoError &&
      r.deleted == SelectedNames(vol.entries) &&
      r.volume.files == vol.files - LocalPaths(SelectedNames(vol.entries))
  {
    var p0 := Progress(vol.files, [], [], outcomes);
    var r1 := Invoke(p0, ResolveHost);
    InvokeAllOk(p0, ResolveHost);
    var r2 := Invoke(r1.p, RegisterSshInit);
    InvokeAllOk(r1.p, RegisterSshInit);
    var r3 := Invoke(r2.p, SetTimeout);
    InvokeAllOk(r2.p, SetTimeout);
    var r4 := Invoke(r3.p, Connect);
    InvokeAllOk(r3.p, Connect);
    var d := Invoke(r4.p, OpenDir);
    InvokeAllOk(r4.p, OpenDir);
    SweepAllOkDeliversAll(vol.entries, d.p);
  }

  /** Every file a run deletes belongs to a selected entry and was renamed to its final name first. */
  lemma RunDeletesOnlyDelivered(vol: Volume, outcomes: seq<Error>)
    ensures var r := TestRun(vol, outcomes);
      r.volume.files == vol.files - LocalPaths(r.deleted) &&
      forall n :: n in r.deleted ==> n in SelectedNames(vol.entries) && Delivered(r.events, n)
  {
    var p0 := Progress(vol.files, [], [], outcomes);
    var r1 := Invoke(p0, ResolveHost);
    var r2 := Invoke(r1.p, RegisterSshInit);
    var r3 := Invoke(r2.p, SetTimeout);
    var r4 := Invoke(r3.p, Connect);
    var d := Invoke(r4.p, OpenDir);
    if r1.error != NoError || r2.error != NoError || r3.error != NoError || r4.error != NoError || d.error != NoError {
      assert TestRun(vol, outcomes).deleted == [];
      assert vol.files - LocalPaths([]) == vol.files;
    } else {
      SweepDeletesOnlyDelivered(vol.entries, d.p);
      var s := Sweep(vol.entries, d.p);
      assert s.p.deleted[|d.p.deleted|..] == s.p.deleted;
      forall n | n in s.p.deleted ensures Delivered(s.p.events + [Unchecked(Disconnect)], n) {
        DeliveredPersists(s.p.events, s.p.events + [Unchecked(Disconnect)], n);
      }
    }
  }

  // ---------------------------------------------------------------------------
  // SSH_INIT

  /** A file deleted by an earlier run is never back: across retries the card only loses files. */
  lemma {:induction false} RetryOnlyRemovesFiles(vol: Volume, outcomes: seq<Error>)
    ensures Retry(vol, outcomes).volume.files.Keys <= vol.files.Keys
    ensures forall path :: path in Retry(vol, outcomes).volume.files ==>
      Retry(vol, outcomes).volume.files[path] == vol.files[path]
    decreases |outcomes|
  {
    var run := TestRun(vol, outcomes);
    if run.error != NoError {
      RetryOnlyRemovesFiles(run.volume, run.rest);
    }
  }

  /** When nothing fails, SSH_INIT runs the sweep once. */
  lemma RetryAllOkOnce(vol: Volume, outcomes: seq<Error>)
    requires AllOk(outcomes)
    ensures Retry(vol, outcomes).count == 1
    ensures Retry(vol, outcomes).volume == TestRun(vol, outcomes).volume
  {
    AllOkRunSucceeds(vol, outcomes);
  }

  /**
    A transport that fails on the first upload attempt and then recovers:
    the first run ends with the error and leaves the file, the second run
    delivers and deletes it.
   */
  lemma RetryDeliversAfterFailure(n: string, content: seq<char>, code: nat)
    requires CString(n) && EndsWith(n, LOG_SUFFIX) == 1
    ensures var vol := Volume([Entry(n, true)], map[LocalPath(n) := content]);
      var outcomes := [NoError, NoError, NoError, NoError, NoError, Failure(code)];
      var a := Retry(vol, outcomes);
      TestRun(vol, outcomes).error == Failure(code) &&
      TestRun(vol, outcomes).volume.files == vol.files &&
      a.count == 2 && LocalPath(n) !in a.volume.files
  {
    var vol := Volume([Entry(n, true)], map[LocalPath(n) := content]);
    var outcomes := [NoError, NoError, NoError, NoError, NoError, Failure(code)];
    var run := TestRun(vol, outcomes);
    assert Selected(Entry(n, true));
    assert vol.entries[1..] == [];
    assert run.error == Failure(code);
    assert run.deleted == [];
    assert run.volume.files == vol.files;
    assert run.volume.entries == vol.entries by {
      SurvivingNothing(vol.entries, set x | x in run.deleted);
    }
    assert AllOk(run.rest);
    assert SelectedNames(vol.entries) == [n];
    AllOkRunDeliversAll(run.volume, run.rest);
    RetryAllOkOnce(run.volume, run.rest);
  }
}
