/**
  How the delivery sweep (components/CardioIDLogging/ssh.c) reads a local log
  file: `fgets` into a 1024-byte buffer, then `strlen` of that buffer decides
  how many bytes are sent.
 */
module Fgets {
  import opened Utils

  /** sizeof(write_buffer) in ssh.c. */
  const WRITE_BUFFER_SIZE: nat := 1024

  /** fgets keeps one byte of the buffer for the terminating NUL. */
  const MAX_CHUNK: nat := WRITE_BUFFER_SIZE - 1

  /**
    Number of characters one fgets call takes from `s` with room for `max`
    characters: it stops after a line feed, after `max` characters, or at the
    end of the input.
   */
  function LineLength(s: seq<char>, max: nat): (k: nat)
    ensures k <= |s| && k <= max
    ensures s != [] && max > 0 ==> 1 <= k
    decreases max
  {
    if s == [] || max == 0 then 0
    else if s[0] == '\n' then 1
    else 1 + LineLength(s[1..], max - 1)
  }

  /**
    Where fgets stops: no line feed before the last character taken, and when
    it stops before both the end of input and the buffer limit, the last
    character taken is a line feed.
   */
  lemma {:induction false} LineLengthStops(s: seq<char>, max: nat)
    ensures var k := LineLength(s, max);
      (forall i :: 0 <= i < k - 1 ==> s[i] != '\n') &&
      (k < |s| && k < max ==> k >= 1 && s[k - 1] == '\n') &&
      (s != [] && max > 0 && s[0] == '\n' ==> k == 1)
    decreases max
  {
    if s != [] && max != 0 && s[0] != '\n' {
      LineLengthStops(s[1..], max - 1);
      var k := LineLength(s, max);
      assert forall i :: 1 <= i < k - 1 ==> s[i] == s[1..][i - 1];
    }
  }

  /** Characters taken by one `fgets(write_buffer, sizeof(write_buffer), file)`. */
  function ChunkLength(s: seq<char>): (k: nat)
    ensures k <= |s| && k <= MAX_CHUNK
    ensures s != [] ==> 1 <= k
  {
    LineLength(s, MAX_CHUNK)
  }

  /** The successive buffers fgets fills from `s`, until it returns NULL at end of file. */
  function Chunks(s: seq<char>): (r: seq<seq<char>>)
    ensures r == [] <==> s == []
    ensures |r| <= |s|
    decreases |s|
  {
    if s == [] then []
    else
      var k := ChunkLength(s);
      [s[..k]] + Chunks(s[k..])
  }

  /** C `strlen` on a buffer: the characters before the first NUL. */
  function UpToNul(s: seq<char>): (r: seq<char>)
    ensures |r| <= |s|
  {
    if s == [] || s[0] == '\0' then []
    else [s[0]] + UpToNul(s[1..])
  }

  /** strlen's result: a NUL-free prefix of the buffer, followed by a NUL unless it is the whole buffer. */
  lemma {:induction false} UpToNulPrefix(s: seq<char>)
    ensures var r := UpToNul(s);
      r == s[..|r|] && CString(r) && (|r| < |s| ==> s[|r|] == '\0')
    decreases |s|
  {
    if s != [] && s[0] != '\0' {
      UpToNulPrefix(s[1..]);
      var r := UpToNul(s);
      assert r == [s[0]] + UpToNul(s[1..]);
      assert s == [s[0]] + s[1..];
    }
  }

  /** What the sweep sends for each chunk: `strlen(write_buffer)` bytes of it. */
  function Sent(chunks: seq<seq<char>>): (r: seq<seq<char>>)
    ensures |r| == |chunks|
  {
    if chunks == [] then [] else [UpToNul(chunks[0])] + Sent(chunks[1..])
  }

  /** The chunks, read back to back, are the whole file, in file order. */
  lemma {:induction false} ChunksCover(s: seq<char>)
    ensures Concat(Chunks(s)) == s
    decreases |s|
  {
    if s != [] {
      var k := ChunkLength(s);
      ChunksCover(s[k..]);
      assert s == s[..k] + s[k..];
    }
  }

  /**
    Every chunk is non-empty, holds at most 1023 characters, and has a line
    feed at most as its last character.
   */
  lemma {:induction false} ChunksShape(s: seq<char>)
    ensures forall c :: c in Chunks(s) ==>
      1 <= |c| <= MAX_CHUNK && forall i :: 0 <= i < |c| - 1 ==> c[i] != '\n'
    decreases |s|
  {
    if s != [] {
      var k := ChunkLength(s);
      LineLengthStops(s, MAX_CHUNK);
      ChunksShape(s[k..]);
      assert Chunks(s) == [s[..k]] + Chunks(s[k..]);
    }
  }

  /** A chunk ends early, before the buffer is full and before end of file, only after a line feed. */
  lemma FirstChunkEndsAtLineFeed(s: seq<char>)
    requires s != []
    requires ChunkLength(s) < |s| && ChunkLength(s) < MAX_CHUNK
    ensures s[ChunkLength(s) - 1] == '\n'
  {
    LineLengthStops(s, MAX_CHUNK);
  }

  lemma {:induction false} NulFreeChunksSentWhole(s: seq<char>)
    requires CString(s)
    ensures Sent(Chunks(s)) == Chunks(s)
    decreases |s|
  {
    if s != [] {
      var k := ChunkLength(s);
      assert CString(s[k..]);
      NulFreeChunksSentWhole(s[k..]);
      var c := s[..k];
      assert CString(c);
      NulFreeSentWhole(c);
    }
  }

  lemma {:induction false} NulFreeSentWhole(c: seq<char>)
    requires CString(c)
    ensures UpToNul(c) == c
    decreases |c|
  {
    if c != [] {
      assert CString(c[1..]);
      NulFreeSentWhole(c[1..]);
      assert c == [c[0]] + c[1..];
    }
  }

  /** For NUL-free content, the bytes sent, in order, are exactly the file. */
  lemma NulFreeFileSentWhole(s: seq<char>)
    requires CString(s)
    ensures Concat(Sent(Chunks(s))) == s
  {
    NulFreeChunksSentWhole(s);
    ChunksCover(s);
  }

  /** A NUL inside a chunk truncates what is sent: the example chunk "a\0b". */
  lemma NulTruncatesChunk()
    ensures Concat(Sent(Chunks("a\0b"))) == "a"
  {
    var s: seq<char> := "a\0b";
    assert s[1..][1..] == "b" && s[1..][1..][1..] == [];
    assert LineLength("b", MAX_CHUNK - 2) == 1;
    assert LineLength(s[1..], MAX_CHUNK - 1) == 2;
    assert ChunkLength(s) == 3;
    assert s[..3] == s && s[3..] == [];
    assert Chunks(s) == [s];
    assert UpToNul("a\0b") == "a";
  }
}
