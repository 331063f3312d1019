/**
 Sending a source archive in chunks and writing the chunks to a file.  The writing loop tests how much
 the last write took, not how much has been written, so it comes back only after a write that took
 everything at once.  That is harmless with the files of the server: as the contract of `io.Writer` has
 it, they never take less than everything without an error.
 */
module Upload {
  import opened Varint
  import opened Options

  const CHUNK_SIZE: nat := 0x10_0000

  function Concat(chunks: seq<Bytes>): Bytes {
    if chunks == [] then [] else Concat(chunks[..|chunks| - 1]) + chunks[|chunks| - 1]
  }

  // The client

  function ChunkCount(length: nat): nat {
    (length + CHUNK_SIZE - 1) / CHUNK_SIZE
  }

  method SendChunks(data: Bytes) returns (chunks: seq<Bytes>)
    ensures |chunks| == ChunkCount(|data|) && Concat(chunks) == data
    ensures forall i :: 0 <= i < |chunks| ==> 0 < |chunks[i]| <= CHUNK_SIZE
    ensures forall i :: 0 <= i < |chunks| - 1 ==> |chunks[i]| == CHUNK_SIZE
  {
    var numChunks := ChunkCount(|data|);
    chunks := [];
    for i := 0 to numChunks
      invariant |chunks| == i
      invariant Concat(chunks) == data[..if i < numChunks then i * CHUNK_SIZE else |data|]
      invariant forall k :: 0 <= k < i ==> 0 < |chunks[k]| <= CHUNK_SIZE
      invariant forall k :: 0 <= k < i && k < numChunks - 1 ==> |chunks[k]| == CHUNK_SIZE
    {
      ChunkStarts(|data|, i);
      var start := i * CHUNK_SIZE;
      var left := |data[start..]|;
      var maxEnd := start + if CHUNK_SIZE < left then CHUNK_SIZE else left;
      var chunk := data[start..maxEnd];
      assert data[..maxEnd] == data[..start] + chunk;
      assert (chunks + [chunk])[..i] == chunks;
      chunks := chunks + [chunk];
    }
    assert data[..|data|] == data;
  }

  lemma ChunkStarts(length: nat, i: nat)
    requires i < ChunkCount(length)
    ensures i * CHUNK_SIZE < length
    ensures i == ChunkCount(length) - 1 <==> length <= (i + 1) * CHUNK_SIZE
  {
  }

  // The server

  /** What a write does: it takes at most so many bytes, and may report an error besides. */
  datatype Write = Write(most: nat, failed: bool)

  datatype Ending = Returned | Failed | Running

  /** How many bytes a write takes of those it is given. */
  function Taken(write: Write, given: nat): (nw: nat)
    ensures nw <= given
  {
    if write.most < given then write.most else given
  }

  /** How the loop goes on with the bytes from w on, and how many bytes it has written. */
  function WriteLoop(n: nat, w: nat, writes: seq<Write>): (Ending, nat)
    requires w <= n
    decreases |writes|
  {
    if writes == [] then (Running, w)
    else
      var nw := Taken(writes[0], n - w);
      if writes[0].failed then (Failed, w + nw)
      else if nw >= n then (Returned, w + nw)
      else WriteLoop(n, w + nw, writes[1..])
  }

  /** The contract of `io.Writer`, for each write of the loop: less than everything is an error. */
  predicate KeepsContract(n: nat, w: nat, writes: seq<Write>)
    requires w <= n
    decreases |writes|
  {
    writes != [] ==>
      var nw := Taken(writes[0], n - w);
      (nw < n - w ==> writes[0].failed) && (!writes[0].failed ==> KeepsContract(n, w + nw, writes[1..]))
  }

  class File {
    var content: Bytes

    constructor ()
      ensures content == []
    {
      content := [];
    }

    /** The file under a writer that behaves as the list of writes says, as long as the list lasts. */
    method WriteToFd(data: Bytes, writes: seq<Write>) returns (ending: Ending)
      modifies this
      ensures ending == WriteLoop(|data|, 0, writes).0
      ensures WriteLoop(|data|, 0, writes).1 <= |data|
      ensures content == old(content) + data[..WriteLoop(|data|, 0, writes).1]
    {
      var w, n := 0, |data|;
      ghost var whole := WriteLoop(n, 0, writes);
      assert writes[0..] == writes;
      for k := 0 to |writes|
        invariant w <= n && content == old(content) + data[..w]
        invariant WriteLoop(n, w, writes[k..]) == whole
      {
        assert writes[k..][1..] == writes[k + 1..];
        var rest := data[w..];
        var nw := Taken(writes[k], |rest|);
        content := content + rest[..nw];
        assert data[..w + nw] == data[..w] + rest[..nw];
        if writes[k].failed {
          return Failed;
        }
        w := w + nw;
        if nw >= n {
          return Returned;
        }
      }
      ending := Running;
    }

    /** The receiving loop: one chunk after the other, each with the writes that it meets. */
    method BuildUpload(chunks: seq<Bytes>, writes: seq<seq<Write>>) returns (ending: Ending)
      requires |writes| >= |chunks|
      modifies this
      ensures (ending, content) == Receive(old(content), chunks, writes)
    {
      ghost var whole := Receive(content, chunks, writes);
      assert chunks[0..] == chunks && writes[0..] == writes;
      for i := 0 to |chunks|
        invariant Receive(content, chunks[i..], writes[i..]) == whole
      {
        assert chunks[i..][1..] == chunks[i + 1..] && writes[i..][1..] == writes[i + 1..];
        ending := WriteToFd(chunks[i], writes[i]);
        if ending != Returned {
          return;
        }
        TakesAllOrNothing(|chunks[i]|, writes[i]);
        assert chunks[i][..|chunks[i]|] == chunks[i];
      }
      ending := Returned;
    }
  }

  function Receive(content: Bytes, chunks: seq<Bytes>, writes: seq<seq<Write>>): (Ending, Bytes)
    requires |writes| >= |chunks|
    decreases |chunks|
  {
    if chunks == [] then (Returned, content)
    else
      WriteLoopBounds(|chunks[0]|, 0, writes[0]);
      var (ending, w) := WriteLoop(|chunks[0]|, 0, writes[0]);
      if ending != Returned then (ending, content + chunks[0][..w])
      else Receive(content + chunks[0], chunks[1..], writes[1..])
  }

  lemma {:induction false} WriteLoopBounds(n: nat, w: nat, writes: seq<Write>)
    requires w <= n
    ensures w <= WriteLoop(n, w, writes).1 <= n
    ensures w > 0 ==> WriteLoop(n, w, writes).0 != Returned
    decreases |writes|
  {
    if writes != [] && !writes[0].failed {
      var nw := Taken(writes[0], n - w);
      if nw < n {
        WriteLoopBounds(n, w + nw, writes[1..]);
      }
    }
  }

  /** The first write that takes anything takes it all, and none has failed until then. */
  predicate TakesAll(n: nat, writes: seq<Write>)
    decreases |writes|
  {
    writes != [] && !writes[0].failed && (writes[0].most >= n || (writes[0].most == 0 && TakesAll(n, writes[1..])))
  }

  /** The loop returns without an error exactly when some write takes all the data at once; then it is written once. */
  lemma {:induction false} TakesAllOrNothing(n: nat, writes: seq<Write>)
    ensures WriteLoop(n, 0, writes).0 == Returned <==> TakesAll(n, writes)
    ensures WriteLoop(n, 0, writes).0 == Returned ==> WriteLoop(n, 0, writes).1 == n
    decreases |writes|
  {
    if writes != [] && !writes[0].failed && writes[0].most < n {
      if writes[0].most == 0 {
        TakesAllOrNothing(n, writes[1..]);
      } else {
        WriteLoopBounds(n, writes[0].most, writes[1..]);
      }
    }
  }

  /**
   A writer that keeps the contract ends the loop with its first write, which is never tried again: without
   an error exactly when that write reported none, and then it has taken everything.
   */
  lemma FirstWriteEnds(n: nat, writes: seq<Write>)
    requires writes != [] && KeepsContract(n, 0, writes)
    ensures WriteLoop(n, 0, writes)
         == if writes[0].failed then (Failed, Taken(writes[0], n)) else (Returned, n)
  {
  }

  /**
   A writer that breaks the contract with a short write and no error hangs the loop for good, with
   everything written once enough writes have made progress.
   */
  lemma {:induction false} ShortWriteHangs(n: nat, w: nat, writes: seq<Write>)
    requires 0 < w <= n && forall i :: 0 <= i < |writes| ==> !writes[i].failed && writes[i].most > 0
    ensures WriteLoop(n, w, writes).0 == Running
    ensures |writes| >= n - w ==> WriteLoop(n, w, writes).1 == n
    decreases |writes|
  {
    if writes != [] {
      ShortWriteHangs(n, w + Taken(writes[0], n - w), writes[1..]);
    }
  }

  /** The loop hangs after any short write without an error, until a write fails. */
  lemma {:induction false} HangsUntilFailure(n: nat, w: nat, writes: seq<Write>)
    requires 0 < w <= n
    ensures WriteLoop(n, w, writes).0
         == if exists i :: 0 <= i < |writes| && writes[i].failed then Failed else Running
    decreases |writes|
  {
    if writes != [] && !writes[0].failed {
      var rest := writes[1..];
      HangsUntilFailure(n, w + Taken(writes[0], n - w), rest);
      if i :| 0 <= i < |writes| && writes[i].failed {
        assert rest[i - 1].failed;
      }
    }
  }

  // Conservation

  lemma {:induction false} ConcatFirst(chunks: seq<Bytes>)
    requires chunks != []
    ensures Concat(chunks) == chunks[0] + Concat(chunks[1..])
    decreases |chunks|
  {
    var n := |chunks| - 1;
    if n > 0 {
      ConcatFirst(chunks[..n]);
      assert chunks[..n][1..] == chunks[1..][..n - 1];
    }
  }

  /**
   Whatever the writes do, the file holds the beginning of what was sent, in order and nothing twice;
   the upload succeeds exactly when every chunk is taken by one write, and then the file is the data.
   */
  lemma {:induction false} UploadConserves(content: Bytes, chunks: seq<Bytes>, writes: seq<seq<Write>>)
    requires |writes| >= |chunks|
    ensures var (ending, file) := Receive(content, chunks, writes);
            && file <= content + Concat(chunks)
            && (ending == Returned ==> file == content + Concat(chunks))
            && (ending == Returned <==> forall i :: 0 <= i < |chunks| ==> TakesAll(|chunks[i]|, writes[i]))
    decreases |chunks|
  {
    if chunks != [] {
      ConcatFirst(chunks);
      TakesAllOrNothing(|chunks[0]|, writes[0]);
      WriteLoopBounds(|chunks[0]|, 0, writes[0]);
      UploadConserves(content + chunks[0], chunks[1..], writes[1..]);
      assert content + Concat(chunks) == (content + chunks[0]) + Concat(chunks[1..]);
      if forall i :: 0 <= i < |chunks| ==> TakesAll(|chunks[i]|, writes[i]) {
        forall i | 0 <= i < |chunks[1..]| ensures TakesAll(|chunks[1..][i]|, writes[1..][i]) {
          assert TakesAll(|chunks[i + 1]|, writes[i + 1]);
        }
      } else if TakesAll(|chunks[0]|, writes[0]) {
        var i :| 0 <= i < |chunks| && !TakesAll(|chunks[i]|, writes[i]);
        assert !TakesAll(|chunks[1..][i - 1]|, writes[1..][i - 1]);
      }
    }
  }

  /** Every write keeps the contract, and each chunk meets at least one. */
  predicate AllKeepContract(chunks: seq<Bytes>, writes: seq<seq<Write>>) {
    |writes| >= |chunks|
    && forall i :: 0 <= i < |chunks| ==> writes[i] != [] && KeepsContract(|chunks[i]|, 0, writes[i])
  }

  /** The first k chunks are written without an error, and the next one, if any, meets a write that fails. */
  predicate FailsAt(chunks: seq<Bytes>, writes: seq<seq<Write>>, k: nat)
    requires AllKeepContract(chunks, writes)
  {
    && k <= |chunks|
    && (forall i :: 0 <= i < k ==> !writes[i][0].failed)
    && (k < |chunks| ==> writes[k][0].failed)
  }

  /** The file is then those chunks, and whatever the write that failed has taken of the next. */
  lemma {:induction false} UploadStops(content: Bytes, chunks: seq<Bytes>, writes: seq<seq<Write>>, k: nat)
    requires AllKeepContract(chunks, writes) && FailsAt(chunks, writes, k)
    ensures Receive(content, chunks, writes)
         == if k == |chunks| then (Returned, content + Concat(chunks))
            else (Failed, content + Concat(chunks[..k]) + chunks[k][..Taken(writes[k][0], |chunks[k]|)])
    decreases |chunks|
  {
    ConcatNone();
    if chunks == [] {
      assert content + Concat(chunks) == content;
    } else {
      FirstWriteEnds(|chunks[0]|, writes[0]);
      hide WriteLoop, KeepsContract, Concat, Taken;
      if k == 0 {
        assert chunks[..0] == [] && content + [] == content;
      } else {
        UploadStops(content + chunks[0], chunks[1..], writes[1..], k - 1);
        ConcatFirst(chunks[..k]);
        ConcatFirst(chunks);
        assert chunks[..k][1..] == chunks[1..][..k - 1];
        assert content + Concat(chunks[..k]) == content + chunks[0] + Concat(chunks[1..][..k - 1]);
        assert content + Concat(chunks) == content + chunks[0] + Concat(chunks[1..]);
      }
    }
  }

  lemma ConcatNone()
    ensures Concat([]) == []
  {
  }

  /** With a writer that keeps the contract an upload never hangs, and it succeeds exactly when no write fails. */
  lemma {:induction false} UploadSucceedsIff(content: Bytes, chunks: seq<Bytes>, writes: seq<seq<Write>>)
    requires AllKeepContract(chunks, writes)
    ensures Receive(content, chunks, writes).0
         == if forall i :: 0 <= i < |chunks| ==> !writes[i][0].failed then Returned else Failed
    decreases |chunks|
  {
    if chunks != [] {
      FirstWriteEnds(|chunks[0]|, writes[0]);
      hide WriteLoop, KeepsContract, Taken;
      if !writes[0][0].failed {
        UploadSucceedsIff(content + chunks[0], chunks[1..], writes[1..]);
        if i :| 0 <= i < |chunks| && writes[i][0].failed {
          assert writes[1..][i - 1][0].failed;
        }
      }
    }
  }
}
