/**
 Chunked, resumable uploads: storing chunks, finding the missing ones, and finishing a
 session by concatenating the chunks and comparing the hash. SHA-256 is any function.
 */
module Uploads {
  import opened Wrappers

  newtype Byte = x: int | 0 <= x < 256

  type Bytes = seq<Byte>

  /** The primary key of upload_chunks. */
  datatype Key = Key(sessionId: string, chunkIndex: int)

  datatype Chunk = Chunk(sessionId: string, chunkIndex: int, chunkSize: nat, checksum: string, data: Bytes)

  type Chunks = map<Key, Chunk>

  datatype Session = Session(completed: bool, uploadStatus: string)

  datatype Error = InvalidChecksum | ChunkAlreadyUploaded | MissingChunks | TamperedUpload | StorageFailed

  datatype Result = Ok | Err(error: Error)

  datatype State = State(chunks: Chunks, sessions: map<string, Session>)

  /** Which statement of an upload the database refuses. */
  datatype Fault = NoFault | CheckFails | InsertFails

  datatype Attempt = Attempt(sessionId: string, index: int, data: Bytes, checksum: string, fault: Fault)

  /**
   A query and the reading of its rows: the query fails; or `rows` rows come and then no more, be
   it the end or an error that the loop does not look at; or the row behind them cannot be scanned.
   */
  datatype Read = QueryFails | Delivers(rows: nat) | ScanFails(rows: nat)

  // ---------- Uploading ----------

  function UploadResult(s: State, a: Attempt, hash: Bytes -> string): Result {
    if hash(a.data) != a.checksum then Err(InvalidChecksum)
    else if a.fault == CheckFails then Err(StorageFailed)
    else if Key(a.sessionId, a.index) in s.chunks then Err(ChunkAlreadyUploaded)
    else if a.fault == InsertFails then Err(StorageFailed)
    else Ok
  }

  function AfterUpload(s: State, a: Attempt, hash: Bytes -> string): State {
    if UploadResult(s, a, hash) != Ok then s
    else s.(chunks := s.chunks[Key(a.sessionId, a.index) := Chunk(a.sessionId, a.index, |a.data|, a.checksum, a.data)])
  }

  // ---------- Reading back ----------

  function Rows(c: Chunks, sessionId: string): set<Key> { set k | k in c && k.sessionId == sessionId }

  predicate IsFirst(m: Key, s: set<Key>) { m in s && forall k <- s :: m.chunkIndex <= k.chunkIndex }

  ghost predicate OneSession(s: set<Key>, sessionId: string) { forall k <- s :: k.sessionId == sessionId }

  lemma FirstExists(s: set<Key>)
    requires s != {}
    ensures exists m :: IsFirst(m, s)
    decreases |s|
  {
    var x :| x in s;
    var rest := s - {x};
    if rest == {} {
      assert s == {x};
      assert IsFirst(x, s);
    } else {
      FirstExists(rest);
      var m :| IsFirst(m, rest);
      var first := if x.chunkIndex < m.chunkIndex then x else m;
      assert forall k <- s :: k == x || k in rest;
      assert IsFirst(first, s);
    }
  }

  /** ORDER BY chunk_index ASC. */
  ghost function Sorted(s: set<Key>): seq<Key>
    decreases |s|
  {
    if s == {} then []
    else
      FirstExists(s);
      var m :| IsFirst(m, s);
      [m] + Sorted(s - {m})
  }

  /** The rows of one session have different indices, so their order is determined. */
  lemma SortedStep(s: set<Key>, sessionId: string, m: Key)
    requires OneSession(s, sessionId) && IsFirst(m, s)
    ensures Sorted(s) == [m] + Sorted(s - {m})
  {
    FirstExists(s);
    var n :| IsFirst(n, s) && Sorted(s) == [n] + Sorted(s - {n});
    assert m == n;
  }

  lemma {:induction false} SortedMembers(s: set<Key>)
    ensures |Sorted(s)| == |s|
    ensures forall k :: k in Sorted(s) <==> k in s
    decreases |s|
  {
    if s != {} {
      FirstExists(s);
      var m :| IsFirst(m, s) && Sorted(s) == [m] + Sorted(s - {m});
      SortedMembers(s - {m});
    }
  }

  ghost predicate AllStored(c: Chunks, keys: seq<Key>) { forall i :: 0 <= i < |keys| ==> keys[i] in c }

  ghost function ChunksAt(c: Chunks, keys: seq<Key>): (r: seq<Chunk>)
    requires AllStored(c, keys)
    ensures |r| == |keys| && forall i :: 0 <= i < |r| ==> r[i] == c[keys[i]]
  {
    seq(|keys|, i requires 0 <= i < |keys| => c[keys[i]])
  }

  lemma SortedAreStored(c: Chunks, sessionId: string)
    ensures AllStored(c, Sorted(Rows(c, sessionId)))
  {
    var keys := Sorted(Rows(c, sessionId));
    SortedMembers(Rows(c, sessionId));
    forall i | 0 <= i < |keys| ensures keys[i] in c {
      assert keys[i] in keys;
    }
  }

  ghost function SessionChunks(c: Chunks, sessionId: string): seq<Chunk> {
    SortedAreStored(c, sessionId);
    ChunksAt(c, Sorted(Rows(c, sessionId)))
  }

  function Merge(chunks: seq<Chunk>): Bytes
    decreases chunks
  {
    if chunks == [] then [] else Merge(chunks[..|chunks| - 1]) + chunks[|chunks| - 1].data
  }

  /** What a reading brings: a prefix of the session's chunks, or an error. */
  ghost function ReadChunks(c: Chunks, sessionId: string, read: Read): (r: Option<seq<Chunk>>)
    ensures r.Some? ==> |r.value| <= |SessionChunks(c, sessionId)| && r.value <= SessionChunks(c, sessionId)
  {
    var chunks := SessionChunks(c, sessionId);
    if read.QueryFails? || (read.ScanFails? && read.rows < |chunks|) then None
    else if read.rows < |chunks| then Some(chunks[..read.rows])
    else Some(chunks)
  }

  // ---------- Finishing ----------

  /**
   `starts` says whether the transaction and the lock are had, `present` which chunks the object
   store still has, `commits` whether the update and the commit go through.
   */
  ghost function FinalizeResult(
    s: State, sessionId: string, expectedChunks: int, expectedHash: string, hash: Bytes -> string,
    starts: bool, read: Read, present: Chunk -> bool, commits: bool): Result
  {
    var got := ReadChunks(s.chunks, sessionId, read);
    if !starts || got.None? then Err(StorageFailed)
    else if |got.value| != expectedChunks then Err(MissingChunks)
    else if exists c <- got.value :: !present(c) then Err(MissingChunks)
    else if hash(Merge(got.value)) != expectedHash then Err(TamperedUpload)
    else if !commits then Err(StorageFailed)
    else Ok
  }

  /** The reading has come to its end. */
  lemma ReadIs(c: Chunks, sessionId: string, read: Read, got: seq<Chunk>)
    requires !read.QueryFails? && got <= SessionChunks(c, sessionId)
    requires |got| == read.rows || (|got| < read.rows && |got| == |SessionChunks(c, sessionId)|)
    ensures ReadChunks(c, sessionId, read)
            == if read.ScanFails? && |got| < |SessionChunks(c, sessionId)| then None else Some(got)
  {
    var all := SessionChunks(c, sessionId);
    assert got == all[..|got|] && all[..|all|] == all;
  }

  lemma NextOf(all: seq<Key>, n: nat, k: Key, rest: seq<Key>)
    requires n <= |all| && all[n..] == [k] + rest
    ensures n < |all| && all[n] == k && all[n + 1..] == rest
  {
    assert all[n..][0] == k && all[n..][1..] == rest;
  }

  /** Where the reading stands: `got` are the first chunks, and `todo` are the rows behind them. */
  ghost predicate Halfway(c: Chunks, sessionId: string, got: seq<Chunk>, todo: set<Key>) {
    var all := Sorted(Rows(c, sessionId));
    && todo <= Rows(c, sessionId) && |got| <= |all| && all[|got|..] == Sorted(todo)
    && got <= SessionChunks(c, sessionId)
  }

  lemma ReadingStarts(c: Chunks, sessionId: string)
    ensures Halfway(c, sessionId, [], Rows(c, sessionId))
  {
    var all := Sorted(Rows(c, sessionId));
    assert all[0..] == all;
  }

  lemma ReadNext(c: Chunks, sessionId: string, got: seq<Chunk>, todo: set<Key>, k: Key)
    requires Halfway(c, sessionId, got, todo) && IsFirst(k, todo)
    ensures k in c && Halfway(c, sessionId, got + [c[k]], todo - {k})
  {
    var all, whole := Sorted(Rows(c, sessionId)), SessionChunks(c, sessionId);
    SortedStep(todo, sessionId, k);
    NextOf(all, |got|, k, Sorted(todo - {k}));
    hide Sorted;
    assert whole[|got|] == c[k];
    assert (got + [c[k]]) == whole[..|got| + 1];
  }

  lemma ReadingEnds(c: Chunks, sessionId: string, got: seq<Chunk>, todo: set<Key>)
    requires Halfway(c, sessionId, got, todo)
    ensures got <= SessionChunks(c, sessionId) && (todo == {} <==> |got| == |SessionChunks(c, sessionId)|)
  {
    SortedMembers(todo);
  }

  class UploadService {
    var chunks: Chunks
    var sessions: map<string, Session>
    const hash: Bytes -> string

    constructor (hash: Bytes -> string)
      ensures Tables() == State(map[], map[]) && this.hash == hash
    {
      this.hash := hash;
      chunks, sessions := map[], map[];
    }

    ghost function Tables(): State
      reads this
    {
      State(chunks, sessions)
    }

    method UploadChunk(sessionId: string, index: int, data: Bytes, expectedChecksum: string, fault: Fault)
      returns (r: Result)
      modifies this
      ensures r == UploadResult(old(Tables()), Attempt(sessionId, index, data, expectedChecksum, fault), hash)
      ensures Tables() == AfterUpload(old(Tables()), Attempt(sessionId, index, data, expectedChecksum, fault), hash)
    {
      if hash(data) != expectedChecksum {
        return Err(InvalidChecksum);
      }
      if fault == CheckFails {
        return Err(StorageFailed);
      }
      if Key(sessionId, index) in chunks {
        return Err(ChunkAlreadyUploaded);
      }
      if fault == InsertFails {
        return Err(StorageFailed);
      }
      chunks := chunks[Key(sessionId, index) := Chunk(sessionId, index, |data|, expectedChecksum, data)];
      return Ok;
    }

    method GetChunks(sessionId: string, read: Read) returns (r: Option<seq<Chunk>>)
      ensures r == ReadChunks(chunks, sessionId, read)
    {
      if read.QueryFails? {
        return None;
      }
      hide Halfway, Rows, IsFirst, ReadChunks;
      var got := [];
      var todo := Rows(chunks, sessionId);
      ReadingStarts(chunks, sessionId);
      while todo != {} && |got| < read.rows
        invariant |got| <= read.rows && Halfway(chunks, sessionId, got, todo)
        decreases |todo|
      {
        FirstExists(todo);
        var k :| k in todo && IsFirst(k, todo);
        ReadNext(chunks, sessionId, got, todo, k);
        got := got + [chunks[k]];
        todo := todo - {k};
      }
      ReadingEnds(chunks, sessionId, got, todo);
      ReadIs(chunks, sessionId, read, got);
      if read.ScanFails? && todo != {} {
        return None;
      }
      return Some(got);
    }

    /** `read` are the rows that come, in whatever order the database gives them; None if a query or a scan fails. */
    method MissingChunks(sessionId: string, totalChunks: int, read: Option<set<Key>>) returns (r: Option<seq<int>>)
      requires read.Some? ==> read.value <= Rows(chunks, sessionId)
      ensures r == if read.None? then None else Some(Missing(read.value, sessionId, totalChunks))
    {
      if read.None? {
        return None;
      }
      var stored: map<int, bool> := map[];
      var todo := read.value;
      while todo != {}
        invariant todo <= read.value
        invariant forall i :: i in stored <==> Key(sessionId, i) in read.value - todo
        invariant forall i <- stored :: stored[i]
        decreases |todo|
      {
        var k :| k in todo;
        todo := todo - {k};
        stored := stored[k.chunkIndex := true];
      }
      var missing := [];
      var i := 0;
      while i < totalChunks
        invariant 0 <= i && (i <= totalChunks || i == 0)
        invariant missing == Missing(read.value, sessionId, i)
        decreases totalChunks - i
      {
        if !(i in stored && stored[i]) {
          missing := missing + [i];
        }
        i := i + 1;
      }
      return Some(missing);
    }

    method Finalize(
      sessionId: string, expectedChunks: int, expectedHash: string, starts: bool, read: Read, present: Chunk -> bool,
      commits: bool) returns (r: Result)
      modifies this
      ensures r == FinalizeResult(
                     old(Tables()), sessionId, expectedChunks, expectedHash, hash, starts, read, present, commits)
      ensures chunks == old(chunks)
      ensures forall id :: id in sessions <==> id in old(sessions)
      ensures forall id <- sessions ::
                sessions[id] == if r == Ok && id == sessionId then Session(true, "completed") else old(sessions)[id]
    {
      if !starts {
        return Err(StorageFailed);
      }
      var result := GetChunks(sessionId, read);
      if result.None? {
        return Err(StorageFailed);
      }
      var found := result.value;
      if |found| != expectedChunks {
        return Err(Error.MissingChunks);
      }
      for i := 0 to |found|
        invariant forall k :: 0 <= k < i ==> present(found[k])
      {
        if !present(found[i]) {
          assert found[i] in found;
          return Err(Error.MissingChunks);
        }
      }
      var merged := [];
      for i := 0 to |found|
        invariant merged == Merge(found[..i])
      {
        assert found[..i + 1][..i] == found[..i];
        merged := merged + found[i].data;
      }
      assert found[..|found|] == found;
      if hash(merged) != expectedHash {
        return Err(TamperedUpload);
      }
      if !commits {
        return Err(StorageFailed);
      }
      if sessionId in sessions {
        sessions := sessions[sessionId := Session(true, "completed")];
      }
      return Ok;
    }
  }

  // ---------- Which chunks are missing ----------

  function Missing(rows: set<Key>, sessionId: string, total: int): seq<int>
    decreases total
  {
    if total <= 0 then []
    else
      var rest := Missing(rows, sessionId, total - 1);
      if Key(sessionId, total - 1) in rows then rest else rest + [total - 1]
  }

  predicate Increasing(s: seq<int>, total: int) {
    && (forall k :: 0 <= k < |s| ==> 0 <= s[k] < total)
    && forall k, l :: 0 <= l < k < |s| ==> s[l] < s[k]
  }

  lemma IncreasingSnoc(s: seq<int>, n: nat)
    requires Increasing(s, n)
    ensures Increasing(s, n + 1) && Increasing(s + [n], n + 1)
  {
    var t := s + [n];
    forall k | 0 <= k < |t| ensures 0 <= t[k] < n + 1 {
      assert k < |s| ==> t[k] == s[k];
    }
    forall k, l | 0 <= l < k < |t| ensures t[l] < t[k] {
      assert t[l] == s[l];
      assert k < |s| ==> t[k] == s[k];
    }
  }

  lemma {:induction false} MissingMembers(rows: set<Key>, sessionId: string, total: int)
    ensures forall i :: i in Missing(rows, sessionId, total) <==> 0 <= i < total && Key(sessionId, i) !in rows
    decreases total
  {
    if total > 0 {
      MissingMembers(rows, sessionId, total - 1);
    }
  }

  lemma {:induction false} MissingIncreases(rows: set<Key>, sessionId: string, total: int)
    ensures Increasing(Missing(rows, sessionId, total), total)
    decreases total
  {
    if total > 0 {
      MissingIncreases(rows, sessionId, total - 1);
      hide Increasing;
      IncreasingSnoc(Missing(rows, sessionId, total - 1), total - 1);
    } else {
      assert Missing(rows, sessionId, total) == [];
    }
  }

  /** The list is the strictly increasing complement in [0, total) of the indices that were read. */
  lemma MissingIsComplement(rows: set<Key>, sessionId: string, total: int)
    ensures forall i :: i in Missing(rows, sessionId, total) <==> 0 <= i < total && Key(sessionId, i) !in rows
    ensures Increasing(Missing(rows, sessionId, total), total)
  {
    hide Missing, Increasing;
    MissingMembers(rows, sessionId, total);
    MissingIncreases(rows, sessionId, total);
  }

  /** The rows of a file of `n` chunks. */
  ghost function FullRows(sessionId: string, n: nat): (s: set<Key>)
    ensures |s| == n && forall k :: k in s <==> k.sessionId == sessionId && 0 <= k.chunkIndex < n
  {
    if n == 0 then {}
    else
      var last := Key(sessionId, n - 1);
      assert forall k: Key :: k.sessionId == sessionId && k.chunkIndex == n - 1 ==> k == last;
      FullRows(sessionId, n - 1) + {last}
  }

  lemma SubsetOfSameSize(a: set<Key>, b: set<Key>)
    requires a <= b && |a| == |b|
    ensures a == b
  {
    assert |b - a| == |b| - |a|;
  }

  lemma NoneMissingIff(rows: set<Key>, sessionId: string, total: nat)
    requires OneSession(rows, sessionId)
    ensures Missing(rows, sessionId, total) == [] <==> FullRows(sessionId, total) <= rows
  {
    MissingIsComplement(rows, sessionId, total);
    var m := Missing(rows, sessionId, total);
    if m == [] {
      forall k <- FullRows(sessionId, total) ensures k in rows {
        assert k.chunkIndex !in m;
      }
    } else {
      assert m[0] in m;
      assert Key(sessionId, m[0]) in FullRows(sessionId, total);
    }
  }

  /**
   Nothing missing and the right number of rows together say that the stored indices are
   exactly [0, total).
   */
  lemma BothTestsIff(rows: set<Key>, sessionId: string, total: nat)
    requires OneSession(rows, sessionId)
    ensures Missing(rows, sessionId, total) == [] && |rows| == total
            <==> rows == FullRows(sessionId, total)
  {
    NoneMissingIff(rows, sessionId, total);
    if Missing(rows, sessionId, total) == [] && |rows| == total {
      SubsetOfSameSize(FullRows(sessionId, total), rows);
    }
  }

  /**
   When does the count test alone agree with the missing-list test? If all stored indices
   are in range, always; the row that breaks it is one outside the range.
   */
  lemma CountTestIff(rows: set<Key>, sessionId: string, total: nat)
    requires OneSession(rows, sessionId)
    requires |rows| == total
    ensures Missing(rows, sessionId, total) == [] <==> forall k <- rows :: 0 <= k.chunkIndex < total
  {
    NoneMissingIff(rows, sessionId, total);
    BothTestsIff(rows, sessionId, total);
    if forall k <- rows :: 0 <= k.chunkIndex < total {
      SubsetOfSameSize(rows, FullRows(sessionId, total));
    }
  }

  lemma CompleteIffCount(rows: set<Key>, sessionId: string, total: nat)
    requires OneSession(rows, sessionId)
    requires forall k <- rows :: 0 <= k.chunkIndex < total
    ensures Missing(rows, sessionId, total) == [] <==> |rows| == total
  {
    NoneMissingIff(rows, sessionId, total);
    if |rows| == total {
      CountTestIff(rows, sessionId, total);
    }
    if Missing(rows, sessionId, total) == [] {
      assert rows == FullRows(sessionId, total);
    }
  }

  // ---------- The round trip ----------

  function Run(s: State, attempts: seq<Attempt>, hash: Bytes -> string): State
    decreases attempts
  {
    if attempts == [] then s
    else AfterUpload(Run(s, attempts[..|attempts| - 1], hash), attempts[|attempts| - 1], hash)
  }

  function Concat(parts: seq<Bytes>): Bytes
    decreases parts
  {
    if parts == [] then [] else Concat(parts[..|parts| - 1]) + parts[|parts| - 1]
  }

  predicate Genuine(a: Attempt, sessionId: string, hash: Bytes -> string) {
    a.sessionId == sessionId && hash(a.data) == a.checksum && a.fault == NoFault
  }

  /** Whatever of the session's attempts carries a right checksum is a part of the file, at its index. */
  ghost predicate Honest(attempts: seq<Attempt>, sessionId: string, parts: seq<Bytes>, hash: Bytes -> string) {
    forall a <- attempts :: Genuine(a, sessionId, hash) ==> 0 <= a.index < |parts| && a.data == parts[a.index]
  }

  ghost predicate Uploaded(attempts: seq<Attempt>, sessionId: string, i: int, hash: Bytes -> string) {
    exists a <- attempts :: Genuine(a, sessionId, hash) && a.index == i
  }

  ghost predicate Stores(c: Chunks, sessionId: string, parts: seq<Bytes>) {
    forall k <- c :: k.sessionId == sessionId ==> 0 <= k.chunkIndex < |parts| && c[k].data == parts[k.chunkIndex]
  }

  lemma {:induction false} UploadsStoreParts(
      s: State, attempts: seq<Attempt>, sessionId: string, parts: seq<Bytes>, hash: Bytes -> string)
    requires Rows(s.chunks, sessionId) == {} && Honest(attempts, sessionId, parts, hash)
    ensures Stores(Run(s, attempts, hash).chunks, sessionId, parts)
    ensures forall i :: Key(sessionId, i) in Run(s, attempts, hash).chunks <==> Uploaded(attempts, sessionId, i, hash)
    decreases attempts
  {
    if attempts == [] {
      forall k <- s.chunks ensures k.sessionId != sessionId {
        assert k !in Rows(s.chunks, sessionId);
      }
    } else {
      var init, a := attempts[..|attempts| - 1], attempts[|attempts| - 1];
      assert forall b :: b in attempts <==> b in init || b == a;
      UploadsStoreParts(s, init, sessionId, parts, hash);
      forall i ensures Uploaded(attempts, sessionId, i, hash)
                       <==> Uploaded(init, sessionId, i, hash) || (Genuine(a, sessionId, hash) && a.index == i) {}
    }
  }

  lemma {:induction false} SortedIsConsecutive(s: set<Key>, sessionId: string, lo: int, hi: int)
    requires lo <= hi && forall k :: k in s <==> k.sessionId == sessionId && lo <= k.chunkIndex < hi
    ensures |Sorted(s)| == hi - lo && forall i :: 0 <= i < hi - lo ==> Sorted(s)[i] == Key(sessionId, lo + i)
    decreases hi - lo
  {
    if lo < hi {
      var m := Key(sessionId, lo);
      assert m in s;
      SortedIsConsecutive(s - {m}, sessionId, lo + 1, hi);
      SortedStep(s, sessionId, m);
    } else {
      assert s == {};
    }
  }

  lemma {:induction false} MergeIsConcat(chunks: seq<Chunk>, parts: seq<Bytes>)
    requires |chunks| == |parts| && forall k :: 0 <= k < |parts| ==> chunks[k].data == parts[k]
    ensures Merge(chunks) == Concat(parts)
    decreases chunks
  {
    if chunks != [] {
      MergeIsConcat(chunks[..|chunks| - 1], parts[..|parts| - 1]);
    }
  }

  /** The rows stored are those of the parts that arrived. */
  lemma RowsAreFull(c: Chunks, sessionId: string, parts: seq<Bytes>)
    requires Stores(c, sessionId, parts)
    requires forall i :: 0 <= i < |parts| ==> Key(sessionId, i) in c
    ensures Rows(c, sessionId) == FullRows(sessionId, |parts|)
  {
    forall k <- FullRows(sessionId, |parts|) ensures k in c {
      assert k == Key(sessionId, k.chunkIndex);
    }
  }

  lemma {:induction false} ReadBack(c: Chunks, sessionId: string, parts: seq<Bytes>)
    requires Stores(c, sessionId, parts) && Rows(c, sessionId) == FullRows(sessionId, |parts|)
    ensures |SessionChunks(c, sessionId)| == |parts| && Merge(SessionChunks(c, sessionId)) == Concat(parts)
  {
    var chunks := SessionChunks(c, sessionId);
    SortedIsConsecutive(Rows(c, sessionId), sessionId, 0, |parts|);
    forall i | 0 <= i < |parts| ensures chunks[i].data == parts[i] {
      assert Sorted(Rows(c, sessionId))[i] == Key(sessionId, i);
      assert Key(sessionId, i) in Rows(c, sessionId);
    }
    MergeIsConcat(chunks, parts);
  }

  /**
   Round trip: whatever the order of the uploads, and whatever repeats, corrupted attempts and
   other sessions' uploads lie between them, reading back and merging gives the file.
   */
  lemma {:induction false} RoundTrip(
      s: State, attempts: seq<Attempt>, sessionId: string, parts: seq<Bytes>, hash: Bytes -> string)
    requires Rows(s.chunks, sessionId) == {} && Honest(attempts, sessionId, parts, hash)
    requires forall i :: 0 <= i < |parts| ==> Uploaded(attempts, sessionId, i, hash)
    ensures var chunks := SessionChunks(Run(s, attempts, hash).chunks, sessionId);
            |chunks| == |parts| && Merge(chunks) == Concat(parts)
    ensures Rows(Run(s, attempts, hash).chunks, sessionId) == FullRows(sessionId, |parts|)
  {
    UploadsStoreParts(s, attempts, sessionId, parts, hash);
    RowsAreFull(Run(s, attempts, hash).chunks, sessionId, parts);
    ReadBack(Run(s, attempts, hash).chunks, sessionId, parts);
  }

  lemma ChunksOfRows(c: Chunks, sessionId: string)
    ensures |SessionChunks(c, sessionId)| == |Rows(c, sessionId)|
  {
    SortedMembers(Rows(c, sessionId));
  }

  /**
   Finalize succeeds exactly if the reading brings the expected number of chunks, the objects exist
   and the in-order concatenation of what was read has the hash. What was read are then the first
   so many chunks; all of them exactly if as many were expected as are stored.
   */
  lemma FinalizeIff(
    s: State, sessionId: string, expectedChunks: int, expectedHash: string, hash: Bytes -> string, starts: bool,
    read: Read, present: Chunk -> bool, commits: bool)
    ensures var all := SessionChunks(s.chunks, sessionId);
            var got := ReadChunks(s.chunks, sessionId, read);
            var ok := FinalizeResult(
                        s, sessionId, expectedChunks, expectedHash, hash, starts, read, present, commits) == Ok;
            && (ok <==> && starts && commits && got.Some? && |got.value| == expectedChunks
                        && hash(Merge(got.value)) == expectedHash && forall c <- got.value :: present(c))
            && (ok ==> 0 <= expectedChunks <= |Rows(s.chunks, sessionId)| && |all| == |Rows(s.chunks, sessionId)|
                       && hash(Merge(all[..expectedChunks])) == expectedHash
                       && (got.value == all <==> expectedChunks == |Rows(s.chunks, sessionId)|))
  {
    ChunksOfRows(s.chunks, sessionId);
    var all := SessionChunks(s.chunks, sessionId);
    var got := ReadChunks(s.chunks, sessionId, read);
    if got.Some? {
      assert got.value == all[..|got.value|];
    }
  }

  /**
   A session that is uploaded in full has nothing missing, and it can be finished with the file's hash
   and no other, and only by a reading that brings all of it.
   */
  lemma {:induction false} UploadedInFull(
    s: State, attempts: seq<Attempt>, sessionId: string, parts: seq<Bytes>, hash: Bytes -> string, h: string,
        read: Read)
    requires Rows(s.chunks, sessionId) == {} && Honest(attempts, sessionId, parts, hash)
    requires forall i :: 0 <= i < |parts| ==> Uploaded(attempts, sessionId, i, hash)
    ensures Missing(Rows(Run(s, attempts, hash).chunks, sessionId), sessionId, |parts|) == []
    ensures FinalizeResult(Run(s, attempts, hash), sessionId, |parts|, h, hash, true, read, _ => true, true) == Ok
            <==> h == hash(Concat(parts)) && !read.QueryFails? && read.rows >= |parts|
  {
    RoundTrip(s, attempts, sessionId, parts, hash);
    var c := Run(s, attempts, hash).chunks;
    BothTestsIff(Rows(c, sessionId), sessionId, |parts|);
    FinalizeIff(Run(s, attempts, hash), sessionId, |parts|, h, hash, true, read, _ => true, true);
    ChunksOfRows(c, sessionId);
    assert SessionChunks(c, sessionId)[..|parts|] == SessionChunks(c, sessionId);
  }

  // ---------- What one upload leaves ----------

  /**
   An upload that is not refused stores one chunk at its index, with its size, checksum and bytes; a
   wrong checksum, an index that is stored already and a refused statement change nothing, and the
   first of them is what is reported.
   */
  lemma UploadDoes(s: State, a: Attempt, hash: Bytes -> string)
    ensures var k := Key(a.sessionId, a.index);
            var r, s' := UploadResult(s, a, hash), AfterUpload(s, a, hash);
            && (r == Err(InvalidChecksum) <==> hash(a.data) != a.checksum)
            && (r == Err(ChunkAlreadyUploaded) <==>
                hash(a.data) == a.checksum && a.fault != CheckFails && k in s.chunks)
            && (r == Ok <==> hash(a.data) == a.checksum && a.fault == NoFault && k !in s.chunks)
            && (r != Ok ==> s' == s) && s'.sessions == s.sessions
            && (r == Ok ==> && s'.chunks.Keys == s.chunks.Keys + {k}
                            && (forall l <- s.chunks :: s'.chunks[l] == s.chunks[l])
                            && s'.chunks[k].sessionId == a.sessionId && s'.chunks[k].chunkIndex == a.index
                            && s'.chunks[k].chunkSize == |a.data| && s'.chunks[k].checksum == a.checksum
                            && s'.chunks[k].data == a.data)
  {
  }

  /** Which error a finish gives: the tests in the code's order, the first that fails being reported. */
  lemma FinalizeRefuses(
    s: State, sessionId: string, expectedChunks: int, expectedHash: string, hash: Bytes -> string, starts: bool,
    read: Read, present: Chunk -> bool, commits: bool)
    ensures var got := ReadChunks(s.chunks, sessionId, read);
            var r := FinalizeResult(s, sessionId, expectedChunks, expectedHash, hash, starts, read, present, commits);
            var complete := got.Some? && |got.value| == expectedChunks && forall c <- got.value :: present(c);
            var genuine := got.Some? && hash(Merge(got.value)) == expectedHash;
            && (r == Err(MissingChunks) <==> starts && got.Some? && !complete)
            && (r == Err(TamperedUpload) <==> starts && complete && !genuine)
            && (r == Err(StorageFailed) <==> !starts || got.None? || (complete && genuine && !commits))
  {
  }
}
