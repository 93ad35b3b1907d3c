/** The delta transfer of one file: what the sender reads, what the receiver accepts and stores, and
    what both report. */
module Transfer {
  import opened Core
  import opened Manifest
  import opened Pipeline

  const MAX_FILE_SIZE: nat := 16 * 1024 * 1024 * 1024 * 1024
  const MAX_CHUNKS_PER_FILE: nat := 250_000
  const CHUNK_WRITE_CONCURRENCY: nat := 8
  const CHUNK_WRITE_MAX_QUEUED_BYTES: nat := 32 * 1024 * 1024

  /** A chunk header and the bytes that follow it. */
  datatype Frame = Frame(hash: Hash, length: nat, bytes: Bytes)

  datatype Sent = Sent(frames: seq<Frame>, bytes: nat, reused: nat)

  // ---------------------------------------------------------------- looking up a chunk

  /** The descriptors by digest; a later extent replaces an earlier one. */
  function Descriptors(chunks: seq<Chunk>): map<Hash, Chunk> {
    if chunks == [] then map[]
    else Descriptors(chunks[..|chunks| - 1])[chunks[|chunks| - 1].hash := chunks[|chunks| - 1]]
  }

  lemma {:induction false} DescriptorsAre(chunks: seq<Chunk>, h: Hash)
    ensures h in Descriptors(chunks) <==> Mentions(chunks, h)
    ensures h in Descriptors(chunks) ==>
              && Descriptors(chunks)[h].hash == h
              && Descriptors(chunks)[h] in chunks
              && Descriptors(chunks)[h].length == LengthOf(chunks, h)
  {
    if chunks != [] {
      DescriptorsAre(chunks[..|chunks| - 1], h);
      MentionsSplits(chunks, h);
    }
  }

  /** Extents that need no transfer. */
  function Kept(chunks: seq<Chunk>, missing: seq<Hash>): nat {
    if chunks == [] then 0
    else Kept(chunks[..|chunks| - 1], missing) + if chunks[|chunks| - 1].hash in missing then 0 else 1
  }

  /** Counting what is not requested and counting what is held give the same number. */
  lemma {:induction false} KeptIsReused(chunks: seq<Chunk>, missing: seq<Hash>, held: set<Hash>)
    requires forall i :: 0 <= i < |chunks| ==> (chunks[i].hash in missing <==> chunks[i].hash !in held)
    ensures Kept(chunks, missing) == Reused(chunks, held)
  {
    if chunks != [] {
      var less := chunks[..|chunks| - 1];
      assert forall i :: 0 <= i < |less| ==> less[i] == chunks[i];
      KeptIsReused(less, missing, held);
    }
  }

  lemma {:induction false} PayloadGrows(chunks: seq<Chunk>, hashes: seq<Hash>, k: nat)
    requires k <= |hashes|
    ensures Payload(chunks, hashes[..k]) <= Payload(chunks, hashes)
  {
    if k < |hashes| {
      PayloadGrows(chunks, hashes[..|hashes| - 1], k);
      assert hashes[..|hashes| - 1][..k] == hashes[..k];
    } else {
      assert hashes[..k] == hashes;
    }
  }

  lemma PayloadStep(chunks: seq<Chunk>, hashes: seq<Hash>, k: nat)
    requires k < |hashes|
    ensures Payload(chunks, hashes[..k + 1]) == Payload(chunks, hashes[..k]) + LengthOf(chunks, hashes[k])
    ensures Payload(chunks, hashes[..k + 1]) <= Payload(chunks, hashes)
  {
    assert hashes[..k + 1][..k] == hashes[..k];
    PayloadGrows(chunks, hashes, k + 1);
  }

  // ---------------------------------------------------------------- sender

  /** The source still holds the chunk where its descriptor says. */
  predicate Readable(digest: Digest, source: Bytes, c: Chunk) {
    c.offset + c.length <= |source| && digest(Extent(source, c)) == c.hash
  }

  ghost predicate Sendable(digest: Digest, source: Bytes, m: FileManifest, h: Hash) {
    h in Descriptors(m.chunks) && Readable(digest, source, Descriptors(m.chunks)[h])
  }

  /** A frame that carries what the manifest says about its digest. */
  ghost predicate Good(digest: Digest, m: FileManifest, h: Hash, f: Frame) {
    f.hash == h && Mentions(m.chunks, h) && f.length == LengthOf(m.chunks, h) && |f.bytes| == f.length && digest(f.bytes) == h
  }

  ghost predicate Answers(digest: Digest, m: FileManifest, missing: seq<Hash>, frames: seq<Frame>) {
    |missing| <= |frames| && forall i :: 0 <= i < |missing| ==> Good(digest, m, missing[i], frames[i])
  }

  ghost predicate AllSendable(digest: Digest, source: Bytes, m: FileManifest, missing: seq<Hash>) {
    forall i :: 0 <= i < |missing| ==> Sendable(digest, source, m, missing[i])
  }

  lemma SendableIsGood(digest: Digest, source: Bytes, m: FileManifest, h: Hash)
    requires Sendable(digest, source, m, h)
    ensures var c := Descriptors(m.chunks)[h]; Good(digest, m, h, Frame(h, c.length, Extent(source, c)))
    ensures Descriptors(m.chunks)[h].length == LengthOf(m.chunks, h)
  {
    DescriptorsAre(m.chunks, h);
  }

  /** `send_requested_chunks`: refuses a repeated or unknown request and a source that changed;
      otherwise every frame is what the manifest promises, and the counters are exact. */
  method SendRequested(digest: Digest, source: Bytes, m: FileManifest, missing: seq<Hash>) returns (r: Option<Sent>)
    ensures r.Some? <==>
            Distinct(missing) && AllSendable(digest, source, m, missing) && Payload(m.chunks, missing) <= U64_MAX
    ensures r.Some? ==>
              && |r.value.frames| == |missing| && Answers(digest, m, missing, r.value.frames)
              && r.value.bytes == Payload(m.chunks, missing)
              && r.value.reused == Kept(m.chunks, missing)
  {
    hide Good, Sendable, Payload;
    var distinct := AllDistinct(missing);
    if !distinct {
      return None;
    }
    var reused := CountKept(m.chunks, missing);
    var frames: seq<Frame> := [];
    var sent: nat := 0;
    PayloadOfNone(m.chunks, missing[..0]);
    for k := 0 to |missing|
      invariant |frames| == k && sent == Payload(m.chunks, missing[..k]) <= U64_MAX
      invariant forall i :: 0 <= i < k ==> Sendable(digest, source, m, missing[i]) && Good(digest, m, missing[i], frames[i])
    {
      var h := missing[k];
      SendableMeans(digest, source, m, h);
      if h !in Descriptors(m.chunks) || !Readable(digest, source, Descriptors(m.chunks)[h]) {
        return None;
      }
      var c := Descriptors(m.chunks)[h];
      SendableIsGood(digest, source, m, h);
      PayloadStep(m.chunks, missing, k);
      frames := frames + [Frame(h, c.length, Extent(source, c))];
      if sent + c.length > U64_MAX {
        return None;
      }
      sent := sent + c.length;
    }
    assert missing[..|missing|] == missing;
    return Some(Sent(frames, sent, reused));
  }

  lemma SendableMeans(digest: Digest, source: Bytes, m: FileManifest, h: Hash)
    ensures Sendable(digest, source, m, h) <==>
            h in Descriptors(m.chunks) && Readable(digest, source, Descriptors(m.chunks)[h])
  {
  }

  lemma PayloadOfNone(chunks: seq<Chunk>, hashes: seq<Hash>)
    requires hashes == []
    ensures Payload(chunks, hashes) == 0
  {
  }

  method AllDistinct(hashes: seq<Hash>) returns (distinct: bool)
    ensures distinct <==> Distinct(hashes)
  {
    var seen: set<Hash> := {};
    for k := 0 to |hashes|
      invariant Distinct(hashes[..k])
      invariant forall h :: h in seen <==> h in hashes[..k]
    {
      if hashes[k] in seen {
        var i :| 0 <= i < k && hashes[..k][i] == hashes[k];
        assert hashes[i] == hashes[k];
        return false;
      }
      seen := seen + {hashes[k]};
    }
    assert hashes[..|hashes|] == hashes;
    return true;
  }

  method CountKept(chunks: seq<Chunk>, missing: seq<Hash>) returns (count: nat)
    ensures count == Kept(chunks, missing)
  {
    count := 0;
    for k := 0 to |chunks|
      invariant count == Kept(chunks[..k], missing)
    {
      assert chunks[..k + 1][..k] == chunks[..k];
      if chunks[k].hash !in missing {
        count := count + 1;
      }
    }
    assert chunks[..|chunks|] == chunks;
  }

  // ---------------------------------------------------------------- receiver

  /** The verified chunks that the first frames carry. */
  function Carried(frames: seq<Frame>): (r: seq<Verified>)
    ensures |r| == |frames| && forall i :: 0 <= i < |r| ==> r[i] == Verified(frames[i].hash, frames[i].bytes)
  {
    seq(|frames|, i requires 0 <= i < |frames| => Verified(frames[i].hash, frames[i].bytes))
  }

  lemma {:induction false} CarriedSize(digest: Digest, m: FileManifest, missing: seq<Hash>, frames: seq<Frame>, k: nat)
    requires Answers(digest, m, missing, frames) && k <= |missing|
    ensures Size(Carried(frames[..k])) == Payload(m.chunks, missing[..k])
  {
    if k > 0 {
      CarriedSize(digest, m, missing, frames, k - 1);
      assert Carried(frames[..k])[..k - 1] == Carried(frames[..k - 1]);
      assert missing[..k][..k - 1] == missing[..k - 1];
      assert Good(digest, m, missing[k - 1], frames[k - 1]);
    }
  }

  lemma CarriedStep(frames: seq<Frame>, k: nat)
    requires k < |frames|
    ensures Carried(frames[..k + 1]) == Carried(frames[..k]) + [Verified(frames[k].hash, frames[k].bytes)]
  {
  }

  /** What is asked for respects the manifest's own maximum and can be counted. */
  ghost predicate Fitting(m: FileManifest, missing: seq<Hash>) {
    FittingUpTo(m, missing, |missing|) && Payload(m.chunks, missing) <= U64_MAX
  }

  ghost predicate FittingUpTo(m: FileManifest, missing: seq<Hash>, k: nat) {
    k <= |missing| && forall i :: 0 <= i < k ==> LengthOf(m.chunks, missing[i]) <= m.profile.maxSize
  }

  ghost predicate GoodUpTo(digest: Digest, m: FileManifest, missing: seq<Hash>, frames: seq<Frame>, k: nat) {
    k <= |missing| && k <= |frames| && forall i :: 0 <= i < k ==> Good(digest, m, missing[i], frames[i])
  }

  /** `receive_chunks`, for frames that anyone may have sent. Success means that every requested
      chunk arrived, in order and undamaged, and is now in the store beside all that was intact
      before. When the store works and the opening check has passed, exactly the right frames
      succeed, and no later budget check fails. */
  method ReceiveChunks(m: FileManifest, missing: seq<Hash>, frames: seq<Frame>, w: Writer) returns (r: Option<nat>)
    requires w.Valid() && !w.broken && w.pushed == []
    modifies w
    ensures r.Some? ==>
              && Answers(w.digest, m, missing, frames) && Fitting(m, missing)
              && r.value == Payload(m.chunks, missing)
              && w.files == Install(w.digest, w.start, Carried(frames[..|missing|]))
    ensures r.Some? ==> forall h :: h in missing || Intact(w.digest, w.start, h) ==> Intact(w.digest, w.files, h)
    ensures w.Smooth(Payload(m.chunks, missing)) ==> (r.Some? <==> Answers(w.digest, m, missing, frames) && Fitting(m, missing))
  {
    hide Good, Payload, Install, Size;
    ghost var total := Payload(m.chunks, missing);
    var k, ok, transferred := 0, true, 0;
    PayloadOfNone(m.chunks, missing[..0]);
    while k < |missing| && ok
      invariant k <= |missing|
      invariant ok ==> w.Valid() && !w.broken && GoodUpTo(w.digest, m, missing, frames, k)
      invariant ok ==> w.pushed == Carried(frames[..k]) && transferred == Payload(m.chunks, missing[..k]) <= U64_MAX
      invariant ok ==> FittingUpTo(m, missing, k)
      invariant !ok ==> w.Valid() && (w.Smooth(total) ==> !(Answers(w.digest, m, missing, frames) && Fitting(m, missing)))
      decreases |missing| - k, ok
    {
      PayloadStep(m.chunks, missing, k);
      GoodMeans(w.digest, m, missing, frames, k);
      if k >= |frames| || !Acceptable(w.digest, m, missing[k], frames[k]) {
        ok := false;
      } else {
        var f := frames[k];
        CarriedStep(frames, k);
        GoodSize(w.digest, m, missing, frames, k);
        if transferred + f.length > U64_MAX {
          ok := false;
        } else {
          transferred := transferred + f.length;
          ok := w.Push(Verified(f.hash, f.bytes), total);
          k := k + 1;
        }
      }
    }
    if ok {
      GoodSizeEnd(w.digest, m, missing, frames);
    }
    var finished := w.Finish(total);
    if !ok || !finished {
      return None;
    }
    assert missing[..|missing|] == missing;
    StoredAll(w.digest, m, w.start, missing, frames);
    return Some(transferred);
  }

  /** The checks on one frame: the expected digest, the described length, the maximum, the bytes. */
  predicate Acceptable(digest: Digest, m: FileManifest, h: Hash, f: Frame) {
    && f.hash == h
    && h in Descriptors(m.chunks)
    && f.length == Descriptors(m.chunks)[h].length
    && f.length <= m.profile.maxSize
    && |f.bytes| == f.length
    && digest(f.bytes) == h
  }

  lemma GoodMeans(digest: Digest, m: FileManifest, missing: seq<Hash>, frames: seq<Frame>, k: nat)
    requires k < |missing| && GoodUpTo(digest, m, missing, frames, k) && FittingUpTo(m, missing, k)
    ensures GoodUpTo(digest, m, missing, frames, k + 1) && FittingUpTo(m, missing, k + 1) <==>
            k < |frames| && Acceptable(digest, m, missing[k], frames[k])
    ensures Answers(digest, m, missing, frames) && Fitting(m, missing) ==>
              GoodUpTo(digest, m, missing, frames, k + 1) && FittingUpTo(m, missing, k + 1)
    ensures k < |frames| && Acceptable(digest, m, missing[k], frames[k]) ==> frames[k].length == LengthOf(m.chunks, missing[k])
  {
    DescriptorsAre(m.chunks, missing[k]);
  }

  lemma GoodSize(digest: Digest, m: FileManifest, missing: seq<Hash>, frames: seq<Frame>, k: nat)
    requires k < |missing| && GoodUpTo(digest, m, missing, frames, k)
    requires k < |frames| && |frames[k].bytes| == LengthOf(m.chunks, missing[k])
    ensures Size(Carried(frames[..k])) + |frames[k].bytes| <= Payload(m.chunks, missing)
  {
    CarriedSize(digest, m, missing[..k], frames, k);
    assert missing[..k][..k] == missing[..k];
    PayloadStep(m.chunks, missing, k);
  }

  lemma GoodSizeEnd(digest: Digest, m: FileManifest, missing: seq<Hash>, frames: seq<Frame>)
    requires GoodUpTo(digest, m, missing, frames, |missing|)
    ensures Size(Carried(frames[..|missing|])) == Payload(m.chunks, missing)
  {
    CarriedSize(digest, m, missing, frames, |missing|);
    assert missing[..|missing|] == missing;
  }

  lemma StoredAll(digest: Digest, m: FileManifest, start: Files, missing: seq<Hash>, frames: seq<Frame>)
    requires GoodUpTo(digest, m, missing, frames, |missing|)
    ensures var files := Install(digest, start, Carried(frames[..|missing|]));
            forall h :: h in missing || Intact(digest, start, h) ==> Intact(digest, files, h)
  {
    var chunks := Carried(frames[..|missing|]);
    assert forall i :: 0 <= i < |chunks| ==> Good(digest, m, missing[i], frames[i]);
    InstallIsSafe(digest, start, chunks);
    forall h | h in missing ensures Intact(digest, Install(digest, start, chunks), h) {
      var i :| 0 <= i < |missing| && missing[i] == h;
      assert chunks[i].hash == h;
    }
  }

  // ---------------------------------------------------------------- a whole session

  /** The distinct members of a list, in the order of their first occurrence. */
  function Once(hashes: seq<Hash>): seq<Hash> {
    if hashes == [] then []
    else
      var before := Once(hashes[..|hashes| - 1]);
      if hashes[|hashes| - 1] in before then before else before + [hashes[|hashes| - 1]]
  }

  lemma {:induction false} OnceIsSame(hashes: seq<Hash>)
    ensures forall h :: h in Once(hashes) <==> h in hashes
    ensures Distinct(hashes) ==> Once(hashes) == hashes
  {
    if hashes != [] {
      var less := hashes[..|hashes| - 1];
      OnceIsSame(less);
      assert hashes == less + [hashes[|hashes| - 1]];
    }
  }

  lemma {:induction false} OnceGrows(chunks: seq<Chunk>, hashes: seq<Hash>, k: nat)
    requires k <= |hashes|
    ensures Payload(chunks, Once(hashes[..k])) <= Payload(chunks, Once(hashes))
  {
    if k < |hashes| {
      var n := |hashes| - 1;
      OnceGrows(chunks, hashes[..n], k);
      assert hashes[..n][..k] == hashes[..k];
      assert (Once(hashes[..n]) + [hashes[n]])[..|Once(hashes[..n])|] == Once(hashes[..n]);
    } else {
      assert hashes[..k] == hashes;
    }
  }

  lemma OnceStep(chunks: seq<Chunk>, hashes: seq<Hash>, k: nat)
    requires k < |hashes|
    ensures Payload(chunks, Once(hashes[..k + 1])) ==
            Payload(chunks, Once(hashes[..k])) + if hashes[k] in hashes[..k] then 0 else LengthOf(chunks, hashes[k])
    ensures Payload(chunks, Once(hashes[..k + 1])) <= Payload(chunks, Once(hashes))
  {
    var before := Once(hashes[..k]);
    assert hashes[..k + 1][..k] == hashes[..k];
    OnceIsSame(hashes[..k]);
    OnceGrows(chunks, hashes, k + 1);
    assert (before + [hashes[k]])[..|before|] == before;
  }

  /** `unique_missing_chunk_bytes`. */
  method UniqueMissingBytes(m: FileManifest, missing: seq<Hash>) returns (r: Option<nat>)
    ensures r.Some? <==> (forall h :: h in missing ==> Mentions(m.chunks, h)) && Payload(m.chunks, Once(missing)) <= U64_MAX
    ensures r.Some? ==> r.value == Payload(m.chunks, Once(missing))
  {
    hide Payload, Once, Mentions, Descriptors;
    var total: nat := 0;
    var seen: set<Hash> := {};
    OnceOfNone(m.chunks, missing[..0]);
    for k := 0 to |missing|
      invariant total == Payload(m.chunks, Once(missing[..k])) <= U64_MAX
      invariant forall h :: h in seen <==> h in missing[..k]
      invariant forall h :: h in seen ==> Mentions(m.chunks, h)
    {
      var h := missing[k];
      OnceStep(m.chunks, missing, k);
      DescriptorsAre(m.chunks, h);
      assert missing[..k + 1] == missing[..k] + [h];
      if h !in seen {
        if h !in Descriptors(m.chunks) {
          assert h in missing;
          return None;
        }
        if total + Descriptors(m.chunks)[h].length > U64_MAX {
          return None;
        }
        total := total + Descriptors(m.chunks)[h].length;
      }
      seen := seen + {h};
    }
    assert missing[..|missing|] == missing;
    return Some(total);
  }

  lemma OnceOfNone(chunks: seq<Chunk>, hashes: seq<Hash>)
    requires hashes == []
    ensures Payload(chunks, Once(hashes)) == 0
  {
  }

  datatype Receipt = Receipt(sentBytes: nat, receivedBytes: nat, senderReused: nat, receiverReused: nat)

  /** What the receiver lacks of a file. */
  function Need(digest: Digest, files: Files, m: FileManifest): seq<Hash> {
    Missing(m.chunks, Held(digest, files, m.chunks))
  }

  /** A source that matches its manifest can send everything asked for. */
  lemma DescribedIsSendable(digest: Digest, source: Bytes, m: FileManifest, h: Hash)
    requires Describes(digest, m, source) && Mentions(m.chunks, h)
    ensures Sendable(digest, source, m, h)
  {
    DescriptorsAre(m.chunks, h);
    var c := Descriptors(m.chunks)[h];
    var i :| 0 <= i < |m.chunks| && m.chunks[i] == c;
  }

  /** What was asked for is known, distinct, within the file, and complements what is held. */
  lemma NeedIsRight(digest: Digest, files: Files, m: FileManifest)
    requires Valid(digest, m)
    ensures Distinct(Need(digest, files, m))
    ensures forall h :: h in Need(digest, files, m) ==> Mentions(m.chunks, h)
    ensures Payload(m.chunks, Need(digest, files, m)) <= m.size
    ensures Once(Need(digest, files, m)) == Need(digest, files, m)
    ensures Kept(m.chunks, Need(digest, files, m)) == Reused(m.chunks, Held(digest, files, m.chunks))
  {
    hide Held, Payload, Missing, Tiles, Sized;
    var held := Held(digest, files, m.chunks);
    MissingIsExact(m.chunks, held);
    PayloadFits(m.chunks, held, |m.chunks|);
    assert m.chunks[..|m.chunks|] == m.chunks;
    OnceIsSame(Need(digest, files, m));
    assert forall i :: 0 <= i < |m.chunks| ==> Mentions(m.chunks, m.chunks[i].hash);
    KeptIsReused(m.chunks, Need(digest, files, m), held);
  }

  /** Held before or received now: every chunk is there. */
  lemma NowComplete(digest: Digest, files: Files, m: FileManifest, after: Files)
    requires forall h :: h in Need(digest, files, m) || Intact(digest, files, h) ==> Intact(digest, after, h)
    ensures Complete(digest, after, m)
  {
    MissingIsExact(m.chunks, Held(digest, files, m.chunks));
    forall i | 0 <= i < |m.chunks| ensures Intact(digest, after, m.chunks[i].hash) {
      assert Mentions(m.chunks, m.chunks[i].hash);
      if m.chunks[i].hash in Held(digest, files, m.chunks) {
        assert Intact(digest, files, m.chunks[i].hash);
      }
    }
  }

  ghost predicate AlwaysLands(outcome: nat -> Option<nat>) {
    forall n :: outcome(n).None?
  }

  /** What the receiver demands of an offer before anything else. */
  predicate Offerable(record: SyncRecord, m: FileManifest) {
    && record.Valid() && !record.tombstone && record.kind == File
    && m.size == record.size && Some(m.fileHash) == record.contentHash
    && m.size <= MAX_FILE_SIZE && |m.chunks| <= MAX_CHUNKS_PER_FILE
  }

  /** One push from the offered record and manifest to the check before materialisation. Success makes the
      store complete, whatever was in it, damaged files included; the reassembled file is then any
      file that the manifest describes, with the digest of the record; both sides report the same bytes and the same reuse. With an
      unchanged source and a working store, the session succeeds exactly when the offer is in order
      and the opening check passes: no later check fails. */
  method PushSession(digest: Digest, source: Bytes, record: SyncRecord, m: FileManifest, files: Files, space: Space, reserve: nat,
                     outcome: nat -> Option<nat>, landed: nat -> nat, ghost original: Bytes)
    returns (r: Option<Receipt>, stored: Files)
    requires m.size <= U64_MAX
    ensures r.Some? ==>
              && Offerable(record, m) && Valid(digest, m) && Complete(digest, stored, m)
              && r.value.sentBytes == r.value.receivedBytes == Payload(m.chunks, Need(digest, files, m)) <= m.size
              && r.value.senderReused == r.value.receiverReused == Reused(m.chunks, Held(digest, files, m.chunks))
    ensures r.Some? && CollisionFree(digest) && Describes(digest, m, original) ==> Reassemble(stored, m.chunks) == original
    ensures r.Some? && CollisionFree(digest) && Describes(digest, m, original) ==>
              record.contentHash == Some(digest(original)) && record.size == |original| <= 16 * 1024 * 1024 * 1024 * 1024
              && record.kind == File && !record.tombstone && |m.chunks| <= 250_000
    ensures Valid(digest, m) && Describes(digest, m, source) && AlwaysLands(outcome) ==>
              (r.Some? <==> Offerable(record, m) && WithinBudget(space, Payload(m.chunks, Need(digest, files, m)), m.size, reserve))
  {
    hide Valid, Describes, Payload, Held, Missing, Complete, Reassemble, Distinct, WithinBudget, AllSendable, Sendable, Answers,
      Intact, Once, Kept, Reused;
    stored := files;
    var valid := Validate(digest, m);
    if !valid || !Offerable(record, m) {
      return None, stored;
    }
    ValidParts(digest, m);
    NeedIsRight(digest, files, m);
    var missing := MissingChunks(digest, files, m);
    var receiverReused := CountKept(m.chunks, missing);
    var payload := UniqueMissingBytes(m, missing);
    if !WithinBudget(space, payload.value, m.size, reserve) {
      return None, stored;
    }
    if Describes(digest, m, source) { DescribedAllSendable(digest, source, m, missing); }
    var sent := SendRequested(digest, source, m, missing);
    if sent.None? {
      return None, stored;
    }
    var w := new Writer(digest, CHUNK_WRITE_CONCURRENCY, CHUNK_WRITE_MAX_QUEUED_BYTES,
                        Some(Admission(space, reserve, m.size)), outcome, landed, files);
    NeedFits(digest, m, missing);
    var received := ReceiveChunks(m, missing, sent.value.frames, w);
    stored := w.files;
    if received.None? {
      return None, stored;
    }
    OpeningCheckCovers(space, payload.value, m.size, reserve, payload.value, 0);
    // the check before materialisation cannot fail any more
    assert WithinBudget(FreeAfter(space, payload.value), 0, m.size, reserve);
    NowComplete(digest, files, m, stored);
    if CollisionFree(digest) && Describes(digest, m, original) {
      ReassemblesFile(digest, stored, m, original);
      DescribedFile(digest, m, original);
    }
    return Some(Receipt(sent.value.bytes, received.value, sent.value.reused, receiverReused)), stored;
  }

  lemma NeedFits(digest: Digest, m: FileManifest, missing: seq<Hash>)
    requires Valid(digest, m) && (forall h :: h in missing ==> Mentions(m.chunks, h)) && Payload(m.chunks, missing) <= U64_MAX
    ensures Fitting(m, missing)
  {
    hide Payload, Tiles, Consistent;
    forall i | 0 <= i < |missing| ensures LengthOf(m.chunks, missing[i]) <= m.profile.maxSize {
      DescriptorsAre(m.chunks, missing[i]);
      var c := Descriptors(m.chunks)[missing[i]];
      var k :| 0 <= k < |m.chunks| && m.chunks[k] == c;
    }
  }

  lemma DescribedFile(digest: Digest, m: FileManifest, bytes: Bytes)
    requires Describes(digest, m, bytes)
    ensures digest(bytes) == m.fileHash && |bytes| == m.size
  {
  }

  lemma ValidParts(digest: Digest, m: FileManifest)
    requires Valid(digest, m)
    ensures Consistent(m.chunks) && Sized(m.chunks, m.profile.maxSize)
  {
  }

  lemma DescribedAllSendable(digest: Digest, source: Bytes, m: FileManifest, missing: seq<Hash>)
    requires Describes(digest, m, source) && forall h :: h in missing ==> Mentions(m.chunks, h)
    ensures AllSendable(digest, source, m, missing)
  {
    forall i | 0 <= i < |missing| ensures Sendable(digest, source, m, missing[i]) {
      DescribedIsSendable(digest, source, m, missing[i]);
    }
  }
}
