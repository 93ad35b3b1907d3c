/** The bounded write pipeline between a receiving stream and the chunk store, and the disk budget
    that it checks before every batch. */
module Pipeline {
  import opened Core
  import opened Manifest

  const CHUNK_WRITE_BATCH: nat := 8

  // ---------------------------------------------------------------- disk budget

  /** Free bytes where the chunk store and where the destination tree live. */
  datatype Space = Space(shared: bool, state: nat, destination: nat)

  function Less(free: nat, used: nat): nat {
    if used <= free then free - used else 0
  }

  /** What is free after so many bytes went to the chunk store. */
  function FreeAfter(space: Space, used: nat): Space {
    Space(space.shared, Less(space.state, used), if space.shared then Less(space.destination, used) else space.destination)
  }

  /** `check_available`, with its checked addition. */
  predicate Available(free: nat, write: nat, reserve: nat) {
    reserve + write <= U64_MAX && free >= reserve + write
  }

  /** `check_filesystem_budget`. */
  predicate WithinBudget(space: Space, stateWrite: nat, destinationWrite: nat, reserve: nat) {
    if space.shared then
      && stateWrite + destinationWrite <= U64_MAX
      && Available(if space.state < space.destination then space.state else space.destination,
                   stateWrite + destinationWrite, reserve)
    else
      Available(space.state, stateWrite, reserve) && Available(space.destination, destinationWrite, reserve)
  }

  /** The check passes exactly when both file systems keep the reserve after the writes, the sum
      counted against one of them if they are one, and no sum overflows. */
  lemma BudgetIsExact(space: Space, stateWrite: nat, destinationWrite: nat, reserve: nat)
    ensures space.shared ==>
              (WithinBudget(space, stateWrite, destinationWrite, reserve) <==>
               && stateWrite + destinationWrite + reserve <= U64_MAX
               && space.state - stateWrite - destinationWrite >= reserve
               && space.destination - stateWrite - destinationWrite >= reserve)
    ensures !space.shared ==>
              (WithinBudget(space, stateWrite, destinationWrite, reserve) <==>
               && stateWrite + reserve <= U64_MAX && destinationWrite + reserve <= U64_MAX
               && space.state - stateWrite >= reserve && space.destination - destinationWrite >= reserve)
  {
  }

  /** A write to the chunk store is charged to the destination too if both share a file system. */
  lemma WritesAreCharged(space: Space, used: nat)
    requires used <= space.state && (space.shared ==> used <= space.destination)
    ensures FreeAfter(space, used).state + used == space.state
    ensures FreeAfter(space, used).destination + (if space.shared then used else 0) == space.destination
    ensures FreeAfter(space, used).shared == space.shared
  {
  }

  /** The opening check covers the whole transfer: however many of the admitted bytes have landed
      when a later batch is checked, that check passes, the final materialisation check passes, and
      neither file system ever drops below the reserve, before or after the file is materialised. */
  lemma OpeningCheckCovers(space: Space, total: nat, size: nat, reserve: nat, landed: nat, batch: nat)
    requires WithinBudget(space, total, size, reserve) && landed + batch <= total
    ensures WithinBudget(FreeAfter(space, landed), batch, size, reserve)
    ensures WithinBudget(FreeAfter(space, landed), 0, size, reserve)
    ensures var now := FreeAfter(space, landed + batch); now.state >= reserve && now.destination >= reserve + size
    ensures space.shared ==> var now := FreeAfter(space, landed + batch); now.state >= reserve + size
  {
  }

  // ---------------------------------------------------------------- chunks on their way

  /** A chunk whose bytes were checked against its digest. */
  datatype Verified = Verified(hash: Hash, bytes: Bytes)

  function Size(chunks: seq<Verified>): nat {
    if chunks == [] then 0 else Size(chunks[..|chunks| - 1]) + |chunks[|chunks| - 1].bytes|
  }

  lemma {:induction false} SizeAdds(a: seq<Verified>, b: seq<Verified>)
    ensures Size(a + b) == Size(a) + Size(b)
  {
    if b == [] {
      assert a + b == a;
    } else {
      var n := |b| - 1;
      SizeAdds(a, b[..n]);
      assert (a + b)[..|a + b| - 1] == a + b[..n];
    }
  }

  function Flat(batches: seq<seq<Verified>>): seq<Verified> {
    if batches == [] then [] else batches[0] + Flat(batches[1..])
  }

  lemma {:induction false} FlatAppends(batches: seq<seq<Verified>>, batch: seq<Verified>)
    ensures Flat(batches + [batch]) == Flat(batches) + batch
  {
    if batches == [] {
      assert [batch][1..] == [];
      assert batches + [batch] == [batch];
    } else {
      assert (batches + [batch])[1..] == batches[1..] + [batch];
      FlatAppends(batches[1..], batch);
    }
  }

  /** An undamaged file is kept, a damaged one replaced. */
  function InstallOne(digest: Digest, files: Files, c: Verified): Files {
    if Intact(digest, files, c.hash) && |files[c.hash]| <= |c.bytes| then files else files[c.hash := c.bytes]
  }

  function Install(digest: Digest, files: Files, chunks: seq<Verified>): Files {
    if chunks == [] then files
    else InstallOne(digest, Install(digest, files, chunks[..|chunks| - 1]), chunks[|chunks| - 1])
  }

  lemma {:induction false} InstallAppends(digest: Digest, files: Files, a: seq<Verified>, b: seq<Verified>)
    ensures Install(digest, files, a + b) == Install(digest, Install(digest, files, a), b)
  {
    if b == [] {
      assert a + b == a;
    } else {
      var n := |b| - 1;
      InstallAppends(digest, files, a, b[..n]);
      assert (a + b)[..|a + b| - 1] == a + b[..n];
    }
  }

  /** Installing verified chunks makes each of them available and damages no other. */
  lemma {:induction false} InstallIsSafe(digest: Digest, files: Files, chunks: seq<Verified>)
    requires forall i :: 0 <= i < |chunks| ==> digest(chunks[i].bytes) == chunks[i].hash
    ensures forall i :: 0 <= i < |chunks| ==> Intact(digest, Install(digest, files, chunks), chunks[i].hash)
    ensures forall h :: Intact(digest, files, h) ==> Intact(digest, Install(digest, files, chunks), h)
  {
    if chunks != [] {
      InstallIsSafe(digest, files, chunks[..|chunks| - 1]);
    }
  }

  /** One chunk: a file that is undamaged and not longer stays as it is, any other is replaced, and no
      other file is touched. */
  lemma InstallsOne(digest: Digest, files: Files, c: Verified, h: Hash)
    ensures var after := InstallOne(digest, files, c);
            && (h != c.hash ==> (h in after <==> h in files) && (h in files ==> after[h] == files[h]))
            && c.hash in after
            && after[c.hash] ==
               if c.hash in files && digest(files[c.hash]) == c.hash && |files[c.hash]| <= |c.bytes| then files[c.hash] else c.bytes
  {
  }

  /** What every check is measured against: free space at the start, the reserve, and the bytes the
      destination will need. */
  datatype Admission = Admission(space: Space, reserve: nat, pendingDestination: nat)

  /** The chunks of a batch that reach the store: all of them, or those before the error. */
  function Written(end: Option<nat>, batch: seq<Verified>): seq<Verified> {
    match end
    case None => batch
    case Some(kept) => if kept <= |batch| then batch[..kept] else batch
  }

  /** Bytes accepted and not yet in the store. */
  function InQueue(inflight: seq<seq<Verified>>, pending: seq<Verified>): nat {
    Size(pending) + Size(Flat(inflight))
  }

  /** Every pushed chunk is settled, in flight or pending, exactly once and in order; the settled
      ones are in the store; `flushed` counts the bytes handed out. */
  ghost predicate Accounted(digest: Digest, start: Files, pushed: seq<Verified>, settled: seq<Verified>,
                            inflight: seq<seq<Verified>>, pending: seq<Verified>, files: Files, flushed: nat) {
    && pushed == settled + (Flat(inflight) + pending)
    && files == Install(digest, start, settled)
    && flushed == Size(settled) + Size(Flat(inflight))
  }

  lemma FlatHead(inflight: seq<seq<Verified>>)
    requires inflight != []
    ensures Flat(inflight) == inflight[0] + Flat(inflight[1..])
  {
  }

  lemma AccountedLand(digest: Digest, start: Files, pushed: seq<Verified>, settled: seq<Verified>,
                      inflight: seq<seq<Verified>>, pending: seq<Verified>, files: Files, flushed: nat)
    requires inflight != [] && Accounted(digest, start, pushed, settled, inflight, pending, files, flushed)
    ensures Accounted(digest, start, pushed, settled + inflight[0], inflight[1..], pending,
                      Install(digest, files, inflight[0]), flushed)
  {
    hide Flat, Size, Install;
    var batch, rest := inflight[0], Flat(inflight[1..]);
    FlatHead(inflight);
    SizeAdds(batch, rest);
    SizeAdds(settled, batch);
    InstallAppends(digest, start, settled, batch);
    assert settled + ((batch + rest) + pending) == (settled + batch) + (rest + pending);
  }

  lemma QueueLand(inflight: seq<seq<Verified>>, pending: seq<Verified>)
    requires inflight != []
    ensures InQueue(inflight[1..], pending) <= InQueue(inflight, pending)
  {
    SizeAdds(inflight[0], Flat(inflight[1..]));
  }

  lemma AccountedFlush(digest: Digest, start: Files, pushed: seq<Verified>, settled: seq<Verified>,
                       inflight: seq<seq<Verified>>, pending: seq<Verified>, files: Files, flushed: nat)
    requires Accounted(digest, start, pushed, settled, inflight, pending, files, flushed)
    ensures Accounted(digest, start, pushed, settled, inflight + [pending], [], files, flushed + Size(pending))
    ensures flushed + Size(pending) == Size(pushed)
  {
    FlatAppends(inflight, pending);
    SizeAdds(Flat(inflight), pending);
    SizeAdds(settled, Flat(inflight) + pending);
    assert Flat(inflight) + pending + [] == Flat(inflight) + pending;
  }

  lemma QueueFlush(inflight: seq<seq<Verified>>, pending: seq<Verified>)
    ensures InQueue(inflight + [pending], []) == InQueue(inflight, pending)
    ensures InQueue(inflight, []) <= InQueue(inflight, pending)
  {
    FlatAppends(inflight, pending);
    SizeAdds(Flat(inflight), pending);
  }

  lemma AccountedPush(digest: Digest, start: Files, pushed: seq<Verified>, settled: seq<Verified>,
                      inflight: seq<seq<Verified>>, pending: seq<Verified>, files: Files, flushed: nat, chunk: Verified)
    requires Accounted(digest, start, pushed, settled, inflight, pending, files, flushed)
    ensures Accounted(digest, start, pushed + [chunk], settled, inflight, pending + [chunk], files, flushed)
    ensures Size(pushed + [chunk]) == Size(pushed) + |chunk.bytes|
  {
    assert settled + (Flat(inflight) + pending) + [chunk] == settled + (Flat(inflight) + (pending + [chunk]));
    SizeAdds(pushed, [chunk]);
    assert [chunk][..0] == [];
  }

  lemma QueuePush(inflight: seq<seq<Verified>>, pending: seq<Verified>, chunk: Verified)
    ensures InQueue(inflight, pending + [chunk]) == InQueue(inflight, pending) + |chunk.bytes|
    ensures inflight == [] && pending == [] ==> InQueue(inflight, pending) == 0
  {
    SizeAdds(pending, [chunk]);
    assert [chunk][..0] == [];
  }

  lemma AccountedEnd(digest: Digest, start: Files, pushed: seq<Verified>, settled: seq<Verified>, files: Files, flushed: nat)
    requires Accounted(digest, start, pushed, settled, [], [], files, flushed)
    ensures settled == pushed && files == Install(digest, start, pushed)
  {
    assert settled + (Flat([]) + []) == settled;
  }

  lemma NothingAccounted(digest: Digest, start: Files)
    ensures Accounted(digest, start, [], [], [], [], start, 0) && InQueue([], []) == 0
  {
  }

  /** Chunks collect in `pending`; batches of them are written in the background, at most
      `maxInflight` at once. `outcome` says how the n-th batch ends: completely, or after so many
      chunks. `landed` says how many of the bytes handed out have reached the disk at a check. */
  class Writer {
    const digest: Digest
    const maxInflight: nat
    const maxQueued: nat
    const admission: Option<Admission>
    const outcome: nat -> Option<nat>
    const landed: nat -> nat
    ghost const start: Files

    var inflight: seq<seq<Verified>>
    var pending: seq<Verified>
    var files: Files
    var spawned: nat
    var flushed: nat
    ghost var pushed: seq<Verified>
    ghost var settled: seq<Verified>
    ghost var biggest: nat
    ghost var broken: bool

    /** The limits hold at every moment, and until something fails nothing is lost. */
    ghost predicate Valid()
      reads this
    {
      && maxInflight >= 1 && maxQueued >= 1
      && |inflight| <= maxInflight && |inflight| <= spawned
      && InQueue(inflight, pending) <= Max(maxQueued, biggest)
      && (!broken ==> Accounted(digest, start, pushed, settled, inflight, pending, files, flushed))
    }

    /** The store never fails. */
    ghost predicate Reliable() {
      forall n :: outcome(n).None?
    }

    /** The store never fails, and the opening check admitted `total` bytes. */
    ghost predicate Smooth(total: nat) {
      && Reliable()
      && (admission.Some? ==>
            WithinBudget(admission.value.space, total, admission.value.pendingDestination, admission.value.reserve))
    }

    constructor (digest: Digest, maxInflight: nat, maxQueued: nat, admission: Option<Admission>,
                 outcome: nat -> Option<nat>, landed: nat -> nat, files: Files)
      ensures Valid() && !broken && pushed == [] && biggest == 0
      ensures this.digest == digest && this.start == files && this.admission == admission && this.outcome == outcome
      ensures this.maxInflight == Max(maxInflight, 1) && this.maxQueued == Max(maxQueued, 1)
    {
      this.digest, this.outcome, this.landed, this.admission := digest, outcome, landed, admission;
      this.maxInflight, this.maxQueued := Max(maxInflight, 1), Max(maxQueued, 1);
      this.files, this.start := files, files;
      inflight, pending, spawned, flushed := [], [], 0, 0;
      pushed, settled, biggest, broken := [], [], 0, false;
      new;
      NothingAccounted(digest, files);
    }

    /** The end of the oldest batch: its chunks reach the store, or some of them and an error. */
    method Land() returns (ok: bool)
      requires Valid() && inflight != []
      modifies this
      ensures Valid() && pending == old(pending) && inflight == old(inflight)[1..]
      ensures spawned == old(spawned) && pushed == old(pushed) && biggest == old(biggest) && flushed == old(flushed)
      ensures broken == (old(broken) || !ok)
      ensures ok <==> outcome(old(spawned) - |old(inflight)|).None?
      ensures files == Install(digest, old(files), Written(outcome(old(spawned) - |old(inflight)|), old(inflight)[0]))
      ensures Reliable() ==> ok
    {
      hide Accounted, InQueue, Size, Install;
      var batch := inflight[0];
      QueueLand(inflight, pending);
      if !broken { AccountedLand(digest, start, pushed, settled, inflight, pending, files, flushed); }
      match outcome(spawned - |inflight|) {
        case None =>
          files := Install(digest, files, batch);
          settled := settled + batch;
          ok := true;
        case Some(kept) =>
          files := Install(digest, files, if kept <= |batch| then batch[..kept] else batch);
          broken := true;
          ok := false;
      }
      inflight := inflight[1..];
    }

    /** `drain_chunk_tasks`. */
    method Drain() returns (ok: bool)
      requires Valid()
      modifies this
      ensures Valid() && inflight == [] && pending == old(pending) && pushed == old(pushed) && biggest == old(biggest)
      ensures broken == (old(broken) || !ok) && flushed == old(flushed) && spawned == old(spawned)
      ensures Reliable() ==> ok
    {
      hide Accounted, InQueue, Size, Install, Reliable;
      ok := true;
      while inflight != []
        invariant Valid() && pending == old(pending) && pushed == old(pushed) && biggest == old(biggest)
        invariant broken == (old(broken) || !ok) && flushed == old(flushed) && spawned == old(spawned)
        invariant Reliable() ==> ok
        decreases |inflight|
      {
        var landed := Land();
        ok := ok && landed;
      }
    }

    /** `join_oldest`: after a failed batch the others are waited for as well. */
    method JoinOldest() returns (ok: bool)
      requires Valid() && inflight != []
      modifies this
      ensures Valid() && pending == old(pending) && pushed == old(pushed) && biggest == old(biggest)
      ensures inflight == if ok then old(inflight)[1..] else []
      ensures broken == (old(broken) || !ok) && flushed == old(flushed) && spawned == old(spawned)
      ensures Reliable() ==> ok
    {
      hide Accounted, InQueue, Size, Install, Reliable;
      ok := Land();
      if !ok {
        var drained := Drain();
      }
    }

    /** The batch of so many bytes fits into what is free when it is checked. */
    predicate FitsNow(number: nat, handedOut: nat, bytes: nat) {
      admission.Some? ==>
        var a := admission.value;
        WithinBudget(FreeAfter(a.space, if landed(number) <= handedOut then landed(number) else handedOut),
                     bytes, a.pendingDestination, a.reserve)
    }

    /** `flush_pending`: all pending chunks become one batch, after the budget check. */
    method Flush(ghost total: nat) returns (ok: bool)
      requires Valid()
      modifies this
      ensures Valid() && pushed == old(pushed) && biggest == old(biggest)
      ensures ok ==>
                && broken == old(broken) && pending == []
                && |inflight| == (if old(|inflight|) >= maxInflight then maxInflight else old(|inflight|) + 1)
      ensures !ok ==> broken
      ensures ok ==> FitsNow(old(spawned), old(flushed), Size(old(pending)))
      ensures !ok && Reliable() ==> !FitsNow(old(spawned), old(flushed), Size(old(pending)))
      ensures !old(broken) && Smooth(total) && Size(pushed) <= total ==> ok
    {
      hide Accounted, InQueue, Size, Install, Reliable, WithinBudget;
      if |inflight| >= maxInflight {
        ok := JoinOldest();
        if !ok {
          return false;
        }
      }
      var batch := pending;
      var bytes := Size(batch);
      QueueFlush(inflight, pending);
      if !broken { AccountedFlush(digest, start, pushed, settled, inflight, pending, files, flushed); }
      if admission.Some? {
        var a := admission.value;
        var used := if landed(spawned) <= flushed then landed(spawned) else flushed;
        if !broken && Smooth(total) && Size(pushed) <= total {
          OpeningCheckCovers(a.space, total, a.pendingDestination, a.reserve, used, bytes);
        }
        if !WithinBudget(FreeAfter(a.space, used), bytes, a.pendingDestination, a.reserve) {
          pending := [];
          broken := true;
          return false;
        }
      }
      pending := [];
      inflight := inflight + [batch];
      spawned := spawned + 1;
      flushed := flushed + bytes;
      return true;
    }

    /** `push`: makes room, accepts the chunk, and starts a batch when enough has collected. */
    method Push(chunk: Verified, ghost total: nat) returns (ok: bool)
      requires Valid() && !broken
      modifies this
      ensures Valid() && biggest == Max(old(biggest), |chunk.bytes|)
      ensures ok ==> !broken && pushed == old(pushed) + [chunk]
      ensures ok ==> |pending| < CHUNK_WRITE_BATCH && (InQueue(inflight, pending) > maxQueued ==> pending == [])
      ensures Smooth(total) && Size(old(pushed)) + |chunk.bytes| <= total ==> ok
      ensures old(|pending|) + 1 < CHUNK_WRITE_BATCH && old(InQueue(inflight, pending)) + |chunk.bytes| <= maxQueued ==>
                ok && pending == old(pending) + [chunk] && inflight == old(inflight) && files == old(files)
    {
      hide Accounted, InQueue, Size, Install, Reliable, Smooth;
      ghost var before := pushed;
      ghost var fits := Smooth(total) && Size(before) + |chunk.bytes| <= total;
      assert Smooth(total) ==> Reliable() by { SmoothIsReliable(total); }
      biggest := Max(biggest, |chunk.bytes|);
      while InQueue(inflight, pending) + |chunk.bytes| > maxQueued
        invariant Valid() && !broken && pushed == before && biggest == Max(old(biggest), |chunk.bytes|)
        invariant old(InQueue(inflight, pending)) + |chunk.bytes| <= maxQueued ==>
                    pending == old(pending) && inflight == old(inflight) && files == old(files)
        decreases (if pending == [] then 0 else 2) + |inflight|
      {
        if pending != [] && |inflight| < maxInflight {
          ok := Flush(total);
          if !ok {
            return false;
          }
          continue;
        }
        if inflight == [] {
          break;
        }
        ok := JoinOldest();
        if !ok {
          return false;
        }
      }
      QueuePush(inflight, pending, chunk);
      AccountedPush(digest, start, pushed, settled, inflight, pending, files, flushed, chunk);
      pending := pending + [chunk];
      pushed := pushed + [chunk];
      if |pending| >= CHUNK_WRITE_BATCH || InQueue(inflight, pending) > maxQueued {
        ok := Flush(total);
        return ok;
      }
      return true;
    }

    lemma SmoothIsReliable(total: nat)
      ensures Smooth(total) ==> Reliable()
    {
    }

    /** `finish`: on success every chunk that was pushed has been installed, each once, in order. */
    method Finish(ghost total: nat) returns (ok: bool)
      requires Valid()
      modifies this
      ensures Valid() && inflight == []
      ensures ok && !old(broken) ==>
                && !broken && pending == [] && pushed == old(pushed)
                && settled == pushed && files == Install(digest, start, pushed)
      ensures !old(broken) && Smooth(total) && Size(old(pushed)) <= total ==> ok
    {
      hide Accounted, InQueue, Size, Install, Reliable, Smooth;
      SmoothIsReliable(total);
      var first := true;
      if pending != [] {
        first := Flush(total);
      }
      var drained := Drain();
      ok := first && drained;
      if ok && !broken { AccountedEnd(digest, start, pushed, settled, files, flushed); }
    }
  }
}
