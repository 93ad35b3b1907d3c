/** Filling a local chunk store from several sources at once: queues, batches in flight, one retry
    per source and chunk, disabling of sources, and reassignment. Sources may answer anything. */
module Swarm {
  import opened Core

  const CHUNKS_PER_BATCH: nat := 16
  const STREAMS_PER_SOURCE: nat := 2
  const MAX_PAYLOAD: nat := 16 * 1024 * 1024
  const MAX_CHUNKS: nat := 250_000

  datatype Batch = Batch(source: nat, hashes: seq<Hash>)

  /** How one in-flight batch ends. `missing` and `kept` name chunks of the batch: those the source
      said it lacks, and those that reached the store before the failure. */
  datatype Outcome =
    | Answered(missing: set<Hash>)
    | SourceFailed(kept: set<Hash>)
    | LocalFailed
    | Panicked

  /** The variables of the fill loop. */
  datatype Fill = Fill(
    queues: seq<seq<Hash>>,
    fetches: map<nat, Batch>,
    nextId: nat,
    inflight: seq<nat>,
    retried: seq<set<Hash>>,
    disabled: seq<bool>,
    available: seq<set<Hash>>,
    remaining: set<Hash>,
    chunks: nat,
    bytes: nat,
    localError: bool,
    sourceError: bool)

  // ---------------------------------------------------------------- history variables

  /** Where a chunk is: never assigned, queued at a source, asked of a source in some batch,
      between sources, stored and counted, or given up after an error. */
  datatype Place = Waiting | Queued(source: nat) | Asked(source: nat, id: nat) | Loose | Done | Abandoned

  /** What the proof follows beside the variables: each chunk's place, every request made, and the
      chunks counted so far, in order. */
  datatype Track = Track(place: map<Hash, Place>, requests: multiset<(nat, Hash)>, done: seq<Hash>)

  function Members(s: seq<Hash>): set<Hash> {
    set h | h in s
  }

  ghost predicate Shape(n: nat, f: Fill) {
    && |f.queues| == n && |f.inflight| == n && |f.retried| == n && |f.disabled| == n && |f.available| == n
    && (forall id :: id in f.fetches ==> id < f.nextId && f.fetches[id].source < n && f.fetches[id].hashes != [])
  }

  /** A chunk is in exactly the queue or batch its place says, once; `open` are the chunks of the
      batch being put together or handled. */
  ghost predicate Placed(queues: seq<seq<Hash>>, fetches: map<nat, Batch>, place: map<Hash, Place>, open: set<Hash>) {
    && (forall s :: 0 <= s < |queues| ==> Distinct(queues[s]))
    && (forall id :: id in fetches ==> Distinct(fetches[id].hashes))
    && (forall s, h :: 0 <= s < |queues| && h in queues[s] ==> h in place && place[h] == Queued(s))
    && (forall id, h :: id in fetches && h in fetches[id].hashes ==>
          h in place && place[h] == Asked(fetches[id].source, id) && h !in open)
    && (forall h :: h in open ==> h in place && place[h].Asked?)
    && (forall h :: h in place && place[h].Queued? ==> place[h].source < |queues| && h in queues[place[h].source])
    && (forall h :: h in place && place[h].Asked? && h !in open ==>
          place[h].id in fetches && h in fetches[place[h].id].hashes)
  }

  /** How often source `s` was asked for `h`, given where `h` is. A source that was asked for a
      chunk and no longer has it to deliver will not be asked again: it is disabled, or it said
      that it lacks the chunk. */
  ghost predicate AskedRight(retried: set<Hash>, available: set<Hash>, disabled: bool, place: Place, asked: nat, s: nat, h: Hash) {
    && asked <= 2
    && (h in retried ==> asked >= 1)
    && (if place.Queued? && place.source == s then asked == (if h in retried then 1 else 0) && h in available && !disabled
        else if place.Asked? && place.source == s then asked == (if h in retried then 2 else 1) && h in available
        else if place.Waiting? then asked == 0
        else place.Done? || place.Abandoned? || (asked >= 1 ==> disabled || h !in available))
  }

  ghost predicate AskedFairly(n: nat, retried: seq<set<Hash>>, available: seq<set<Hash>>, disabled: seq<bool>, t: Track)
    requires |retried| == |available| == |disabled| == n
  {
    && (forall s, h :: 0 <= s < n && h in t.place ==>
          AskedRight(retried[s], available[s], disabled[s], t.place[h], t.requests[(s, h)], s, h))
    && (forall s, h :: (s, h) in t.requests ==> s < n && h in t.place)
  }

  function Total(s: seq<Hash>, lens: map<Hash, nat>): nat {
    if s == [] then 0
    else Total(s[..|s| - 1], lens) + if s[|s| - 1] in lens then lens[s[|s| - 1]] else 0
  }

  /** The counters count each stored chunk once, and `remaining` errs on the safe side. */
  ghost predicate CountedOnce(lens: map<Hash, nat>, remaining: set<Hash>, chunks: nat, bytes: nat, t: Track) {
    && Distinct(t.done)
    && (forall h :: h in t.done <==> h in t.place && t.place[h] == Done)
    && chunks == |t.done|
    && bytes == Total(t.done, lens)
    && (forall h :: h in remaining ==> h in t.place && t.place[h] != Done)
    && (forall h :: h in t.place && t.place[h] == Waiting ==> h in remaining)
  }

  function Running(fetches: map<nat, Batch>, s: nat): set<nat> {
    set id | id in fetches && fetches[id].source == s
  }

  /** Streams are counted; a panicked task is never discounted, but then an error is on record. */
  ghost predicate Streams(fetches: map<nat, Batch>, inflight: seq<nat>, error: bool) {
    forall s :: 0 <= s < |inflight| ==>
      && |Running(fetches, s)| <= inflight[s] <= STREAMS_PER_SOURCE
      && (!error ==> |Running(fetches, s)| == inflight[s])
  }

  /** Nothing is given up without an error on record. */
  ghost predicate NothingLost(error: bool, place: map<Hash, Place>) {
    forall h :: h in place && place[h] == Abandoned ==> error
  }

  ghost predicate Inv(n: nat, lens: map<Hash, nat>, f: Fill, t: Track, open: set<Hash>) {
    && Shape(n, f)
    && Placed(f.queues, f.fetches, t.place, open)
    && AskedFairly(n, f.retried, f.available, f.disabled, t)
    && CountedOnce(lens, f.remaining, f.chunks, f.bytes, t)
    && NothingLost(f.localError || f.sourceError, t.place)
    && Streams(f.fetches, f.inflight, f.sourceError)
    && t.place.Keys == lens.Keys
  }

  /** The loop head: no batch half handled, no chunk between sources. */
  ghost predicate AtRest(n: nat, lens: map<Hash, nat>, f: Fill, t: Track) {
    && Inv(n, lens, f, t, {})
    && forall h :: h in t.place ==> t.place[h] != Loose
  }

  // ---------------------------------------------------------------- single moves

  ghost function Moved(t: Track, h: Hash, p: Place): Track {
    t.(place := t.place[h := p])
  }

  /** `h` leaves the open batch for no queue. */
  lemma LeaveOpen(queues: seq<seq<Hash>>, fetches: map<nat, Batch>, place: map<Hash, Place>, open: set<Hash>, h: Hash, p: Place)
    requires Placed(queues, fetches, place, open) && h in open && !p.Queued? && !p.Asked?
    ensures Placed(queues, fetches, place[h := p], open - {h})
  {
  }

  /** A loose chunk goes nowhere. */
  lemma LeaveLoose(queues: seq<seq<Hash>>, fetches: map<nat, Batch>, place: map<Hash, Place>, open: set<Hash>, h: Hash)
    requires Placed(queues, fetches, place, open) && h in place && place[h] == Loose
    ensures h !in open && Placed(queues, fetches, place[h := Abandoned], open)
  {
  }

  /** `h` joins the end of a queue. */
  lemma JoinQueue(queues: seq<seq<Hash>>, fetches: map<nat, Batch>, place: map<Hash, Place>, open: set<Hash>, h: Hash, s: nat)
    requires Placed(queues, fetches, place, open) && h in place && s < |queues|
    requires h in open || place[h] == Loose || place[h] == Waiting
    ensures Placed(queues[s := queues[s] + [h]], fetches, place[h := Queued(s)], open - {h})
  {
    var queues' := queues[s := queues[s] + [h]];
    assert h !in queues[s];
    assert queues'[s][|queues[s]|] == h;
  }

  /** The first chunk of a queue joins the open batch. */
  lemma LeaveQueue(queues: seq<seq<Hash>>, fetches: map<nat, Batch>, place: map<Hash, Place>, open: set<Hash>, s: nat, id: nat)
    requires Placed(queues, fetches, place, open) && s < |queues| && queues[s] != [] && id !in fetches
    ensures queues[s][0] in place && queues[s][0] !in open
    ensures Placed(queues[s := queues[s][1..]], fetches, place[queues[s][0] := Asked(s, id)], open + {queues[s][0]})
  {
    var h := queues[s][0];
    assert h in queues[s] && h !in queues[s][1..];
    assert forall k :: k in queues[s] ==> k == h || k in queues[s][1..];
  }

  /** A complete open batch goes in flight. */
  lemma CloseBatch(queues: seq<seq<Hash>>, fetches: map<nat, Batch>, place: map<Hash, Place>, open: set<Hash>, id: nat, b: Batch)
    requires Placed(queues, fetches, place, open) && id !in fetches && Distinct(b.hashes)
    requires forall h :: h in open <==> h in b.hashes
    requires forall h :: h in open ==> h in place && place[h] == Asked(b.source, id)
    ensures Placed(queues, fetches[id := b], place, {})
  {
  }

  /** A batch that came back is opened. */
  lemma OpenBatch(queues: seq<seq<Hash>>, fetches: map<nat, Batch>, place: map<Hash, Place>, id: nat)
    requires Placed(queues, fetches, place, {}) && id in fetches
    ensures Distinct(fetches[id].hashes)
    ensures Placed(queues, fetches - {id}, place, Members(fetches[id].hashes))
    ensures forall h :: h in fetches[id].hashes ==> h in place && place[h] == Asked(fetches[id].source, id)
  {
  }

  /** All chunks queued at `s` come loose. */
  ghost function Drained(place: map<Hash, Place>, s: nat): map<Hash, Place> {
    map h | h in place :: if place[h] == Queued(s) then Loose else place[h]
  }

  lemma DrainQueue(queues: seq<seq<Hash>>, fetches: map<nat, Batch>, place: map<Hash, Place>, open: set<Hash>, s: nat)
    requires Placed(queues, fetches, place, open) && s < |queues|
    ensures Placed(queues[s := []], fetches, Drained(place, s), open)
  {
  }

  // ---------------------------------------------------------------- steps of the loop

  /** The source's answer stored `h`: count it. */
  lemma FinishOne(n: nat, lens: map<Hash, nat>, f: Fill, t: Track, open: set<Hash>, h: Hash)
    requires Inv(n, lens, f, t, open) && h in open && h in lens
    ensures Inv(n, lens, f.(remaining := f.remaining - {h}, chunks := f.chunks + 1, bytes := f.bytes + lens[h]),
                t.(place := t.place[h := Done], done := t.done + [h]), open - {h})
  {
    hide Placed, Streams, CountedOnce;
    LeaveOpen(f.queues, f.fetches, t.place, open, h, Done);
    OpenIsAsked(n, lens, f, t, open, h);
    CountOne(lens, f, t, h);
  }

  lemma CountOne(lens: map<Hash, nat>, f: Fill, t: Track, h: Hash)
    requires CountedOnce(lens, f.remaining, f.chunks, f.bytes, t) && h in t.place && t.place[h].Asked? && h in lens
    ensures CountedOnce(lens, f.remaining - {h}, f.chunks + 1, f.bytes + lens[h], t.(place := t.place[h := Done], done := t.done + [h]))
  {
    var done := t.done + [h];
    assert done[..|t.done|] == t.done;
    assert done[|t.done|] == h;
  }

  lemma OpenIsAsked(n: nat, lens: map<Hash, nat>, f: Fill, t: Track, open: set<Hash>, h: Hash)
    requires Inv(n, lens, f, t, open) && h in open
    ensures h in t.place && t.place[h].Asked? && h in lens
  {
    hide Shape, AskedFairly, CountedOnce, NothingLost, Streams;
  }

  /** Only places other than `Done` and `Waiting` are involved. */
  lemma CountsUnmoved(lens: map<Hash, nat>, f: Fill, t: Track, h: Hash, p: Place, remaining: set<Hash>)
    requires CountedOnce(lens, f.remaining, f.chunks, f.bytes, t) && h in t.place
    requires t.place[h] != Done && p != Done && p != Waiting
    requires remaining == f.remaining || remaining == f.remaining - {h} || remaining == f.remaining + {h}
    ensures CountedOnce(lens, remaining, f.chunks, f.bytes, Moved(t, h, p))
  {
  }

  /** The source lacks `h`: it loses its availability and comes loose. */
  lemma DropOne(n: nat, lens: map<Hash, nat>, f: Fill, t: Track, open: set<Hash>, h: Hash, s: nat)
    requires Inv(n, lens, f, t, open) && h in open && s < n && h in t.place && t.place[h].Asked? && t.place[h].source == s
    ensures Inv(n, lens, f.(remaining := f.remaining - {h}, available := f.available[s := f.available[s] - {h}]), Moved(t, h, Loose), open - {h})
  {
    hide Placed, CountedOnce, Streams;
    LeaveOpen(f.queues, f.fetches, t.place, open, h, Loose);
    CountsUnmoved(lens, f, t, h, Loose, f.remaining - {h});
    var available, t' := f.available[s := f.available[s] - {h}], Moved(t, h, Loose);
    forall x, k | 0 <= x < n && k in t'.place
      ensures AskedRight(f.retried[x], available[x], f.disabled[x], t'.place[k], t'.requests[(x, k)], x, k)
    {
      assert AskedRight(f.retried[x], f.available[x], f.disabled[x], t.place[k], t.requests[(x, k)], x, k);
    }
  }

  /** A first failure of `h` at an enabled source: back to the same queue, once. */
  lemma RetryOne(n: nat, lens: map<Hash, nat>, f: Fill, t: Track, open: set<Hash>, h: Hash, s: nat)
    requires Inv(n, lens, f, t, open) && h in open && s < n && h in t.place && t.place[h].Asked? && t.place[h].source == s
    requires !f.disabled[s] && h !in f.retried[s]
    ensures Inv(n, lens, f.(remaining := f.remaining + {h}, retried := f.retried[s := f.retried[s] + {h}],
                            queues := f.queues[s := f.queues[s] + [h]]), Moved(t, h, Queued(s)), open - {h})
  {
    hide Placed, CountedOnce, Streams;
    JoinQueue(f.queues, f.fetches, t.place, open, h, s);
    CountsUnmoved(lens, f, t, h, Queued(s), f.remaining + {h});
    var retried, t' := f.retried[s := f.retried[s] + {h}], Moved(t, h, Queued(s));
    forall x, k | 0 <= x < n && k in t'.place
      ensures AskedRight(retried[x], f.available[x], f.disabled[x], t'.place[k], t'.requests[(x, k)], x, k)
    {
      assert AskedRight(f.retried[x], f.available[x], f.disabled[x], t.place[k], t.requests[(x, k)], x, k);
    }
  }

  /** A failure at a source that is out of use: `h` comes loose. */
  lemma LoosenOne(n: nat, lens: map<Hash, nat>, f: Fill, t: Track, open: set<Hash>, h: Hash, s: nat)
    requires Inv(n, lens, f, t, open) && h in open && s < n && h in t.place && t.place[h].Asked? && t.place[h].source == s
    requires f.disabled[s]
    ensures Inv(n, lens, f.(remaining := f.remaining + {h}), Moved(t, h, Loose), open - {h})
  {
    hide Placed, CountedOnce, Streams;
    LeaveOpen(f.queues, f.fetches, t.place, open, h, Loose);
    CountsUnmoved(lens, f, t, h, Loose, f.remaining + {h});
    var t' := Moved(t, h, Loose);
    forall x, k | 0 <= x < n && k in t'.place
      ensures AskedRight(f.retried[x], f.available[x], f.disabled[x], t'.place[k], t'.requests[(x, k)], x, k)
    {
      assert AskedRight(f.retried[x], f.available[x], f.disabled[x], t.place[k], t.requests[(x, k)], x, k);
    }
  }

  /** Taking a source out of use empties its queue. */
  lemma DisableSource(n: nat, lens: map<Hash, nat>, f: Fill, t: Track, open: set<Hash>, s: nat)
    requires Inv(n, lens, f, t, open) && s < n
    ensures Inv(n, lens, f.(queues := f.queues[s := []], disabled := f.disabled[s := true]), t.(place := Drained(t.place, s)), open)
  {
    hide Placed, Streams;
    DrainQueue(f.queues, f.fetches, t.place, open, s);
    var disabled, t' := f.disabled[s := true], t.(place := Drained(t.place, s));
    forall x, k | 0 <= x < n && k in t'.place
      ensures AskedRight(f.retried[x], f.available[x], disabled[x], t'.place[k], t'.requests[(x, k)], x, k)
    {
      assert AskedRight(f.retried[x], f.available[x], f.disabled[x], t.place[k], t.requests[(x, k)], x, k);
    }
    assert t'.place.Keys == t.place.Keys;
  }

  /** A loose or fresh chunk goes to an enabled source that has it. */
  lemma EnqueueOne(n: nat, lens: map<Hash, nat>, f: Fill, t: Track, open: set<Hash>, h: Hash, s: nat)
    requires Inv(n, lens, f, t, open) && s < n && h in t.place && (t.place[h] == Loose || t.place[h] == Waiting)
    requires !f.disabled[s] && h in f.available[s]
    ensures Inv(n, lens, f.(queues := f.queues[s := f.queues[s] + [h]]), Moved(t, h, Queued(s)), open - {h})
  {
    hide Placed, CountedOnce, Streams;
    JoinQueue(f.queues, f.fetches, t.place, open, h, s);
    CountsUnmoved(lens, f, t, h, Queued(s), f.remaining);
    var t' := Moved(t, h, Queued(s));
    forall x, k | 0 <= x < n && k in t'.place
      ensures AskedRight(f.retried[x], f.available[x], f.disabled[x], t'.place[k], t'.requests[(x, k)], x, k)
    {
      assert AskedRight(f.retried[x], f.available[x], f.disabled[x], t.place[k], t.requests[(x, k)], x, k);
    }
  }

  /** The next chunk of a queue is asked of its source. */
  lemma TakeOne(n: nat, lens: map<Hash, nat>, f: Fill, t: Track, open: set<Hash>, s: nat, id: nat)
    requires Inv(n, lens, f, t, open) && s < n && f.queues[s] != [] && id !in f.fetches
    ensures var h := f.queues[s][0];
            && h in t.place && t.requests[(s, h)] <= 1
            && Inv(n, lens, f.(queues := f.queues[s := f.queues[s][1..]]),
                   t.(place := t.place[h := Asked(s, id)], requests := t.requests + multiset{(s, h)}), open + {h})
            && h !in open && h in lens && !f.disabled[s]
  {
    hide CountedOnce, Streams, Placed;
    var h := f.queues[s][0];
    HeadIsQueued(f.queues, f.fetches, t.place, open, s);
    LeaveQueue(f.queues, f.fetches, t.place, open, s, id);
    CountsUnmoved(lens, f, t, h, Asked(s, id), f.remaining);
    var t' := t.(place := t.place[h := Asked(s, id)], requests := t.requests + multiset{(s, h)});
    CountsIgnoreRequests(lens, f, Moved(t, h, Asked(s, id)), t'.requests);
    assert AskedRight(f.retried[s], f.available[s], f.disabled[s], t.place[h], t.requests[(s, h)], s, h);
    forall x, k | 0 <= x < n && k in t'.place
      ensures AskedRight(f.retried[x], f.available[x], f.disabled[x], t'.place[k], t'.requests[(x, k)], x, k)
    {
      assert AskedRight(f.retried[x], f.available[x], f.disabled[x], t.place[k], t.requests[(x, k)], x, k);
    }
  }

  lemma HeadIsQueued(queues: seq<seq<Hash>>, fetches: map<nat, Batch>, place: map<Hash, Place>, open: set<Hash>, s: nat)
    requires Placed(queues, fetches, place, open) && s < |queues| && queues[s] != []
    ensures queues[s][0] in place && place[queues[s][0]] == Queued(s)
  {
    assert queues[s][0] in queues[s];
  }

  lemma CountsIgnoreRequests(lens: map<Hash, nat>, f: Fill, t: Track, requests: multiset<(nat, Hash)>)
    requires CountedOnce(lens, f.remaining, f.chunks, f.bytes, t)
    ensures CountedOnce(lens, f.remaining, f.chunks, f.bytes, t.(requests := requests))
  {
  }

  /** After an error, what is open or loose is given up. */
  lemma GiveUpOne(n: nat, lens: map<Hash, nat>, f: Fill, t: Track, open: set<Hash>, h: Hash)
    requires Inv(n, lens, f, t, open) && (f.localError || f.sourceError) && h in t.place && (h in open || t.place[h] == Loose)
    ensures Inv(n, lens, f, Moved(t, h, Abandoned), open - {h})
  {
    hide CountedOnce, Streams, Placed;
    if t.place[h] == Loose {
      LeaveLoose(f.queues, f.fetches, t.place, open, h);
      assert open - {h} == open;
    } else {
      LeaveOpen(f.queues, f.fetches, t.place, open, h, Abandoned);
      OpenIsAsked(n, lens, f, t, open, h);
    }
    CountsUnmoved(lens, f, t, h, Abandoned, f.remaining);
    var t' := Moved(t, h, Abandoned);
    forall x, k | 0 <= x < n && k in t'.place
      ensures AskedRight(f.retried[x], f.available[x], f.disabled[x], t'.place[k], t'.requests[(x, k)], x, k)
    {
      assert AskedRight(f.retried[x], f.available[x], f.disabled[x], t.place[k], t.requests[(x, k)], x, k);
    }
  }

  /** A complete batch goes in flight. */
  lemma LaunchBatch(n: nat, lens: map<Hash, nat>, f: Fill, t: Track, open: set<Hash>, b: Batch)
    requires Inv(n, lens, f, t, open) && b.source < n && f.nextId !in f.fetches
    requires b.hashes != [] && Distinct(b.hashes) && (forall h :: h in open <==> h in b.hashes)
    requires forall h :: h in open ==> h in t.place && t.place[h] == Asked(b.source, f.nextId)
    requires f.inflight[b.source] < STREAMS_PER_SOURCE
    ensures Inv(n, lens, f.(fetches := f.fetches[f.nextId := b], nextId := f.nextId + 1,
                            inflight := f.inflight[b.source := f.inflight[b.source] + 1]), t, {})
  {
    hide Placed, CountedOnce, AskedFairly, Streams;
    CloseBatch(f.queues, f.fetches, t.place, open, f.nextId, b);
    StreamStarts(f.fetches, f.inflight, f.sourceError, f.nextId, b);
  }

  lemma RunningOneMore(fetches: map<nat, Batch>, id: nat, b: Batch, s: nat)
    requires id !in fetches
    ensures |Running(fetches[id := b], s)| == |Running(fetches, s)| + if s == b.source then 1 else 0
  {
    assert Running(fetches[id := b], s) == Running(fetches, s) + if s == b.source then {id} else {};
  }

  lemma RunningOneLess(fetches: map<nat, Batch>, id: nat, s: nat)
    requires id in fetches
    ensures |Running(fetches, s)| == |Running(fetches - {id}, s)| + if s == fetches[id].source then 1 else 0
  {
    assert Running(fetches, s) == Running(fetches - {id}, s) + if s == fetches[id].source then {id} else {};
  }

  lemma StreamStarts(fetches: map<nat, Batch>, inflight: seq<nat>, error: bool, id: nat, b: Batch)
    requires Streams(fetches, inflight, error) && id !in fetches && b.source < |inflight| && inflight[b.source] < STREAMS_PER_SOURCE
    ensures Streams(fetches[id := b], inflight[b.source := inflight[b.source] + 1], error)
  {
    hide Running;
    forall s: nat { RunningOneMore(fetches, id, b, s); }
  }

  lemma StreamEnds(fetches: map<nat, Batch>, inflight: seq<nat>, error: bool, id: nat, panicked: bool)
    requires Streams(fetches, inflight, error) && id in fetches && fetches[id].source < |inflight| && (panicked ==> error)
    ensures inflight[fetches[id].source] >= 1
    ensures Streams(fetches - {id}, if panicked then inflight else inflight[fetches[id].source := inflight[fetches[id].source] - 1], error)
    ensures |fetches - {id}| < |fetches|
  {
    hide Running;
    forall s: nat { RunningOneLess(fetches, id, s); }
    assert fetches.Keys == (fetches - {id}).Keys + {id};
  }

  /** A batch comes back, panicked or not. */
  lemma JoinBatch(n: nat, lens: map<Hash, nat>, f: Fill, t: Track, id: nat, panicked: bool)
    requires Inv(n, lens, f, t, {}) && id in f.fetches
    requires panicked ==> f.sourceError
    ensures var b := f.fetches[id];
            && b.source < n && f.inflight[b.source] >= 1 && Distinct(b.hashes)
            && Inv(n, lens, f.(fetches := f.fetches - {id},
                               inflight := if panicked then f.inflight else f.inflight[b.source := f.inflight[b.source] - 1]),
                   t, Members(b.hashes))
            && (forall h :: h in b.hashes ==> h in t.place && t.place[h] == Asked(b.source, id))
            && |f.fetches - {id}| < |f.fetches|
  {
    hide CountedOnce, AskedFairly, Streams, Placed;
    OpenBatch(f.queues, f.fetches, t.place, id);
    StreamEnds(f.fetches, f.inflight, f.sourceError, id, panicked);
  }

  /** Recording an error changes nothing else. */
  lemma RecordError(n: nat, lens: map<Hash, nat>, f: Fill, t: Track, open: set<Hash>)
    requires Inv(n, lens, f, t, open)
    ensures Inv(n, lens, f.(localError := true), t, open) && Inv(n, lens, f.(sourceError := true), t, open)
  {
    hide CountedOnce, AskedFairly, Placed;
  }

  /** After an error everything open or loose is given up. */
  lemma GiveUpAll(n: nat, lens: map<Hash, nat>, f: Fill, t: Track, open: set<Hash>) returns (t': Track)
    requires Inv(n, lens, f, t, open) && (f.localError || f.sourceError)
    ensures AtRest(n, lens, f, t') && t'.requests == t.requests && t'.done == t.done
    ensures forall h :: h in t'.place && t'.place[h] == Waiting ==> h in t.place && t.place[h] == Waiting
  {
    hide Inv;
    t' := t;
    var rest := open;
    OpenPlaced(n, lens, f, t', rest);
    while rest != {}
      invariant Inv(n, lens, f, t', rest) && t'.requests == t.requests && t'.done == t.done && t'.place.Keys == t.place.Keys
      invariant forall h :: h in rest ==> h in t'.place
      invariant forall h :: h in t'.place && t'.place[h] == Waiting ==> h in t.place && t.place[h] == Waiting
      decreases rest
    {
      var h :| h in rest;
      GiveUpOne(n, lens, f, t', rest, h);
      t', rest := Moved(t', h, Abandoned), rest - {h};
    }
    var loose := set h | h in t'.place && t'.place[h] == Loose;
    while loose != {}
      invariant Inv(n, lens, f, t', {}) && t'.requests == t.requests && t'.done == t.done
      invariant loose == set h | h in t'.place && t'.place[h] == Loose
      invariant forall h :: h in t'.place && t'.place[h] == Waiting ==> h in t.place && t.place[h] == Waiting
      decreases loose
    {
      var h :| h in loose;
      GiveUpOne(n, lens, f, t', {}, h);
      assert {} - {h} == {};
      t', loose := Moved(t', h, Abandoned), loose - {h};
    }
    assert forall h :: h in t'.place && t'.place[h] == Loose ==> h in loose;
  }

  lemma OpenPlaced(n: nat, lens: map<Hash, nat>, f: Fill, t: Track, open: set<Hash>)
    requires Inv(n, lens, f, t, open)
    ensures forall h :: h in open ==> h in t.place
  {
    hide CountedOnce, AskedFairly, Streams, Shape, NothingLost;
  }

  // ---------------------------------------------------------------- scheduling

  predicate Offers(available: seq<set<Hash>>, eligible: seq<bool>, h: Hash, s: nat)
    requires |available| == |eligible|
  {
    s < |available| && eligible[s] && h in available[s]
  }

  /** The least loaded eligible source that has `h`, or none. */
  method LeastLoaded(h: Hash, available: seq<set<Hash>>, eligible: seq<bool>, load: seq<nat>) returns (best: Option<nat>)
    requires |available| == |eligible| == |load|
    ensures best.Some? ==> Offers(available, eligible, h, best.value)
                           && forall r: nat :: Offers(available, eligible, h, r) ==> load[best.value] <= load[r]
    ensures best.None? ==> forall r: nat :: !Offers(available, eligible, h, r)
  {
    best := None;
    for s := 0 to |available|
      invariant best.Some? ==> Offers(available, eligible, h, best.value)
                               && forall r: nat :: r < s && Offers(available, eligible, h, r) ==> load[best.value] <= load[r]
      invariant best.None? ==> forall r: nat :: r < s ==> !Offers(available, eligible, h, r)
    {
      if eligible[s] && h in available[s] && (best.None? || load[s] < load[best.value]) {
        best := Some(s);
      }
    }
  }

  /** What a schedule owes its caller: sources that are eligible and have the chunk, each chunk at
      most once, and no chunk passed over that some eligible source has. */
  ghost predicate Scheduled(hashes: seq<Hash>, available: seq<set<Hash>>, eligible: seq<bool>, plan: seq<(Hash, nat)>)
    requires |available| == |eligible|
  {
    && |plan| <= |hashes|
    && (forall i :: 0 <= i < |plan| ==> plan[i].0 in hashes && Offers(available, eligible, plan[i].0, plan[i].1))
    && (Distinct(hashes) ==> forall i, j :: 0 <= i < j < |plan| ==> plan[i].0 != plan[j].0)
    && (forall h, s: nat :: h in hashes && Offers(available, eligible, h, s) ==> exists i :: 0 <= i < |plan| && plan[i].0 == h)
  }

  lemma ScheduleNext(hashes: seq<Hash>, available: seq<set<Hash>>, eligible: seq<bool>, plan: seq<(Hash, nat)>, h: Hash, s: nat)
    requires |available| == |eligible| && Scheduled(hashes, available, eligible, plan) && Offers(available, eligible, h, s)
    ensures Scheduled(hashes + [h], available, eligible, plan + [(h, s)])
  {
    var plan', hashes' := plan + [(h, s)], hashes + [h];
    assert plan'[|plan|].0 == h && hashes'[|hashes|] == h;
    assert forall k :: 0 <= k < |plan| ==> plan'[k] == plan[k];
    if Distinct(hashes') {
      assert Distinct(hashes) by { forall i, j | 0 <= i < j < |hashes| ensures hashes[i] != hashes[j] { assert hashes'[i] != hashes'[j]; } }
      assert h !in hashes by { forall i | 0 <= i < |hashes| ensures hashes[i] != h { assert hashes'[i] != hashes'[|hashes|]; } }
    }
  }

  lemma ScheduleSkip(hashes: seq<Hash>, available: seq<set<Hash>>, eligible: seq<bool>, plan: seq<(Hash, nat)>, h: Hash)
    requires |available| == |eligible| && Scheduled(hashes, available, eligible, plan) && forall s: nat :: !Offers(available, eligible, h, s)
    ensures Scheduled(hashes + [h], available, eligible, plan)
  {
    var hashes' := hashes + [h];
    assert hashes'[|hashes|] == h;
    if Distinct(hashes') {
      assert Distinct(hashes) by { forall i, j | 0 <= i < j < |hashes| ensures hashes[i] != hashes[j] { assert hashes'[i] != hashes'[j]; } }
    }
  }

  /** How many eligible sources have the chunk. */
  function Providers(available: seq<set<Hash>>, eligible: seq<bool>, h: Hash): nat
    requires |available| == |eligible|
  {
    |set s: nat | s < |available| && Offers(available, eligible, h, s)|
  }

  /** Rarer chunks come first, and among equally rare ones the smaller digest. */
  predicate Before(available: seq<set<Hash>>, eligible: seq<bool>, a: Hash, b: Hash)
    requires |available| == |eligible|
  {
    var x, y := Providers(available, eligible, a), Providers(available, eligible, b);
    x < y || (x == y && a <= b)
  }

  ghost predicate InOrder(available: seq<set<Hash>>, eligible: seq<bool>, s: seq<Hash>)
    requires |available| == |eligible|
  {
    forall i, j :: 0 <= i < j < |s| ==> Before(available, eligible, s[i], s[j])
  }

  lemma BeforeIsOrder(available: seq<set<Hash>>, eligible: seq<bool>, a: Hash, b: Hash, c: Hash)
    requires |available| == |eligible|
    ensures Before(available, eligible, a, b) || Before(available, eligible, b, a)
    ensures Before(available, eligible, a, b) && Before(available, eligible, b, a) ==> a == b
    ensures Providers(available, eligible, a) < Providers(available, eligible, b) ==> Before(available, eligible, a, b)
    ensures Before(available, eligible, a, b) && Before(available, eligible, b, c) ==> Before(available, eligible, a, c)
  {
    hide Providers;
  }

  lemma InsertedInOrder(available: seq<set<Hash>>, eligible: seq<bool>, s: seq<Hash>, h: Hash, k: nat)
    requires |available| == |eligible| && InOrder(available, eligible, s) && k <= |s|
    requires k > 0 ==> Before(available, eligible, s[k - 1], h)
    requires k < |s| ==> Before(available, eligible, h, s[k])
    ensures InOrder(available, eligible, s[..k] + [h] + s[k..])
  {
    hide Before;
    var r := s[..k] + [h] + s[k..];
    forall i, j | 0 <= i < j < |r| ensures Before(available, eligible, r[i], r[j]) {
      if i < k && j == k && i < k - 1 {
        BeforeIsOrder(available, eligible, s[i], s[k - 1], h);
      } else if i == k && j > k + 1 {
        BeforeIsOrder(available, eligible, h, s[k], s[j - 1]);
      }
    }
  }

  /** Puts one chunk in its place. */
  method InsertInOrder(available: seq<set<Hash>>, eligible: seq<bool>, s: seq<Hash>, h: Hash) returns (r: seq<Hash>)
    requires |available| == |eligible| && InOrder(available, eligible, s)
    ensures InOrder(available, eligible, r) && multiset(r) == multiset(s) + multiset{h}
  {
    hide Before, InOrder;
    var k := |s|;
    while k > 0 && !Before(available, eligible, s[k - 1], h)
      invariant 0 <= k <= |s|
      invariant k < |s| ==> Before(available, eligible, h, s[k])
    {
      BeforeIsOrder(available, eligible, s[k - 1], h, h);
      k := k - 1;
    }
    r := s[..k] + [h] + s[k..];
    assert s == s[..k] + s[k..];
    InsertedInOrder(available, eligible, s, h, k);
  }

  /** The order in which `schedule_chunks` assigns. */
  method RarestFirst(available: seq<set<Hash>>, eligible: seq<bool>, hashes: seq<Hash>) returns (r: seq<Hash>)
    requires |available| == |eligible|
    ensures InOrder(available, eligible, r) && multiset(r) == multiset(hashes)
  {
    r := [];
    for i := 0 to |hashes|
      invariant InOrder(available, eligible, r) && multiset(r) == multiset(hashes[..i])
    {
      assert hashes[..i + 1] == hashes[..i] + [hashes[i]];
      r := InsertInOrder(available, eligible, r, hashes[i]);
    }
    assert hashes[..|hashes|] == hashes;
  }

  /** Reordering the request changes nothing that a schedule owes. */
  lemma ScheduledInAnyOrder(hashes: seq<Hash>, ordered: seq<Hash>, available: seq<set<Hash>>, eligible: seq<bool>, plan: seq<(Hash, nat)>)
    requires |available| == |eligible| && multiset(ordered) == multiset(hashes) && Scheduled(ordered, available, eligible, plan)
    ensures Scheduled(hashes, available, eligible, plan)
  {
    assert |ordered| == |multiset(ordered)| == |hashes|;
    forall h ensures h in hashes <==> h in ordered { assert h in multiset(hashes) <==> h in multiset(ordered); }
    if Distinct(hashes) {
      forall i, j | 0 <= i < j < |ordered| ensures ordered[i] != ordered[j] {
        if ordered[i] == ordered[j] {
          Twice(ordered, i, j);
          Once(hashes, ordered[i]);
        }
      }
    }
  }

  lemma Twice(s: seq<Hash>, i: nat, j: nat)
    requires i < j < |s| && s[i] == s[j]
    ensures multiset(s)[s[i]] >= 2
  {
    assert s == s[..i] + [s[i]] + s[i + 1..j] + [s[j]] + s[j + 1..];
  }

  lemma {:induction false} Once(s: seq<Hash>, h: Hash)
    requires Distinct(s)
    ensures multiset(s)[h] <= 1
  {
    if s != [] {
      var n := |s| - 1;
      Once(s[..n], h);
      assert s == s[..n] + [s[n]];
      if s[n] == h { assert h !in s[..n]; }
    }
  }

  lemma NothingScheduled(hashes: seq<Hash>, available: seq<set<Hash>>, eligible: seq<bool>)
    requires |available| == |eligible| && hashes == []
    ensures Scheduled(hashes, available, eligible, [])
  {
  }

  /** `schedule_chunks` under the limits the fill uses: no more than eight sources connect, so the
      limit on sources never binds, and the other two are the number of chunks. */
  method Schedule(hashes: seq<Hash>, available: seq<set<Hash>>, eligible: seq<bool>) returns (plan: seq<(Hash, nat)>)
    requires |available| == |eligible|
    ensures Scheduled(hashes, available, eligible, plan)
    ensures forall i, j :: 0 <= i < j < |plan| ==> Before(available, eligible, plan[i].0, plan[j].0)
  {
    hide Scheduled, Before, Offers;
    plan := [];
    var ordered := RarestFirst(available, eligible, hashes);
    var load: seq<nat> := seq(|available|, _ => 0);
    NothingScheduled(ordered[..0], available, eligible);
    for i := 0 to |ordered|
      invariant |load| == |available|
      invariant Scheduled(ordered[..i], available, eligible, plan)
      invariant forall a, b :: 0 <= a < b < |plan| ==> Before(available, eligible, plan[a].0, plan[b].0)
      invariant forall a :: 0 <= a < |plan| ==> plan[a].0 in ordered[..i]
    {
      var h := ordered[i];
      assert ordered[..i + 1] == ordered[..i] + [h];
      var best := LeastLoaded(h, available, eligible, load);
      match best {
        case Some(s) =>
          ScheduleNext(ordered[..i], available, eligible, plan, h, s);
          plan := plan + [(h, s)];
          load := load[s := load[s] + 1];
        case None =>
          ScheduleSkip(ordered[..i], available, eligible, plan, h);
      }
    }
    assert ordered[..|ordered|] == ordered;
    ScheduledInAnyOrder(hashes, ordered, available, eligible, plan);
  }

  ghost predicate Sized(n: nat, f: Fill) {
    |f.queues| == n && |f.inflight| == n && |f.retried| == n && |f.disabled| == n && |f.available| == n
  }

  lemma InvSized(n: nat, lens: map<Hash, nat>, f: Fill, t: Track, open: set<Hash>)
    requires Inv(n, lens, f, t, open)
    ensures Sized(n, f) && t.place.Keys == lens.Keys && f.nextId !in f.fetches
    ensures forall id :: id in f.fetches ==> f.fetches[id].source < n && f.fetches[id].hashes != []
    ensures forall h :: h in open ==> h in t.place && t.place[h].Asked?
  {
    hide CountedOnce, AskedFairly, Streams, NothingLost;
  }

  /** Chunks that were never assigned stay so. */
  ghost predicate Fresher(t: Track, t': Track) {
    && t'.place.Keys == t.place.Keys
    && forall h :: h in t.place && t'.place[h] == Waiting ==> t.place[h] == Waiting
  }

  /** The sources stand as before, and so do the errors. */
  predicate SameSources(f0: Fill, f: Fill) {
    f.available == f0.available && f.disabled == f0.disabled && f.localError == f0.localError && f.sourceError == f0.sourceError
  }

  /** Some chunk is offered by no source in use. */
  ghost predicate Stranded(lens: map<Hash, nat>, f: Fill) {
    exists h :: h in lens && forall s :: 0 <= s < |f.available| == |f.disabled| && !f.disabled[s] ==> h !in f.available[s]
  }

  /** Queues every planned chunk at its source. */
  method EnqueueAll(n: nat, lens: map<Hash, nat>, f0: Fill, ghost t0: Track, plan: seq<(Hash, nat)>) returns (f: Fill, ghost t: Track)
    requires Inv(n, lens, f0, t0, {}) && Sized(n, f0)
    requires forall i, j :: 0 <= i < j < |plan| ==> plan[i].0 != plan[j].0
    requires forall i :: 0 <= i < |plan| ==>
      && plan[i].0 in t0.place && (t0.place[plan[i].0] == Loose || t0.place[plan[i].0] == Waiting)
      && plan[i].1 < n && !f0.disabled[plan[i].1] && plan[i].0 in f0.available[plan[i].1]
    ensures Inv(n, lens, f, t, {}) && f == f0.(queues := f.queues) && Sized(n, f)
    ensures t.requests == t0.requests && t.done == t0.done && t.place.Keys == t0.place.Keys
    ensures forall h :: h in t.place && t.place[h] != t0.place[h] ==> t.place[h].Queued?
    ensures forall i :: 0 <= i < |plan| ==> t.place[plan[i].0].Queued?
  {
    hide Inv;
    f, t := f0, t0;
    for i := 0 to |plan|
      invariant Inv(n, lens, f, t, {}) && f == f0.(queues := f.queues) && Sized(n, f)
      invariant t.requests == t0.requests && t.done == t0.done && t.place.Keys == t0.place.Keys
      invariant forall h :: h in t.place && t.place[h] != t0.place[h] ==> t.place[h].Queued?
      invariant forall k :: 0 <= k < i ==> t.place[plan[k].0].Queued?
      invariant forall k :: i <= k < |plan| ==> t.place[plan[k].0] == t0.place[plan[k].0]
    {
      var (h, s) := plan[i];
      EnqueueOne(n, lens, f, t, {}, h, s);
      assert {} - {h} == {};
      f, t := f.(queues := f.queues[s := f.queues[s] + [h]]), Moved(t, h, Queued(s));
    }
  }

  /** `reassign_swarm_hashes`: all of the loose chunks find an enabled source that has them, or
      nothing is queued and some chunk has no such source. */
  method Reassign(n: nat, lens: map<Hash, nat>, f0: Fill, ghost t0: Track, hashes: seq<Hash>)
    returns (ok: bool, f: Fill, ghost t: Track)
    requires Inv(n, lens, f0, t0, {}) && Distinct(hashes)
    requires forall h :: h in t0.place && t0.place[h] == Loose <==> h in hashes
    ensures ok ==> AtRest(n, lens, f, t) && t.requests == t0.requests && t.done == t0.done && Fresher(t0, t) && f == f0.(queues := f.queues)
    ensures !ok ==> f == f0 && t == t0
    ensures !ok ==> exists h :: h in hashes && forall s :: 0 <= s < |f0.available| == |f0.disabled| && !f0.disabled[s] ==> h !in f0.available[s]
  {
    hide Inv, Scheduled, Distinct;
    InvSized(n, lens, f0, t0, {});
    f, t := f0, t0;
    var eligible := seq(n, i requires 0 <= i < n => !f0.disabled[i]);
    var plan := Schedule(hashes, f0.available, eligible);
    if |plan| != |hashes| {
      ScheduleBound(hashes, f0.available, eligible, plan);
      Unschedulable(hashes, f0.available, eligible, plan);
      return false, f, t;
    }
    PlanFits(hashes, f0.available, eligible, plan);
    f, t := EnqueueAll(n, lens, f0, t0, plan);
    forall h | h in t.place ensures t.place[h] != Loose {
      if t0.place[h] == Loose {
        var i :| 0 <= i < |plan| && plan[i].0 == h;
      }
    }
    ok := true;
  }

  lemma ScheduleBound(hashes: seq<Hash>, available: seq<set<Hash>>, eligible: seq<bool>, plan: seq<(Hash, nat)>)
    requires |available| == |eligible| && Scheduled(hashes, available, eligible, plan)
    ensures |plan| <= |hashes|
  {
  }

  /** A plan as long as the request covers it. */
  lemma PlanFits(hashes: seq<Hash>, available: seq<set<Hash>>, eligible: seq<bool>, plan: seq<(Hash, nat)>)
    requires |available| == |eligible| && Scheduled(hashes, available, eligible, plan) && |plan| == |hashes| && Distinct(hashes)
    ensures forall i, j :: 0 <= i < j < |plan| ==> plan[i].0 != plan[j].0
    ensures forall i :: 0 <= i < |plan| ==> plan[i].0 in hashes && Offers(available, eligible, plan[i].0, plan[i].1)
    ensures forall h :: h in hashes ==> exists i :: 0 <= i < |plan| && plan[i].0 == h
  {
    var planned := seq(|plan|, i requires 0 <= i < |plan| => plan[i].0);
    assert Distinct(planned);
    DistinctSize(planned, Members(planned));
    DistinctSize(hashes, Members(hashes));
    assert Members(planned) <= Members(hashes);
    SubsetSize(Members(planned), Members(hashes));
    forall h | h in hashes ensures exists i :: 0 <= i < |plan| && plan[i].0 == h {
      assert h in Members(planned);
      var i :| 0 <= i < |planned| && planned[i] == h;
    }
  }

  lemma Unschedulable(hashes: seq<Hash>, available: seq<set<Hash>>, eligible: seq<bool>, plan: seq<(Hash, nat)>)
    requires |available| == |eligible| && |plan| < |hashes| && Distinct(hashes) && Scheduled(hashes, available, eligible, plan)
    ensures exists h :: h in hashes && forall s :: 0 <= s < |available| && eligible[s] ==> h !in available[s]
  {
    var planned := set i | 0 <= i < |plan| :: plan[i].0;
    var wanted := Members(hashes);
    DistinctSize(hashes, wanted);
    SetSize(plan, planned);
    assert !(wanted <= planned) by {
      if wanted <= planned { SubsetSize(wanted, planned); }
    }
    var h :| h in wanted && h !in planned;
    forall s | 0 <= s < |available| && eligible[s] ensures h !in available[s] {
      assert Offers(available, eligible, h, s) == (h in available[s]);
    }
  }

  lemma {:induction false} SetSize(plan: seq<(Hash, nat)>, all: set<Hash>)
    requires all == set i | 0 <= i < |plan| :: plan[i].0
    ensures |all| <= |plan|
  {
    if plan == [] {
    } else {
      var n := |plan| - 1;
      var fewer := set i | 0 <= i < n :: plan[..n][i].0;
      assert all == fewer + {plan[n].0};
      SetSize(plan[..n], fewer);
    }
  }

  // ---------------------------------------------------------------- handling a batch

  /** Reassigns the loose chunks, or records an error and gives them up. */
  method Rehome(n: nat, lens: map<Hash, nat>, f0: Fill, ghost t0: Track, hashes: seq<Hash>) returns (f: Fill, ghost t: Track)
    requires Inv(n, lens, f0, t0, {}) && Distinct(hashes)
    requires forall h :: h in t0.place && t0.place[h] == Loose <==> h in hashes
    ensures AtRest(n, lens, f, t) && t.requests == t0.requests && Fresher(t0, t) && f.fetches == f0.fetches
    ensures f.localError == f0.localError && f.available == f0.available && f.disabled == f0.disabled
    ensures f.sourceError ==> f0.sourceError || Stranded(lens, f)
    ensures f0.sourceError ==> f.sourceError
    ensures t.done == t0.done
  {
    hide Inv, Distinct;
    f, t := f0, t0;
    InvSized(n, lens, f, t, {});
    if !f.sourceError {
      var ok;
      ok, f, t := Reassign(n, lens, f0, t0, hashes);
      if ok {
        return;
      }
      RecordError(n, lens, f, t, {});
      f := f.(sourceError := true);
    }
    InvSized(n, lens, f, t, {});
    t := GiveUpAll(n, lens, f, t, {});
    InvSized(n, lens, f, t, {});
  }

  /** Handling the first of the remaining chunks of a batch. */
  lemma Peel(hashes: seq<Hash>, i: nat)
    requires Distinct(hashes) && i < |hashes|
    ensures hashes[i] in Members(hashes[i..])
    ensures Members(hashes[i..]) - {hashes[i]} == Members(hashes[i + 1..])
  {
    assert hashes[i..] == [hashes[i]] + hashes[i + 1..];
  }

  lemma DistinctAppend(s: seq<Hash>, h: Hash)
    requires Distinct(s) && h !in s
    ensures Distinct(s + [h]) && forall k :: k in s + [h] <==> k in s || k == h
  {
  }

  /** The source answered: what it had is stored and counted, what it lacks is listed. */
  method TakeAnswer(n: nat, lens: map<Hash, nat>, f0: Fill, ghost t0: Track, s: nat, ghost id: nat, hashes: seq<Hash>, missing: set<Hash>)
    returns (f: Fill, ghost t: Track, lost: seq<Hash>)
    requires Inv(n, lens, f0, t0, Members(hashes)) && Distinct(hashes) && s < n
    requires forall h :: h in hashes ==> h in t0.place && t0.place[h] == Asked(s, id)
    requires forall h :: h in t0.place ==> t0.place[h] != Loose
    ensures Inv(n, lens, f, t, {}) && t.requests == t0.requests && Fresher(t0, t) && f.fetches == f0.fetches
    ensures Distinct(lost) && forall h :: h in t.place && t.place[h] == Loose <==> h in lost
    ensures forall h :: h in lost <==> h in hashes && h in missing
    ensures forall h :: h in t.done <==> h in t0.done || (h in hashes && h !in missing)
    ensures f.localError == f0.localError && f.sourceError == f0.sourceError && f.disabled == f0.disabled
    ensures |f.available| == |f0.available| && forall r :: 0 <= r < |f.available| && r != s ==> f.available[r] == f0.available[r]
    ensures (forall h :: h in hashes ==> h !in missing) ==> f.available == f0.available
  {
    hide Inv, Distinct, Sorting, OthersSame;
    f, t, lost := f0, t0, [];
    EmptyIsDistinct();
    ghost var open := Members(hashes);
    SortingStarts(hashes, missing, t0.done);
    OthersStart(f0, s, hashes, missing);
    assert hashes[0..] == hashes;
    for i := 0 to |hashes|
      invariant Inv(n, lens, f, t, open) && t.requests == t0.requests && f.fetches == f0.fetches
      invariant open == Members(hashes[i..])
      invariant forall h :: h in open ==> h in t.place && t.place[h] == Asked(s, id)
      invariant Distinct(lost) && forall h :: h in t.place && t.place[h] == Loose <==> h in lost
      invariant Fresher(t0, t)
      invariant OthersSame(f0, f, s, hashes, missing)
      invariant Sorting(hashes, i, missing, lost, t0.done, t.done)
    {
      var h := hashes[i];
      InvSized(n, lens, f, t, open);
      Peel(hashes, i);
      SortingGoesOn(hashes, i, missing, lost, t0.done, t.done);
      OpenIsAsked(n, lens, f, t, open, h);
      OthersAfter(f0, f, s, hashes, missing, h, f.bytes + lens[h]);
      if h in missing {
        DropOne(n, lens, f, t, open, h, s);
        f, t := f.(remaining := f.remaining - {h}, available := f.available[s := f.available[s] - {h}]), Moved(t, h, Loose);
        DistinctAppend(lost, h);
        lost := lost + [h];
      } else {
        FinishOne(n, lens, f, t, open, h);
        f := f.(remaining := f.remaining - {h}, chunks := f.chunks + 1, bytes := f.bytes + lens[h]);
        t := t.(place := t.place[h := Done], done := t.done + [h]);
      }
      open := open - {h};
    }
    assert open == {};
    SortingEnds(hashes, missing, lost, t0.done, t.done);
    OthersEnd(f0, f, s, hashes, missing);
  }

  /** The source answered: what it had is stored, what it lacks moves on. */
  method HandleAnswer(n: nat, lens: map<Hash, nat>, f0: Fill, ghost t0: Track, s: nat, ghost id: nat, hashes: seq<Hash>, missing: set<Hash>)
    returns (f: Fill, ghost t: Track)
    requires Inv(n, lens, f0, t0, Members(hashes)) && Distinct(hashes) && s < n
    requires forall h :: h in hashes ==> h in t0.place && t0.place[h] == Asked(s, id)
    requires forall h :: h in t0.place ==> t0.place[h] != Loose
    ensures AtRest(n, lens, f, t) && t.requests == t0.requests && Fresher(t0, t) && f.fetches == f0.fetches
    ensures f.localError == f0.localError && f.disabled == f0.disabled
    ensures |f.available| == |f0.available| && forall r :: 0 <= r < |f.available| && r != s ==> f.available[r] == f0.available[r]
    ensures (forall h :: h in hashes ==> h !in missing) ==> f.available == f0.available
    ensures f.sourceError ==> f0.sourceError || Stranded(lens, f)
    ensures f0.sourceError ==> f.sourceError
    ensures forall h :: h in t.done <==> h in t0.done || (h in hashes && h !in missing)
  {
    hide Inv, Distinct, Stranded, AtRest;
    var lost;
    f, t, lost := TakeAnswer(n, lens, f0, t0, s, id, hashes, missing);
    f, t := Rehome(n, lens, f, t, lost);
  }

  /** A batch in the middle of being handled: of its first `i` chunks, those in `out` are listed and the
      others counted. */
  ghost predicate Sorting(hashes: seq<Hash>, i: nat, out: set<Hash>, listed: seq<Hash>, done0: seq<Hash>, done: seq<Hash>) {
    && i <= |hashes|
    && (forall h :: h in listed <==> h in hashes[..i] && h in out)
    && (forall h :: h in done <==> h in done0 || (h in hashes[..i] && h !in out))
  }

  lemma SortingStarts(hashes: seq<Hash>, out: set<Hash>, done: seq<Hash>)
    ensures Sorting(hashes, 0, out, [], done, done)
  {
  }

  lemma SortingGoesOn(hashes: seq<Hash>, i: nat, out: set<Hash>, listed: seq<Hash>, done0: seq<Hash>, done: seq<Hash>)
    requires Sorting(hashes, i, out, listed, done0, done) && i < |hashes|
    ensures hashes[i] in out ==> Sorting(hashes, i + 1, out, listed + [hashes[i]], done0, done)
    ensures hashes[i] !in out ==> Sorting(hashes, i + 1, out, listed, done0, done + [hashes[i]])
  {
    assert hashes[..i + 1] == hashes[..i] + [hashes[i]];
  }

  lemma SortingEnds(hashes: seq<Hash>, out: set<Hash>, listed: seq<Hash>, done0: seq<Hash>, done: seq<Hash>)
    requires Sorting(hashes, |hashes|, out, listed, done0, done)
    ensures forall h :: h in listed <==> h in hashes && h in out
    ensures forall h :: h in done <==> h in done0 || (h in hashes && h !in out)
  {
    assert hashes[..|hashes|] == hashes;
  }

  /** Nothing but what the source `s` offers has changed, and that only by what it said it lacks. */
  ghost predicate OthersSame(f0: Fill, f: Fill, s: nat, hashes: seq<Hash>, missing: set<Hash>) {
    && f.disabled == f0.disabled && f.sourceError == f0.sourceError && f.localError == f0.localError
    && |f.available| == |f0.available|
    && (forall r :: 0 <= r < |f.available| && r != s ==> f.available[r] == f0.available[r])
    && ((forall h :: h in hashes ==> h !in missing) ==> f.available == f0.available)
  }

  lemma OthersAfter(f0: Fill, f: Fill, s: nat, hashes: seq<Hash>, missing: set<Hash>, h: Hash, bytes: nat)
    requires OthersSame(f0, f, s, hashes, missing) && s < |f.available| && h in hashes
    ensures OthersSame(f0, f.(remaining := f.remaining - {h}, chunks := f.chunks + 1, bytes := bytes), s, hashes, missing)
    ensures h in missing ==>
              OthersSame(f0, f.(remaining := f.remaining - {h}, available := f.available[s := f.available[s] - {h}]), s, hashes, missing)
  {
  }

  lemma OthersStart(f: Fill, s: nat, hashes: seq<Hash>, missing: set<Hash>)
    ensures OthersSame(f, f, s, hashes, missing)
  {
  }

  lemma OthersEnd(f0: Fill, f: Fill, s: nat, hashes: seq<Hash>, missing: set<Hash>)
    requires OthersSame(f0, f, s, hashes, missing)
    ensures f.localError == f0.localError && f.sourceError == f0.sourceError && f.disabled == f0.disabled
    ensures |f.available| == |f0.available| && forall r :: 0 <= r < |f.available| && r != s ==> f.available[r] == f0.available[r]
    ensures (forall h :: h in hashes ==> h !in missing) ==> f.available == f0.available
  {
  }

  lemma EmptyIsDistinct()
    ensures Distinct<Hash>([])
  {
  }

  /** The first pass over a failed batch: count what reached the store, list the rest. */
  method CountKept(n: nat, lens: map<Hash, nat>, f0: Fill, ghost t0: Track, s: nat, ghost id: nat, hashes: seq<Hash>, kept: set<Hash>)
    returns (f: Fill, ghost t: Track, still: seq<Hash>)
    requires Inv(n, lens, f0, t0, Members(hashes)) && Distinct(hashes) && s < n
    requires forall h :: h in hashes ==> h in t0.place && t0.place[h] == Asked(s, id)
    requires forall h :: h in t0.place ==> t0.place[h] != Loose
    ensures Inv(n, lens, f, t, Members(still)) && Distinct(still) && t.requests == t0.requests && Fresher(t0, t)
    ensures forall h :: h in still ==> h in t.place && t.place[h] == Asked(s, id)
    ensures forall h :: h in t.place ==> t.place[h] != Loose
    ensures f.fetches == f0.fetches && SameSources(f0, f) && f.retried == f0.retried
    ensures forall h :: h in still <==> h in hashes && h !in kept
    ensures forall h :: h in t.done <==> h in t0.done || (h in hashes && h in kept)
  {
    hide Inv, Distinct, Sorting;
    ghost var out := Members(hashes) - kept;
    SortingStarts(hashes, out, t0.done);
    f, t, still := f0, t0, [];
    EmptyIsDistinct();
    ghost var open := Members(hashes);
    assert hashes[0..] == hashes;
    for i := 0 to |hashes|
      invariant Inv(n, lens, f, t, open) && t.requests == t0.requests && f.fetches == f0.fetches && SameSources(f0, f)
      invariant open == Members(hashes[i..]) + Members(still)
      invariant forall h :: h in open ==> h in t.place && t.place[h] == Asked(s, id)
      invariant Distinct(still) && forall k :: i <= k < |hashes| ==> hashes[k] !in still
      invariant forall h :: h in t.place ==> t.place[h] != Loose
      invariant Fresher(t0, t) && f.retried == f0.retried
      invariant Sorting(hashes, i, out, still, t0.done, t.done)
    {
      var h := hashes[i];
      InvSized(n, lens, f, t, open);
      Peel(hashes, i);
      Apart(hashes, i);
      SortingGoesOn(hashes, i, out, still, t0.done, t.done);
      if h in kept {
        FinishOne(n, lens, f, t, open, h);
        f := f.(remaining := f.remaining - {h}, chunks := f.chunks + 1, bytes := f.bytes + lens[h]);
        t := t.(place := t.place[h := Done], done := t.done + [h]);
        open := open - {h};
      } else {
        DistinctAppend(still, h);
        still := still + [h];
      }
    }
    assert open == Members(still);
    SortingEnds(hashes, out, still, t0.done, t.done);
  }

  lemma Apart(hashes: seq<Hash>, i: nat)
    requires Distinct(hashes) && i < |hashes|
    ensures forall k :: i < k < |hashes| ==> hashes[k] != hashes[i]
  {
  }

  /** The rest of a failed batch in the middle of being divided: of its first `i` chunks, those that the
      source has failed on before are to be moved, and the others are queued at it again. */
  ghost predicate Dividing(disabled: bool, before: set<Hash>, retried: set<Hash>, still: seq<Hash>, i: nat, moving: seq<Hash>,
                           place: map<Hash, Place>, s: nat) {
    && i <= |still| && Distinct(still)
    && (forall h :: h in moving <==> h in still[..i] && (disabled || h in before))
    && (forall h :: h in still[..i] && h !in moving ==> h in place && place[h] == Queued(s) && h in retried)
    && (forall k :: i <= k < |still| ==> (still[k] in retried <==> still[k] in before))
  }

  lemma DividingStarts(disabled: bool, before: set<Hash>, still: seq<Hash>, place: map<Hash, Place>, s: nat)
    requires Distinct(still)
    ensures Dividing(disabled, before, before, still, 0, [], place, s)
  {
  }

  lemma DividingGoesOn(disabled: bool, before: set<Hash>, retried: set<Hash>, still: seq<Hash>, i: nat, moving: seq<Hash>,
                       place: map<Hash, Place>, s: nat)
    requires Dividing(disabled, before, retried, still, i, moving, place, s) && i < |still| && still[i] in place
    ensures var h := still[i];
            if !disabled && h !in retried
            then Dividing(disabled, before, retried + {h}, still, i + 1, moving, place[h := Queued(s)], s)
            else Dividing(disabled, before, retried, still, i + 1, moving + [h], place, s)
  {
    assert still[..i + 1] == still[..i] + [still[i]];
    assert forall k :: i < k < |still| ==> still[k] != still[i];
    assert still[i] in retried <==> still[i] in before;
  }

  lemma DividingEnds(disabled: bool, before: set<Hash>, retried: set<Hash>, still: seq<Hash>, moving: seq<Hash>,
                     place: map<Hash, Place>, s: nat)
    requires Dividing(disabled, before, retried, still, |still|, moving, place, s)
    ensures forall h :: h in moving <==> h in still && (disabled || h in before)
    ensures forall h :: h in still && h !in moving ==> h in place && place[h] == Queued(s) && h in retried
  {
    assert still[..|still|] == still;
  }

  /** The second pass: a first failure goes back to the same queue, the rest is to be moved. */
  method Divide(n: nat, lens: map<Hash, nat>, f0: Fill, ghost t0: Track, s: nat, ghost id: nat, still: seq<Hash>)
    returns (f: Fill, ghost t: Track, moving: seq<Hash>)
    requires Inv(n, lens, f0, t0, Members(still)) && Distinct(still) && s < n
    requires forall h :: h in still ==> h in t0.place && t0.place[h] == Asked(s, id)
    requires forall h :: h in t0.place ==> t0.place[h] != Loose
    ensures Inv(n, lens, f, t, Members(moving)) && Distinct(moving) && t.requests == t0.requests && Fresher(t0, t)
    ensures forall h :: h in moving ==> h in t.place && t.place[h] == Asked(s, id)
    ensures forall h :: h in t.place ==> t.place[h] != Loose
    ensures f.fetches == f0.fetches && SameSources(f0, f) && t.done == t0.done
    ensures |f0.disabled| == |f0.retried| == |f.retried| == n
    ensures forall h :: h in moving <==> h in still && (f0.disabled[s] || h in f0.retried[s])
    ensures forall h :: h in still && h !in moving ==> h in t.place && t.place[h] == Queued(s) && h in f.retried[s]
  {
    hide Inv, Distinct, Dividing;
    f, t, moving := f0, t0, [];
    InvSized(n, lens, f, t, Members(still));
    EmptyIsDistinct();
    ghost var open := Members(still);
    DividingStarts(f0.disabled[s], f0.retried[s], still, t0.place, s);
    assert still[0..] == still;
    for i := 0 to |still|
      invariant Inv(n, lens, f, t, open) && t.requests == t0.requests && f.fetches == f0.fetches && SameSources(f0, f)
      invariant open == Members(still[i..]) + Members(moving)
      invariant forall h :: h in open ==> h in t.place && t.place[h] == Asked(s, id)
      invariant Distinct(moving) && forall k :: i <= k < |still| ==> still[k] !in moving
      invariant forall h :: h in t.place ==> t.place[h] != Loose
      invariant Fresher(t0, t) && t.done == t0.done && |f.retried| == n == |f.disabled|
      invariant Dividing(f0.disabled[s], f0.retried[s], f.retried[s], still, i, moving, t.place, s)
    {
      var h := still[i];
      InvSized(n, lens, f, t, open);
      Peel(still, i);
      Apart(still, i);
      DividingGoesOn(f0.disabled[s], f0.retried[s], f.retried[s], still, i, moving, t.place, s);
      if !f.disabled[s] && h !in f.retried[s] {
        RetryOne(n, lens, f, t, open, h, s);
        f := f.(remaining := f.remaining + {h}, retried := f.retried[s := f.retried[s] + {h}],
                queues := f.queues[s := f.queues[s] + [h]]);
        t := Moved(t, h, Queued(s));
        open := open - {h};
      } else {
        DistinctAppend(moving, h);
        moving := moving + [h];
      }
    }
    assert open == Members(moving);
    DividingEnds(f0.disabled[s], f0.retried[s], f.retried[s], still, moving, t.place, s);
  }

  /** Chunks of a batch from a source that is out of use come loose. */
  method LoosenAll(n: nat, lens: map<Hash, nat>, f0: Fill, ghost t0: Track, s: nat, ghost id: nat, moving: seq<Hash>)
    returns (f: Fill, ghost t: Track)
    requires Inv(n, lens, f0, t0, Members(moving)) && Distinct(moving) && s < n && Sized(n, f0) && f0.disabled[s]
    requires forall h :: h in moving ==> h in t0.place && t0.place[h] == Asked(s, id)
    ensures Inv(n, lens, f, t, {}) && t.requests == t0.requests && Fresher(t0, t)
    ensures forall h :: h in t.place && t.place[h] == Loose <==> (h in t0.place && t0.place[h] == Loose) || h in moving
    ensures f == f0.(remaining := f.remaining) && t.done == t0.done
  {
    hide Inv, Distinct;
    f, t := f0, t0;
    ghost var open := Members(moving);
    assert moving[0..] == moving;
    for i := 0 to |moving|
      invariant Inv(n, lens, f, t, open) && t.requests == t0.requests && f == f0.(remaining := f.remaining)
      invariant open == Members(moving[i..])
      invariant forall h :: h in open ==> h in t.place && t.place[h] == Asked(s, id)
      invariant forall h :: h in t.place && t.place[h] == Loose <==> (h in t0.place && t0.place[h] == Loose) || (h in moving && h !in open)
      invariant Fresher(t0, t) && t.done == t0.done
    {
      var h := moving[i];
      Peel(moving, i);
      LoosenOne(n, lens, f, t, open, h, s);
      f, t := f.(remaining := f.remaining + {h}), Moved(t, h, Loose);
      open := open - {h};
    }
    assert open == {};
  }

  /** The chunks queued at `s`, as the places tell it. */
  lemma QueueMembers(n: nat, lens: map<Hash, nat>, f: Fill, t: Track, open: set<Hash>, s: nat)
    requires Inv(n, lens, f, t, open) && s < n
    ensures Sized(n, f) && Distinct(f.queues[s])
    ensures forall h :: h in f.queues[s] <==> h in t.place && t.place[h] == Queued(s)
  {
    hide CountedOnce, AskedFairly, Streams, NothingLost;
  }

  lemma DistinctConcat(a: seq<Hash>, b: seq<Hash>)
    requires Distinct(a) && Distinct(b) && forall h :: h in a ==> h !in b
    ensures Distinct(a + b)
  {
    forall i, j | 0 <= i < j < |a + b| ensures (a + b)[i] != (a + b)[j] {
      if i < |a| <= j { assert a[i] in a && b[j - |a|] in b; }
    }
  }

  /** The source failed: one more try each at the same source, then the source is out of use and
      everything it still had to deliver moves on. */
  method HandleFailure(n: nat, lens: map<Hash, nat>, f0: Fill, ghost t0: Track, s: nat, ghost id: nat, hashes: seq<Hash>, kept: set<Hash>)
    returns (f: Fill, ghost t: Track)
    requires Inv(n, lens, f0, t0, Members(hashes)) && Distinct(hashes) && s < n
    requires forall h :: h in hashes ==> h in t0.place && t0.place[h] == Asked(s, id)
    requires forall h :: h in t0.place ==> t0.place[h] != Loose
    ensures AtRest(n, lens, f, t) && t.requests == t0.requests && Fresher(t0, t) && f.fetches == f0.fetches
    ensures f.localError == f0.localError && f.available == f0.available
    ensures |f.disabled| == |f0.disabled| && forall r :: 0 <= r < |f.disabled| && r != s ==> f.disabled[r] == f0.disabled[r]
    ensures f.sourceError ==> f0.sourceError || Stranded(lens, f)
    ensures f0.sourceError ==> f.sourceError
    ensures forall h :: h in t.done <==> h in t0.done || (h in hashes && h in kept)
    ensures |f0.disabled| == |f0.retried| == n
    ensures (forall h :: h in hashes && h !in kept ==> !f0.disabled[s] && h !in f0.retried[s]) ==> f.disabled == f0.disabled
    ensures (exists h :: h in hashes && h !in kept && (f0.disabled[s] || h in f0.retried[s])) ==> f.disabled[s]
  {
    hide Inv, Distinct, Stranded;
    var still, moving;
    InvSized(n, lens, f0, t0, Members(hashes));
    f, t, still := CountKept(n, lens, f0, t0, s, id, hashes, kept);
    f, t, moving := Divide(n, lens, f, t, s, id, still);
    assert moving != [] ==> moving[0] in moving;
    if moving == [] {
      assert Members(moving) == {};
      return;
    }
    f, t := Retire(n, lens, f, t, s, id, moving);
  }

  /** Takes the source out of use and moves on what it still had to deliver. */
  method Retire(n: nat, lens: map<Hash, nat>, f0: Fill, ghost t0: Track, s: nat, ghost id: nat, moving: seq<Hash>)
    returns (f: Fill, ghost t: Track)
    requires Inv(n, lens, f0, t0, Members(moving)) && Distinct(moving) && s < n
    requires forall h :: h in moving ==> h in t0.place && t0.place[h] == Asked(s, id)
    requires forall h :: h in t0.place ==> t0.place[h] != Loose
    ensures AtRest(n, lens, f, t) && t.requests == t0.requests && Fresher(t0, t) && f.fetches == f0.fetches
    ensures f.localError == f0.localError && f.available == f0.available
    ensures |f.disabled| == |f0.disabled| && forall r :: 0 <= r < |f.disabled| && r != s ==> f.disabled[r] == f0.disabled[r]
    ensures f.sourceError ==> f0.sourceError || Stranded(lens, f)
    ensures f0.sourceError ==> f.sourceError
    ensures t.done == t0.done && s < |f.disabled| && f.disabled[s]
  {
    hide Inv, Distinct, Stranded, AtRest;
    QueueMembers(n, lens, f0, t0, Members(moving), s);
    DisableSource(n, lens, f0, t0, Members(moving), s);
    DistinctConcat(moving, f0.queues[s]);
    var all := moving + f0.queues[s];
    f, t := f0.(queues := f0.queues[s := []], disabled := f0.disabled[s := true]), t0.(place := Drained(t0.place, s));
    f, t := LoosenAll(n, lens, f, t, s, id, moving);
    f, t := Rehome(n, lens, f, t, all);
  }

  // ---------------------------------------------------------------- launching

  /** The requests that may still be made: two for each source and chunk, less those made. */
  ghost function Budget(n: nat, keys: set<Hash>, requests: multiset<(nat, Hash)>): set<(nat, Hash, nat)> {
    set s: nat, h, i: nat | s < n && h in keys && i < 2 && requests[(s, h)] <= i :: (s, h, i)
  }

  lemma BudgetShrinks(n: nat, keys: set<Hash>, requests: multiset<(nat, Hash)>, s: nat, h: Hash)
    requires s < n && h in keys && requests[(s, h)] <= 1
    ensures Budget(n, keys, requests + multiset{(s, h)}) < Budget(n, keys, requests)
  {
    var after := Budget(n, keys, requests + multiset{(s, h)});
    var spent := (s, h, requests[(s, h)]);
    assert spent in Budget(n, keys, requests) && spent !in after;
  }

  /** `front` was taken off `whole`, and `rest` is left. */
  ghost predicate Fronted(whole: seq<Hash>, front: seq<Hash>, rest: seq<Hash>) {
    whole == front + rest
  }

  lemma FrontedStart(whole: seq<Hash>)
    ensures Fronted(whole, [], whole)
  {
  }

  lemma FrontedOneMore(whole: seq<Hash>, front: seq<Hash>, rest: seq<Hash>)
    requires Fronted(whole, front, rest) && rest != []
    ensures Fronted(whole, front + [rest[0]], rest[1..])
  {
  }

  lemma FrontedMeans(whole: seq<Hash>, front: seq<Hash>, rest: seq<Hash>)
    ensures Fronted(whole, front, rest) <==> whole == front + rest
  {
  }

  /** Takes up to a batch of chunks off the front of a queue. */
  method Collect(n: nat, lens: map<Hash, nat>, f0: Fill, ghost t0: Track, s: nat) returns (f: Fill, ghost t: Track, hashes: seq<Hash>)
    requires AtRest(n, lens, f0, t0) && s < n && Sized(n, f0) && f0.queues[s] != []
    ensures hashes != [] && |hashes| <= CHUNKS_PER_BATCH && Distinct(hashes)
    ensures Inv(n, lens, f, t, Members(hashes)) && Fresher(t0, t)
    ensures forall h :: h in hashes ==> h in t.place && t.place[h] == Asked(s, f0.nextId)
    ensures forall h :: h in t.place ==> t.place[h] != Loose
    ensures f == f0.(queues := f.queues) && Sized(n, f) && f.queues == f0.queues[s := f.queues[s]] && |f.queues[s]| < |f0.queues[s]|
    ensures Budget(n, lens.Keys, t.requests) < Budget(n, lens.Keys, t0.requests) && t.done == t0.done
    ensures f0.queues[s] == hashes + f.queues[s] && (|hashes| == CHUNKS_PER_BATCH || f.queues[s] == [])
  {
    hide Inv, Distinct, Budget, Fronted;
    f, t, hashes := f0, t0, [];
    InvSized(n, lens, f0, t0, {});
    FrontedStart(f0.queues[s]);
    assert Members(hashes) == {};
    EmptyIsDistinct();
    while |hashes| < CHUNKS_PER_BATCH && f.queues[s] != []
      invariant Inv(n, lens, f, t, Members(hashes)) && Distinct(hashes) && Fresher(t0, t) && |hashes| <= CHUNKS_PER_BATCH
      invariant forall h :: h in hashes ==> h in t.place && t.place[h] == Asked(s, f0.nextId)
      invariant forall h :: h in t.place ==> t.place[h] != Loose
      invariant f == f0.(queues := f.queues) && Sized(n, f) && f.queues == f0.queues[s := f.queues[s]]
      invariant hashes == [] ==> f == f0 && t == t0
      invariant t.done == t0.done && Fronted(f0.queues[s], hashes, f.queues[s])
      invariant hashes != [] ==> |f.queues[s]| < |f0.queues[s]| && Budget(n, lens.Keys, t.requests) < Budget(n, lens.Keys, t0.requests)
      decreases |f.queues[s]|
    {
      var h := f.queues[s][0];
      FrontedOneMore(f0.queues[s], hashes, f.queues[s]);
      TakeOne(n, lens, f, t, Members(hashes), s, f0.nextId);
      BudgetShrinks(n, lens.Keys, t.requests, s, h);
      f := f.(queues := f.queues[s := f.queues[s][1..]]);
      t := t.(place := t.place[h := Asked(s, f0.nextId)], requests := t.requests + multiset{(s, h)});
      DistinctAppend(hashes, h);
      assert Members(hashes + [h]) == Members(hashes) + {h};
      hashes := hashes + [h];
    }
    FrontedMeans(f0.queues[s], hashes, f.queues[s]);
  }

  /** Nothing moved, or requests were made. */
  ghost predicate Progress(n: nat, lens: map<Hash, nat>, f0: Fill, t0: Track, f: Fill, t: Track) {
    (f == f0 && t == t0) || Budget(n, lens.Keys, t.requests) < Budget(n, lens.Keys, t0.requests)
  }

  /** Fills the streams of one source. */
  method LaunchSource(n: nat, lens: map<Hash, nat>, f0: Fill, ghost t0: Track, s: nat) returns (f: Fill, ghost t: Track)
    requires AtRest(n, lens, f0, t0) && s < n && Sized(n, f0)
    ensures AtRest(n, lens, f, t) && Sized(n, f) && Fresher(t0, t) && Progress(n, lens, f0, t0, f, t)
    ensures f.queues[s] == [] || f.inflight[s] >= STREAMS_PER_SOURCE
    ensures forall r :: 0 <= r < n && r != s ==> f.queues[r] == f0.queues[r] && f.inflight[r] == f0.inflight[r]
    ensures SameSources(f0, f) && t.done == t0.done
  {
    hide Inv, Distinct, Budget;
    f, t := f0, t0;
    while !f.disabled[s] && f.inflight[s] < STREAMS_PER_SOURCE && f.queues[s] != []
      invariant AtRest(n, lens, f, t) && Sized(n, f) && Fresher(t0, t) && Progress(n, lens, f0, t0, f, t)
      invariant forall r :: 0 <= r < n && r != s ==> f.queues[r] == f0.queues[r] && f.inflight[r] == f0.inflight[r]
      invariant SameSources(f0, f) && t.done == t0.done
      decreases |f.queues[s]|
    {
      var hashes;
      ghost var before := t;
      f, t, hashes := Collect(n, lens, f, t, s);
      InvSized(n, lens, f, t, Members(hashes));
      LaunchBatch(n, lens, f, t, Members(hashes), Batch(s, hashes));
      f := f.(fetches := f.fetches[f.nextId := Batch(s, hashes)], nextId := f.nextId + 1,
              inflight := f.inflight[s := f.inflight[s] + 1]);
    }
    DisabledIsEmpty(n, lens, f, t, s);
  }

  /** A source that is out of use has an empty queue. */
  lemma DisabledIsEmpty(n: nat, lens: map<Hash, nat>, f: Fill, t: Track, s: nat)
    requires Inv(n, lens, f, t, {}) && s < n && Sized(n, f)
    ensures f.disabled[s] ==> f.queues[s] == []
  {
    hide CountedOnce, Streams;
    forall h | h in f.queues[s] ensures !f.disabled[s] {
      assert AskedRight(f.retried[s], f.available[s], f.disabled[s], t.place[h], t.requests[(s, h)], s, h);
    }
    assert f.queues[s] != [] ==> f.queues[s][0] in f.queues[s];
  }

  /** Fills the streams of every source. */
  method LaunchAll(n: nat, lens: map<Hash, nat>, f0: Fill, ghost t0: Track) returns (f: Fill, ghost t: Track)
    requires AtRest(n, lens, f0, t0) && Sized(n, f0)
    ensures AtRest(n, lens, f, t) && Sized(n, f) && Fresher(t0, t) && Progress(n, lens, f0, t0, f, t)
    ensures forall s :: 0 <= s < n ==> f.queues[s] == [] || f.inflight[s] >= STREAMS_PER_SOURCE
    ensures SameSources(f0, f) && t.done == t0.done
  {
    hide AtRest, Budget;
    f, t := f0, t0;
    for s := 0 to n
      invariant AtRest(n, lens, f, t) && Sized(n, f) && Fresher(t0, t) && Progress(n, lens, f0, t0, f, t)
      invariant forall r :: 0 <= r < s ==> f.queues[r] == [] || f.inflight[r] >= STREAMS_PER_SOURCE
      invariant SameSources(f0, f) && t.done == t0.done
    {
      f, t := LaunchSource(n, lens, f, t, s);
    }
  }

  // ---------------------------------------------------------------- the fill loop

  datatype Failure = TooMany | Repeated | NoSource | LocalStorage | SourceLost | Unresolved(chunks: nat)

  datatype Receipt = Receipt(chunks: nat, bytes: nat)

  /** The outcome brings the chunk into the store. */
  predicate Delivers(outcome: Outcome, h: Hash) {
    (outcome.Answered? && h !in outcome.missing) || (outcome.SourceFailed? && h in outcome.kept)
  }

  /** Some joined batch brought the chunk. */
  ghost predicate Delivered(joined: seq<Batch>, outcomes: (nat, Batch) -> Outcome, h: Hash) {
    exists j :: 0 <= j < |joined| && h in joined[j].hashes && Delivers(outcomes(j, joined[j]), h)
  }

  /** Some joined batch ended with a local failure. */
  ghost predicate LocallyFailed(joined: seq<Batch>, outcomes: (nat, Batch) -> Outcome) {
    exists j :: 0 <= j < |joined| && outcomes(j, joined[j]).LocalFailed?
  }

  lemma JoinedOneMore(joined: seq<Batch>, outcomes: (nat, Batch) -> Outcome, b: Batch, h: Hash)
    ensures Delivered(joined + [b], outcomes, h) <==>
            Delivered(joined, outcomes, h) || (h in b.hashes && Delivers(outcomes(|joined|, b), h))
    ensures LocallyFailed(joined + [b], outcomes) <==> LocallyFailed(joined, outcomes) || outcomes(|joined|, b).LocalFailed?
  {
    hide Delivers;
    var all := joined + [b];
    assert all[|joined|] == b && forall j :: 0 <= j < |joined| ==> all[j] == joined[j];
  }

  /** The source delivered everything it was asked for. */
  predicate Full(outcome: Outcome, b: Batch) {
    outcome.Answered? && forall h :: h in b.hashes ==> h !in outcome.missing
  }

  /** The source delivers every batch. */
  ghost predicate Steady(outcomes: (nat, Batch) -> Outcome, s: nat) {
    forall k: nat, b: Batch :: b.source == s ==> Full(outcomes(k, b), b)
  }

  /** Nothing local fails, and every chunk is offered by a source that delivers every batch; what the
      other sources do is left open. */
  ghost predicate Promising(lens: map<Hash, nat>, available: seq<set<Hash>>, outcomes: (nat, Batch) -> Outcome) {
    && (forall k, b :: !outcomes(k, b).LocalFailed? && !outcomes(k, b).Panicked?)
    && forall h :: h in lens ==> exists s :: 0 <= s < |available| && h in available[s] && Steady(outcomes, s)
  }

  /** The steady sources stay in use with all they offered, and no error is on record. */
  ghost predicate OnTrack(available: seq<set<Hash>>, outcomes: (nat, Batch) -> Outcome, f: Fill) {
    && |f.available| == |f.disabled| == |available| && !f.localError && !f.sourceError
    && forall s :: 0 <= s < |available| && Steady(outcomes, s) ==> !f.disabled[s] && f.available[s] == available[s]
  }

  lemma StaysOnTrack(lens: map<Hash, nat>, available: seq<set<Hash>>, outcomes: (nat, Batch) -> Outcome, k: nat, b: Batch, f0: Fill, f: Fill)
    requires Promising(lens, available, outcomes) && OnTrack(available, outcomes, f0)
    requires |f.available| == |f0.available| && |f.disabled| == |f0.disabled|
    requires forall r :: 0 <= r < |f.available| && r != b.source ==> f.available[r] == f0.available[r]
    requires forall r :: 0 <= r < |f.disabled| && r != b.source ==> f.disabled[r] == f0.disabled[r]
    requires Full(outcomes(k, b), b) ==> f.available == f0.available && f.disabled == f0.disabled
    requires !f.localError && (f.sourceError ==> Stranded(lens, f))
    ensures OnTrack(available, outcomes, f)
  {
    forall s | 0 <= s < |available| && Steady(outcomes, s) ensures !f.disabled[s] && f.available[s] == available[s] {
      if s == b.source { assert Full(outcomes(k, b), b); }
    }
    forall h | h in lens ensures exists s :: 0 <= s < |f.available| == |f.disabled| && !f.disabled[s] && h in f.available[s] {
      var s :| 0 <= s < |available| && h in available[s] && Steady(outcomes, s);
    }
  }

  /** A batch comes back and is dealt with. */
  method Join(n: nat, lens: map<Hash, nat>, f0: Fill, ghost t0: Track, id: nat, outcome: Outcome) returns (f: Fill, ghost t: Track)
    requires AtRest(n, lens, f0, t0) && id in f0.fetches
    ensures AtRest(n, lens, f, t) && t.requests == t0.requests && Fresher(t0, t)
    ensures |f.fetches| < |f0.fetches|
    ensures forall h :: h in t.done <==> h in t0.done || (h in f0.fetches[id].hashes && Delivers(outcome, h))
    ensures f.localError == (f0.localError || outcome.LocalFailed?)
    ensures f0.sourceError || outcome.Panicked? ==> f.sourceError
    ensures |f.available| == |f0.available| && |f.disabled| == |f0.disabled|
    ensures forall r :: 0 <= r < |f.available| && r != f0.fetches[id].source ==> f.available[r] == f0.available[r]
    ensures forall r :: 0 <= r < |f.disabled| && r != f0.fetches[id].source ==> f.disabled[r] == f0.disabled[r]
    ensures Full(outcome, f0.fetches[id]) ==> f.available == f0.available && f.disabled == f0.disabled
    ensures !outcome.LocalFailed? && !outcome.Panicked? ==>
              f.localError == f0.localError && (f.sourceError ==> f0.sourceError || Stranded(lens, f))
  {
    hide Inv, Distinct, Stranded;
    f, t := f0, t0;
    InvSized(n, lens, f, t, {});
    if outcome.Panicked? {
      RecordError(n, lens, f, t, {});
      f := f.(sourceError := true);
    }
    JoinBatch(n, lens, f, t, id, outcome.Panicked?);
    var batch := f.fetches[id];
    var s := batch.source;
    f := f.(fetches := f.fetches - {id}, inflight := if outcome.Panicked? then f.inflight else f.inflight[s := f.inflight[s] - 1]);
    match outcome {
      case Answered(missing) =>
        f, t := HandleAnswer(n, lens, f, t, s, id, batch.hashes, missing);
      case SourceFailed(kept) =>
        f, t := HandleFailure(n, lens, f, t, s, id, batch.hashes, kept);
      case LocalFailed =>
        RecordError(n, lens, f, t, Members(batch.hashes));
        f := f.(localError := true);
        t := GiveUpAll(n, lens, f, t, Members(batch.hashes));
        InvSized(n, lens, f, t, {});
      case Panicked =>
        t := GiveUpAll(n, lens, f, t, Members(batch.hashes));
        InvSized(n, lens, f, t, {});
    }
  }

  /** Chunks that stay unassigned are offered by no source that answered. */
  ghost predicate Unoffered(available: seq<set<Hash>>, t: Track) {
    forall h, s :: h in t.place && t.place[h] == Waiting && 0 <= s < |available| ==> h !in available[s]
  }

  /** At the head of the loop no chunk is forgotten: it is stored and counted, still unassigned,
      queued at a source in use, or in flight, unless an error is on record; and it is in no second
      queue or batch. */
  lemma NothingForgotten(n: nat, lens: map<Hash, nat>, f: Fill, t: Track, h: Hash)
    requires AtRest(n, lens, f, t) && h in lens
    ensures |f.queues| == |f.disabled| == n
    ensures || h in t.done || h in f.remaining || f.localError || f.sourceError
            || (exists s :: 0 <= s < n && h in f.queues[s] && !f.disabled[s])
            || (exists id :: id in f.fetches && h in f.fetches[id].hashes)
    ensures forall s, r :: 0 <= s < n && 0 <= r < n && h in f.queues[s] && h in f.queues[r] ==> s == r
    ensures forall s, id :: 0 <= s < n && h in f.queues[s] && id in f.fetches ==> h !in f.fetches[id].hashes
    ensures forall i, j :: i in f.fetches && j in f.fetches && h in f.fetches[i].hashes && h in f.fetches[j].hashes ==> i == j
  {
    hide Streams, AskedFairly, Placed;
    RestSized(n, lens, f, t);
    InOnePlace(f.queues, f.fetches, t.place, h);
    if h in t.place && t.place[h].Queued? {
      DisabledIsEmpty(n, lens, f, t, t.place[h].source);
    }
  }

  lemma InOnePlace(queues: seq<seq<Hash>>, fetches: map<nat, Batch>, place: map<Hash, Place>, h: Hash)
    requires Placed(queues, fetches, place, {}) && h in place
    ensures place[h].Queued? ==> place[h].source < |queues| && h in queues[place[h].source]
    ensures place[h].Asked? ==> place[h].id in fetches && h in fetches[place[h].id].hashes
    ensures forall s, r :: 0 <= s < |queues| && 0 <= r < |queues| && h in queues[s] && h in queues[r] ==> s == r
    ensures forall s, id :: 0 <= s < |queues| && h in queues[s] && id in fetches ==> h !in fetches[id].hashes
    ensures forall i, j :: i in fetches && j in fetches && h in fetches[i].hashes && h in fetches[j].hashes ==> i == j
  {
  }

  /** When nothing is left in flight and no error is on record, every chunk is stored and counted,
      or was never offered. */
  lemma AllSettled(n: nat, lens: map<Hash, nat>, f: Fill, t: Track)
    requires AtRest(n, lens, f, t) && Sized(n, f) && f.fetches == map[] && !f.localError && !f.sourceError
    requires forall s :: 0 <= s < n ==> f.queues[s] == [] || f.inflight[s] >= STREAMS_PER_SOURCE
    ensures forall s :: 0 <= s < n ==> f.queues[s] == []
    ensures t.place.Keys == lens.Keys
    ensures forall h :: h in lens ==> h in t.done || (t.place[h] == Waiting && h in f.remaining)
    ensures forall h :: h in t.done ==> h in lens
    ensures f.chunks == |t.done| && f.bytes == Total(t.done, lens) && Distinct(t.done)
  {
    hide AskedFairly;
    forall s | 0 <= s < n ensures f.queues[s] == [] {
      assert Running(f.fetches, s) == {};
    }
  }

  lemma {:induction false} TotalBound(s: seq<Hash>, lens: map<Hash, nat>)
    requires forall h :: h in lens ==> lens[h] <= MAX_PAYLOAD
    ensures Total(s, lens) <= |s| * MAX_PAYLOAD
  {
    if s == [] {
    } else {
      TotalBound(s[..|s| - 1], lens);
    }
  }

  /** The checked additions of the loop cannot overflow. */
  lemma CountersNeverOverflow(n: nat, lens: map<Hash, nat>, f: Fill, t: Track, open: set<Hash>)
    requires Inv(n, lens, f, t, open) && |lens| <= MAX_CHUNKS && forall h :: h in lens ==> lens[h] <= MAX_PAYLOAD
    ensures f.chunks <= |lens| && f.bytes <= U64_MAX
  {
    hide Shape, Placed, AskedFairly, NothingLost, Streams;
    TotalBound(t.done, lens);
    DistinctSize(t.done, Members(t.done));
    SubsetSize(Members(t.done), lens.Keys);
  }

  /** Before anything is scheduled. */
  function Fresh(n: nat, lens: map<Hash, nat>, available: seq<set<Hash>>): Fill {
    Fill(seq(n, _ => []), map[], 0, seq(n, _ => 0), seq(n, _ => {}), seq(n, _ => false), available, lens.Keys, 0, 0, false, false)
  }

  ghost function Untouched(lens: map<Hash, nat>): Track {
    Track(map h | h in lens :: Waiting, multiset{}, [])
  }

  lemma FreshIsInv(n: nat, lens: map<Hash, nat>, available: seq<set<Hash>>)
    requires |available| == n
    ensures Inv(n, lens, Fresh(n, lens, available), Untouched(lens), {}) && Sized(n, Fresh(n, lens, available))
  {
    var f, t := Fresh(n, lens, available), Untouched(lens);
    forall s | 0 <= s < n ensures |Running(f.fetches, s)| == 0 { assert Running(f.fetches, s) == {}; }
    assert Placed(f.queues, f.fetches, t.place, {});
    assert t.place.Keys == lens.Keys;
  }

  /** The first schedule: every chunk some source offers is queued at such a source. */
  method ScheduleFirst(n: nat, lens: map<Hash, nat>, hashes: seq<Hash>, available: seq<set<Hash>>) returns (f: Fill, ghost t: Track)
    requires |available| == n && Distinct(hashes) && forall h :: h in hashes <==> h in lens
    ensures AtRest(n, lens, f, t) && Sized(n, f) && Unoffered(available, t) && t.requests == multiset{}
    ensures f.available == available && !f.localError && !f.sourceError && forall s :: 0 <= s < n ==> !f.disabled[s]
    ensures t.done == []
  {
    hide Inv, Scheduled, Distinct;
    FreshIsInv(n, lens, available);
    f, t := Fresh(n, lens, available), Untouched(lens);
    var eligible := seq(n, _ => true);
    var plan := Schedule(hashes, available, eligible);
    PlanPlaces(hashes, available, eligible, plan);
    f, t := EnqueueAll(n, lens, f, t, plan);
    forall h, s | h in t.place && t.place[h] == Waiting && 0 <= s < n ensures h !in available[s] {
      assert Offers(available, eligible, h, s) == (h in available[s]);
    }
  }

  lemma PlanPlaces(hashes: seq<Hash>, available: seq<set<Hash>>, eligible: seq<bool>, plan: seq<(Hash, nat)>)
    requires |available| == |eligible| && Scheduled(hashes, available, eligible, plan) && Distinct(hashes)
    ensures forall i, j :: 0 <= i < j < |plan| ==> plan[i].0 != plan[j].0
    ensures forall i :: 0 <= i < |plan| ==> plan[i].0 in hashes && Offers(available, eligible, plan[i].0, plan[i].1)
    ensures forall h, s: nat :: h in hashes && Offers(available, eligible, h, s) ==> exists i :: 0 <= i < |plan| && plan[i].0 == h
  {
  }

  /** `swarm_fill_chunks_preconnected`, for every behaviour of the sources: `outcomes` is what the
      `k`-th joined batch brings, and the batch that joins is arbitrary. The loop terminates; no
      source is asked for a chunk more than twice; success means that every missing chunk was
      stored and counted exactly once; and a fill that ends unresolved, without an error, was
      asked for a chunk that no answering source offered. */
  method FillChunks(n: nat, lens: map<Hash, nat>, hashes: seq<Hash>, available: seq<set<Hash>>, outcomes: (nat, Batch) -> Outcome)
    returns (r: Result<Receipt, Failure>, ghost requests: multiset<(nat, Hash)>, ghost done: seq<Hash>, ghost joined: seq<Batch>)
    requires |available| == n && Distinct(hashes) && (forall h :: h in hashes <==> h in lens)
    requires |hashes| <= MAX_CHUNKS && forall h :: h in lens ==> lens[h] <= MAX_PAYLOAD
    ensures forall s, h :: requests[(s, h)] <= 2
    ensures r.Ok? ==> Distinct(done) && (forall h :: h in done <==> h in lens)
    ensures r.Ok? ==> r.value == Receipt(|hashes|, Total(done, lens)) && r.value.bytes <= U64_MAX
    ensures r.Err? ==> r.error.LocalStorage? || r.error.SourceLost? || r.error.Unresolved?
    ensures r.Err? && r.error.Unresolved? ==> exists h :: h in lens && forall s :: 0 <= s < n ==> h !in available[s]
    ensures Promising(lens, available, outcomes) ==> r.Ok?
    ensures forall h :: h in done <==> Delivered(joined, outcomes, h)
    ensures r == Err(LocalStorage) <==> LocallyFailed(joined, outcomes)
    ensures (exists h :: h in lens && forall k: nat, b: Batch :: !Delivers(outcomes(k, b), h)) ==> r.Err?
    ensures forall j :: 0 <= j < |joined| && Fatal(outcomes(j, joined[j])) ==> |joined| <= j + 1 + STREAMS_PER_SOURCE * n
  {
    hide AtRest, Inv, Budget, Distinct, OnTrack, Promising, Stranded, Steady, Delivers, Delivered, LocallyFailed, Fatal, Ending;
    ghost var promising := Promising(lens, available, outcomes);
    var f, step := *, 0;
    ghost var t;
    f, t := ScheduleFirst(n, lens, hashes, available);
    StartsOnTrack(available, outcomes, f);
    joined := [];
    NothingDelivered(outcomes);
    EndingStarts(n, outcomes, f);
    while true
      invariant Ending(n, joined, outcomes, f)
      invariant AtRest(n, lens, f, t) && Sized(n, f) && Unoffered(available, t)
      invariant promising ==> OnTrack(available, outcomes, f)
      invariant step == |joined| && f.localError == LocallyFailed(joined, outcomes)
      invariant forall h :: h in t.done <==> Delivered(joined, outcomes, h)
      decreases Budget(n, lens.Keys, t.requests), |f.fetches|
    {
      if !f.localError && !f.sourceError {
        ghost var f0 := f;
        f, t := LaunchAll(n, lens, f, t);
        SameTrack(available, outcomes, f0, f);
        NotEnding(n, joined, outcomes, f0, f);
      }
      if f.fetches == map[] {
        break;
      }
      var id :| id in f.fetches;
      ghost var f1, t1 := f, t;
      f, t := Join(n, lens, f, t, id, outcomes(step, f.fetches[id]));
      if promising {
        NothingFatal(lens, available, outcomes, step, f1.fetches[id], f1);
        StaysOnTrack(lens, available, outcomes, step, f1.fetches[id], f1, f);
      }
      RestSized(n, lens, f, t);
      forall h ensures Delivered(joined + [f1.fetches[id]], outcomes, h) <==> h in t.done {
        JoinedOneMore(joined, outcomes, f1.fetches[id], h);
      }
      JoinedOneMore(joined, outcomes, f1.fetches[id], 0);
      FetchesBounded(n, lens, f1, t1);
      EndingGoesOn(n, joined, outcomes, f1, f1.fetches[id], f);
      joined := joined + [f1.fetches[id]];
      step := step + 1;
    }
    requests, done := t.requests, t.done;
    EndingMeans(n, joined, outcomes, f);
    NeverDelivered(lens, joined, outcomes, done);
    if promising { NoErrors(lens, available, outcomes, f); }
    AtMostTwice(n, lens, f, t);
    if f.localError {
      return Err(LocalStorage), requests, done, joined;
    }
    if f.sourceError {
      return Err(SourceLost), requests, done, joined;
    }
    AllSettled(n, lens, f, t);
    if !((forall s :: 0 <= s < n ==> f.queues[s] == []) && f.remaining == {}) {
      LeftOver(n, lens, f, t);
      return Err(Unresolved(|f.remaining|)), requests, done, joined;
    }
    FilledSize(n, lens, f, t, hashes);
    r := Ok(Receipt(f.chunks, f.bytes));
  }

  /** After such an outcome nothing more is asked for. */
  predicate Fatal(outcome: Outcome) {
    outcome.LocalFailed? || outcome.Panicked?
  }

  /** Once a batch has ended fatally, only what was in flight then is still joined. */
  ghost predicate Ending(n: nat, joined: seq<Batch>, outcomes: (nat, Batch) -> Outcome, f: Fill) {
    forall j :: 0 <= j < |joined| && Fatal(outcomes(j, joined[j])) ==>
      (f.localError || f.sourceError) && |joined| + |f.fetches| <= j + 1 + STREAMS_PER_SOURCE * n
  }

  lemma EndingStarts(n: nat, outcomes: (nat, Batch) -> Outcome, f: Fill)
    ensures Ending(n, [], outcomes, f)
  {
  }

  lemma NotEnding(n: nat, joined: seq<Batch>, outcomes: (nat, Batch) -> Outcome, f0: Fill, f: Fill)
    requires Ending(n, joined, outcomes, f0) && !f0.localError && !f0.sourceError
    ensures Ending(n, joined, outcomes, f)
  {
  }

  lemma EndingGoesOn(n: nat, joined: seq<Batch>, outcomes: (nat, Batch) -> Outcome, f0: Fill, b: Batch, f: Fill)
    requires Ending(n, joined, outcomes, f0) && |f.fetches| < |f0.fetches| <= STREAMS_PER_SOURCE * n
    requires f0.localError || outcomes(|joined|, b).LocalFailed? ==> f.localError
    requires f0.sourceError || outcomes(|joined|, b).Panicked? ==> f.sourceError
    ensures Ending(n, joined + [b], outcomes, f)
  {
    var all := joined + [b];
    assert all[|joined|] == b && forall j :: 0 <= j < |joined| ==> all[j] == joined[j];
  }

  lemma EndingMeans(n: nat, joined: seq<Batch>, outcomes: (nat, Batch) -> Outcome, f: Fill)
    requires Ending(n, joined, outcomes, f)
    ensures forall j :: 0 <= j < |joined| && Fatal(outcomes(j, joined[j])) ==> |joined| <= j + 1 + STREAMS_PER_SOURCE * n
  {
  }

  /** The batches of the first `k` sources. */
  ghost function RunningUpTo(fetches: map<nat, Batch>, k: nat): set<nat> {
    set id | id in fetches && fetches[id].source < k
  }

  lemma {:induction false} RunningBound(fetches: map<nat, Batch>, inflight: seq<nat>, error: bool, k: nat)
    requires Streams(fetches, inflight, error) && k <= |inflight|
    ensures |RunningUpTo(fetches, k)| <= STREAMS_PER_SOURCE * k
  {
    if k == 0 {
      assert RunningUpTo(fetches, 0) == {};
    } else {
      RunningBound(fetches, inflight, error, k - 1);
      assert RunningUpTo(fetches, k) == RunningUpTo(fetches, k - 1) + Running(fetches, k - 1);
      assert |Running(fetches, k - 1)| <= inflight[k - 1] <= STREAMS_PER_SOURCE;
    }
  }

  /** No more batches are in flight than there are streams. */
  lemma FetchesBounded(n: nat, lens: map<Hash, nat>, f: Fill, t: Track)
    requires AtRest(n, lens, f, t)
    ensures |f.fetches| <= STREAMS_PER_SOURCE * n
  {
    hide Placed, AskedFairly, CountedOnce, NothingLost;
    RunningBound(f.fetches, f.inflight, f.sourceError, n);
    assert RunningUpTo(f.fetches, n) == f.fetches.Keys;
    assert |f.fetches.Keys| == |f.fetches|;
  }

  lemma NothingDelivered(outcomes: (nat, Batch) -> Outcome)
    ensures !LocallyFailed([], outcomes) && forall h :: !Delivered([], outcomes, h)
  {
  }

  /** A chunk that no outcome brings is not among those counted. */
  lemma NeverDelivered(lens: map<Hash, nat>, joined: seq<Batch>, outcomes: (nat, Batch) -> Outcome, done: seq<Hash>)
    requires forall h :: h in done <==> Delivered(joined, outcomes, h)
    ensures forall h :: (forall k: nat, b: Batch :: !Delivers(outcomes(k, b), h)) ==> h !in done
  {
    hide Delivers;
  }

  lemma StartsOnTrack(available: seq<set<Hash>>, outcomes: (nat, Batch) -> Outcome, f: Fill)
    requires f.available == available && |f.disabled| == |available| && !f.localError && !f.sourceError
    requires forall s :: 0 <= s < |available| ==> !f.disabled[s]
    ensures OnTrack(available, outcomes, f)
  {
  }

  lemma SameTrack(available: seq<set<Hash>>, outcomes: (nat, Batch) -> Outcome, f0: Fill, f: Fill)
    requires SameSources(f0, f)
    ensures OnTrack(available, outcomes, f0) ==> OnTrack(available, outcomes, f)
  {
  }

  lemma NothingFatal(lens: map<Hash, nat>, available: seq<set<Hash>>, outcomes: (nat, Batch) -> Outcome, k: nat, b: Batch, f: Fill)
    requires Promising(lens, available, outcomes) && OnTrack(available, outcomes, f)
    ensures !outcomes(k, b).LocalFailed? && !outcomes(k, b).Panicked? && !f.localError && !f.sourceError
  {
  }

  /** On track there is no error, and no chunk that nobody offers. */
  lemma NoErrors(lens: map<Hash, nat>, available: seq<set<Hash>>, outcomes: (nat, Batch) -> Outcome, f: Fill)
    requires Promising(lens, available, outcomes) && OnTrack(available, outcomes, f)
    ensures !f.localError && !f.sourceError
    ensures forall h :: h in lens ==> exists s :: 0 <= s < |available| && h in available[s]
  {
    forall h | h in lens ensures exists s :: 0 <= s < |available| && h in available[s] {
      var s :| 0 <= s < |available| && h in available[s] && Steady(outcomes, s);
    }
  }

  lemma AtMostTwice(n: nat, lens: map<Hash, nat>, f: Fill, t: Track)
    requires AtRest(n, lens, f, t)
    ensures forall s, h :: t.requests[(s, h)] <= 2
  {
    hide CountedOnce, Streams, NothingLost, Placed;
    forall s, h ensures t.requests[(s, h)] <= 2 {
      if (s, h) in t.requests {
        assert AskedRight(f.retried[s], f.available[s], f.disabled[s], t.place[h], t.requests[(s, h)], s, h);
      }
    }
  }

  /** What is left in `remaining` was never assigned. */
  lemma LeftOver(n: nat, lens: map<Hash, nat>, f: Fill, t: Track)
    requires AtRest(n, lens, f, t) && f.remaining != {}
    requires forall h :: h in lens ==> h in t.done || (t.place.Keys == lens.Keys && t.place[h] == Waiting)
    ensures exists h :: h in lens && h in t.place && t.place[h] == Waiting
  {
    hide Streams, NothingLost, Placed, AskedFairly;
    var h :| h in f.remaining;
    assert h in t.place && t.place[h] != Done;
  }

  lemma FilledSize(n: nat, lens: map<Hash, nat>, f: Fill, t: Track, hashes: seq<Hash>)
    requires AtRest(n, lens, f, t) && Distinct(hashes) && (forall h :: h in hashes <==> h in lens)
    requires |hashes| <= MAX_CHUNKS && forall h :: h in lens ==> lens[h] <= MAX_PAYLOAD
    requires (forall h :: h in t.done <==> h in lens) && Distinct(t.done) && f.chunks == |t.done|
    ensures f.chunks == |hashes| && f.bytes <= U64_MAX
  {
    hide Inv, Distinct;
    DistinctSize(hashes, Members(hashes));
    DistinctSize(t.done, Members(t.done));
    assert Members(hashes) == lens.Keys == Members(t.done);
    CountersNeverOverflow(n, lens, f, t, {});
  }

  lemma RestSized(n: nat, lens: map<Hash, nat>, f: Fill, t: Track)
    requires AtRest(n, lens, f, t)
    ensures Sized(n, f) && t.place.Keys == lens.Keys
  {
    hide CountedOnce, AskedFairly, Streams, NothingLost, Placed;
  }

  /** The checks in front of the loop: the request is bounded and free of repetitions, what the store
      already holds is left out, and some source must have answered. */
  method FillStore(lens: map<Hash, nat>, requested: seq<Hash>, stored: set<Hash>, available: seq<set<Hash>>, outcomes: (nat, Batch) -> Outcome)
    returns (r: Result<Receipt, Failure>, ghost requests: multiset<(nat, Hash)>, ghost done: seq<Hash>, ghost joined: seq<Batch>)
    requires forall h :: h in requested ==> h in lens && lens[h] <= MAX_PAYLOAD
    ensures r == Err(TooMany) <==> |requested| > MAX_CHUNKS
    ensures r == Err(Repeated) <==> |requested| <= MAX_CHUNKS && !Distinct(requested)
    ensures r == Err(NoSource) <==>
            |requested| <= MAX_CHUNKS && Distinct(requested) && available == [] && exists h :: h in requested && h !in stored
    ensures forall s, h :: requests[(s, h)] <= 2
    ensures r.Ok? ==>
              && Distinct(done) && (forall h :: h in done <==> h in requested && h !in stored)
              && r.value == Receipt(|done|, Total(done, lens))
    ensures r.Err? && r.error.Unresolved? ==>
              exists h :: h in requested && h !in stored && forall s :: 0 <= s < |available| ==> h !in available[s]
    ensures forall h :: h in done <==> Delivered(joined, outcomes, h)
    ensures r == Err(LocalStorage) <==> LocallyFailed(joined, outcomes)
    ensures (exists h :: h in requested && h !in stored && forall k: nat, b: Batch :: !Delivers(outcomes(k, b), h)) ==> r.Err?
    ensures |requested| <= MAX_CHUNKS && Distinct(requested) && Promising(Wanted(lens, requested, stored), available, outcomes) ==> r.Ok?
  {
    requests, done, joined := multiset{}, [], [];
    NothingDelivered(outcomes);
    if |requested| > MAX_CHUNKS {
      return Err(TooMany), requests, done, joined;
    }
    if exists i, j :: 0 <= i < j < |requested| && requested[i] == requested[j] {
      return Err(Repeated), requests, done, joined;
    }
    var missing := Absent(requested, stored);
    if missing == [] {
      return Ok(Receipt(0, 0)), requests, done, joined;
    }
    assert missing[0] in missing && missing[0] in Wanted(lens, requested, stored);
    if available == [] {
      return Err(NoSource), requests, done, joined;
    }
    var own := Wanted(lens, requested, stored);
    r, requests, done, joined := FillChunks(|available|, own, missing, available, outcomes);
    if r.Ok? {
      SameMembers(done, missing);
      SameTotal(done, own, lens);
    }
  }

  /** The chunks to be fetched, with their lengths. */
  function Wanted(lens: map<Hash, nat>, requested: seq<Hash>, stored: set<Hash>): map<Hash, nat> {
    map h | h in lens && h in requested && h !in stored :: lens[h]
  }

  /** What the store does not hold, in order. */
  method Absent(requested: seq<Hash>, stored: set<Hash>) returns (missing: seq<Hash>)
    ensures forall h :: h in missing <==> h in requested && h !in stored
    ensures |missing| <= |requested| && (Distinct(requested) ==> Distinct(missing))
  {
    missing := [];
    for i := 0 to |requested|
      invariant |missing| <= i
      invariant forall h :: h in missing <==> h in requested[..i] && h !in stored
      invariant Distinct(requested) ==> Distinct(missing)
    {
      if requested[i] !in stored {
        assert Distinct(requested) ==> requested[i] !in missing by { FirstSeen(requested, i); }
        missing := missing + [requested[i]];
      }
    }
    assert requested[..|requested|] == requested;
  }

  lemma FirstSeen(s: seq<Hash>, i: nat)
    requires i < |s|
    ensures Distinct(s) ==> s[i] !in s[..i]
  {
    if s[i] in s[..i] {
      var k :| 0 <= k < i && s[..i][k] == s[i];
      assert s[k] == s[i];
    }
  }

  lemma SameMembers(a: seq<Hash>, b: seq<Hash>)
    requires Distinct(a) && Distinct(b) && forall h :: h in a <==> h in b
    ensures |a| == |b|
  {
    DistinctSize(a, Members(a));
    DistinctSize(b, Members(a));
  }

  lemma {:induction false} SameTotal(s: seq<Hash>, a: map<Hash, nat>, b: map<Hash, nat>)
    requires forall h :: h in s ==> h in a && h in b && a[h] == b[h]
    ensures Total(s, a) == Total(s, b)
  {
    if s != [] {
      SameTotal(s[..|s| - 1], a, b);
    }
  }
}
