/** Manifests: how a file is cut into content-addressed chunks, when a manifest is accepted, and
    which chunks a receiver still needs. */
module Manifest {
  import opened Core

  type Bytes = seq<bv8>

  /** The digest of a byte string. */
  type Digest = Bytes -> Hash

  ghost predicate CollisionFree(digest: Digest) {
    forall a, b :: digest(a) == digest(b) ==> a == b
  }

  datatype Profile = Profile(minSize: nat, avgSize: nat, maxSize: nat) {
    predicate Valid() {
      && 64 <= minSize <= 1_048_576
      && 256 <= avgSize <= 4_194_304
      && 1_024 <= maxSize <= 16_777_216
      && minSize < avgSize < maxSize
      && minSize % 2 == 0 && avgSize % 2 == 0 && maxSize % 2 == 0
    }
  }

  datatype Chunk = Chunk(offset: nat, length: nat, hash: Hash)

  datatype FileManifest = FileManifest(size: nat, fileHash: Hash, profile: Profile, chunks: seq<Chunk>)

  // ---------------------------------------------------------------- valid manifests

  function Total(chunks: seq<Chunk>): nat {
    if chunks == [] then 0 else Total(chunks[..|chunks| - 1]) + chunks[|chunks| - 1].length
  }

  /** Every extent starts where the one before it ends. */
  ghost predicate Tiles(chunks: seq<Chunk>) {
    forall i :: 0 <= i < |chunks| ==> chunks[i].offset == Total(chunks[..i])
  }

  ghost predicate Sized(chunks: seq<Chunk>, maxSize: nat) {
    forall i :: 0 <= i < |chunks| ==> 0 < chunks[i].length <= maxSize
  }

  /** One digest, one length. */
  ghost predicate Consistent(chunks: seq<Chunk>) {
    forall i, j :: 0 <= i < |chunks| && 0 <= j < |chunks| && chunks[i].hash == chunks[j].hash ==>
      chunks[i].length == chunks[j].length
  }

  ghost predicate Valid(digest: Digest, m: FileManifest) {
    && m.profile.Valid()
    && Tiles(m.chunks) && Sized(m.chunks, m.profile.maxSize) && Consistent(m.chunks)
    && Total(m.chunks) == m.size
    && (m.size == 0 ==> m.fileHash == digest([]))
  }

  lemma {:induction false} TotalGrows(chunks: seq<Chunk>, k: nat)
    requires k <= |chunks|
    ensures Total(chunks[..k]) <= Total(chunks)
  {
    if k < |chunks| {
      TotalGrows(chunks[..|chunks| - 1], k);
      assert chunks[..|chunks| - 1][..k] == chunks[..k];
    } else {
      assert chunks[..k] == chunks;
    }
  }

  /** The part of `Valid` that concerns the extents. */
  ghost predicate Regular(chunks: seq<Chunk>, maxSize: nat) {
    Tiles(chunks) && Sized(chunks, maxSize) && Consistent(chunks)
  }

  lemma RegularPrefix(chunks: seq<Chunk>, maxSize: nat, k: nat)
    requires Regular(chunks, maxSize) && k <= |chunks|
    ensures Regular(chunks[..k], maxSize)
  {
    var part := chunks[..k];
    forall i | 0 <= i < k ensures part[i].offset == Total(part[..i]) {
      assert part[..i] == chunks[..i];
    }
  }

  /** What the loop of `validate` remembers of the chunks it has passed. */
  ghost predicate Remembers(lengths: map<Hash, nat>, chunks: seq<Chunk>) {
    && (forall i :: 0 <= i < |chunks| ==> chunks[i].hash in lengths && lengths[chunks[i].hash] == chunks[i].length)
    && (forall h :: h in lengths ==> exists i :: 0 <= i < |chunks| && chunks[i].hash == h)
  }

  lemma RegularOneMore(chunks: seq<Chunk>, maxSize: nat, k: nat, lengths: map<Hash, nat>)
    requires k < |chunks| && Regular(chunks[..k], maxSize) && Remembers(lengths, chunks[..k])
    ensures var c := chunks[k];
            Regular(chunks[..k + 1], maxSize) <==>
            && c.offset == Total(chunks[..k])
            && 0 < c.length <= maxSize
            && (c.hash in lengths ==> lengths[c.hash] == c.length)
    ensures Regular(chunks[..k + 1], maxSize) ==>
              Remembers(lengths[chunks[k].hash := chunks[k].length], chunks[..k + 1])
    ensures Total(chunks[..k + 1]) == Total(chunks[..k]) + chunks[k].length <= Total(chunks)
  {
    hide Tiles, Consistent, Sized, Remembers;
    var less, more, c := chunks[..k], chunks[..k + 1], chunks[k];
    assert more == less + [c] && more[..k] == less;
    TotalGrows(chunks, k + 1);
    OneMoreTiles(less, more, c);
    OneMoreConsistent(less, more, c, lengths);
    OneMoreSized(less, more, c, maxSize);
    if c.hash in lengths ==> lengths[c.hash] == c.length { OneMoreRemembered(less, more, c, lengths); }
  }

  lemma OneMoreSized(less: seq<Chunk>, more: seq<Chunk>, c: Chunk, maxSize: nat)
    requires more == less + [c] && Sized(less, maxSize)
    ensures Sized(more, maxSize) <==> 0 < c.length <= maxSize
  {
    assert more[|less|] == c;
  }

  lemma OneMoreRemembered(less: seq<Chunk>, more: seq<Chunk>, c: Chunk, lengths: map<Hash, nat>)
    requires more == less + [c] && Remembers(lengths, less) && (c.hash in lengths ==> lengths[c.hash] == c.length)
    ensures Remembers(lengths[c.hash := c.length], more)
  {
    var k := |less|;
    assert more[k] == c;
    assert forall i :: 0 <= i < k ==> more[i] == less[i];
    forall h | h in lengths ensures exists i :: 0 <= i < |more| && more[i].hash == h {
      var i :| 0 <= i < k && less[i].hash == h;
      assert more[i].hash == h;
    }
  }

  lemma OneMoreTiles(less: seq<Chunk>, more: seq<Chunk>, c: Chunk)
    requires more == less + [c] && Tiles(less)
    ensures Tiles(more) <==> c.offset == Total(less)
  {
    var k := |less|;
    assert more[..k] == less && more[k] == c;
    assert forall i :: 0 <= i < k ==> more[i] == less[i] && more[..i] == less[..i];
  }

  lemma OneMoreConsistent(less: seq<Chunk>, more: seq<Chunk>, c: Chunk, lengths: map<Hash, nat>)
    requires more == less + [c] && Consistent(less) && Remembers(lengths, less)
    ensures Consistent(more) <==> (c.hash in lengths ==> lengths[c.hash] == c.length)
  {
    var k := |less|;
    assert more[k] == c;
    assert forall i :: 0 <= i < k ==> more[i] == less[i];
    if c.hash in lengths {
      var i :| 0 <= i < k && less[i].hash == c.hash;
      assert more[i].hash == more[k].hash;
    }
  }

  /** `FileManifest::validate`: the single pass accepts exactly the valid manifests. */
  method Validate(digest: Digest, m: FileManifest) returns (ok: bool)
    requires m.size <= U64_MAX
    ensures ok <==> Valid(digest, m)
  {
    hide Total, Regular, Remembers, Tiles, Sized, Consistent;
    if !m.profile.Valid() {
      return false;
    }
    if m.size == 0 {
      EmptyManifest(m.chunks, m.profile.maxSize);
      return m.chunks == [] && m.fileHash == digest([]);
    }
    if m.chunks == [] {
      EmptyManifest(m.chunks, m.profile.maxSize);
      return false;
    }
    var expected: nat := 0;
    var lengths: map<Hash, nat> := map[];
    assert m.chunks[..0] == [];
    EmptyManifest([], m.profile.maxSize);
    for k := 0 to |m.chunks|
      invariant Regular(m.chunks[..k], m.profile.maxSize) && Remembers(lengths, m.chunks[..k])
      invariant expected == Total(m.chunks[..k])
    {
      var chunk := m.chunks[k];
      RegularOneMore(m.chunks, m.profile.maxSize, k, lengths);
      RegularMeansPrefix(m.chunks, m.profile.maxSize, k + 1);
      if chunk.offset != expected || chunk.length == 0 || chunk.length > m.profile.maxSize {
        return false;
      }
      if chunk.hash in lengths && lengths[chunk.hash] != chunk.length {
        return false;
      }
      if expected + chunk.length > U64_MAX {
        return false;
      }
      lengths := lengths[chunk.hash := chunk.length];
      expected := expected + chunk.length;
    }
    assert m.chunks[..|m.chunks|] == m.chunks;
    RegularMeansPrefix(m.chunks, m.profile.maxSize, |m.chunks|);
    return expected == m.size;
  }

  /** Every extent begins where the one before it ends. */
  ghost predicate Adjacent(chunks: seq<Chunk>) {
    && (chunks != [] ==> chunks[0].offset == 0)
    && (forall i :: 0 < i < |chunks| ==> chunks[i].offset == chunks[i - 1].offset + chunks[i - 1].length)
  }

  function EndOf(chunks: seq<Chunk>): nat {
    if chunks == [] then 0 else chunks[|chunks| - 1].offset + chunks[|chunks| - 1].length
  }

  lemma BeginsAtEnd(chunks: seq<Chunk>, i: nat)
    requires Adjacent(chunks) && i < |chunks|
    ensures chunks[i].offset == EndOf(chunks[..i])
  {
    var before := chunks[..i];
    if i > 0 {
      assert |before| - 1 == i - 1 && before[i - 1] == chunks[i - 1];
    }
  }

  lemma {:induction false} TotalIsEnd(chunks: seq<Chunk>, k: nat)
    requires k <= |chunks| && Adjacent(chunks)
    ensures Total(chunks[..k]) == EndOf(chunks[..k])
  {
    if k > 0 {
      TotalIsEnd(chunks, k - 1);
      assert chunks[..k][..k - 1] == chunks[..k - 1];
      BeginsAtEnd(chunks, k - 1);
    }
  }

  lemma TilesExactly(chunks: seq<Chunk>)
    ensures Tiles(chunks) <==> Adjacent(chunks)
    ensures Tiles(chunks) ==> Total(chunks) == EndOf(chunks)
  {
    if Adjacent(chunks) {
      forall i | 0 <= i < |chunks| ensures chunks[i].offset == Total(chunks[..i]) {
        TotalIsEnd(chunks, i);
        BeginsAtEnd(chunks, i);
      }
    }
    if Tiles(chunks) {
      forall i | 0 < i < |chunks| ensures chunks[i].offset == chunks[i - 1].offset + chunks[i - 1].length {
        assert chunks[..i][..i - 1] == chunks[..i - 1];
      }
      assert chunks != [] ==> chunks[..|chunks| - 1][..|chunks| - 1] == chunks[..|chunks| - 1];
    }
  }

  lemma ExtentsExactly(chunks: seq<Chunk>, maxSize: nat)
    ensures Sized(chunks, maxSize) <==> forall c :: c in chunks ==> 0 < c.length <= maxSize
    ensures Consistent(chunks) <==> forall c, d :: c in chunks && d in chunks && c.hash == d.hash ==> c.length == d.length
  {
  }

  /** A manifest is valid exactly if its profile is within the bounds, its extents follow each other
      from the first byte to the last, each of them non-empty and within the maximum, one digest has
      one length, and an empty file has the digest of nothing. */
  lemma ValidExactly(digest: Digest, m: FileManifest)
    ensures Valid(digest, m) <==>
            && 64 <= m.profile.minSize <= 1024 * 1024 && 256 <= m.profile.avgSize <= 4 * 1024 * 1024
            && 1024 <= m.profile.maxSize <= 16 * 1024 * 1024 && m.profile.minSize < m.profile.avgSize < m.profile.maxSize
            && m.profile.minSize % 2 == 0 && m.profile.avgSize % 2 == 0 && m.profile.maxSize % 2 == 0
            && Adjacent(m.chunks)
            && m.size == EndOf(m.chunks)
            && (forall c :: c in m.chunks ==> 0 < c.length <= m.profile.maxSize)
            && (forall c, d :: c in m.chunks && d in m.chunks && c.hash == d.hash ==> c.length == d.length)
            && (m.size == 0 ==> m.fileHash == digest([]))
  {
    TilesExactly(m.chunks);
    ExtentsExactly(m.chunks, m.profile.maxSize);
    hide Total, Tiles, Sized, Consistent, Adjacent;
  }

  lemma EmptyManifest(chunks: seq<Chunk>, maxSize: nat)
    ensures chunks == [] ==> Regular(chunks, maxSize) && Total(chunks) == 0 && Remembers(map[], chunks)
    ensures chunks == [] ==> Tiles(chunks) && Sized(chunks, maxSize) && Consistent(chunks)
    ensures chunks != [] && Sized(chunks, maxSize) ==> Total(chunks) > 0
  {
  }

  lemma RegularMeansPrefix(chunks: seq<Chunk>, maxSize: nat, k: nat)
    requires k <= |chunks|
    ensures Tiles(chunks) && Sized(chunks, maxSize) && Consistent(chunks) ==> Regular(chunks[..k], maxSize)
    ensures Regular(chunks[..k], maxSize) && k == |chunks| ==>
              Tiles(chunks) && Sized(chunks, maxSize) && Consistent(chunks)
  {
    if Tiles(chunks) && Sized(chunks, maxSize) && Consistent(chunks) { RegularPrefix(chunks, maxSize, k); }
    if k == |chunks| { assert chunks[..k] == chunks; }
  }

  // ---------------------------------------------------------------- manifests of byte strings

  function Join(pieces: seq<Bytes>): Bytes {
    if pieces == [] then [] else Join(pieces[..|pieces| - 1]) + pieces[|pieces| - 1]
  }

  function Extent(bytes: Bytes, c: Chunk): Bytes
    requires c.offset + c.length <= |bytes|
  {
    bytes[c.offset..c.offset + c.length]
  }

  /** The manifest tells the truth about these bytes. */
  ghost predicate Describes(digest: Digest, m: FileManifest, bytes: Bytes) {
    && |bytes| == m.size
    && digest(bytes) == m.fileHash
    && forall i :: 0 <= i < |m.chunks| ==>
         && m.chunks[i].offset + m.chunks[i].length <= |bytes|
         && digest(Extent(bytes, m.chunks[i])) == m.chunks[i].hash
  }

  ghost predicate CutFrom(digest: Digest, chunks: seq<Chunk>, pieces: seq<Bytes>) {
    && |chunks| == |pieces|
    && forall i :: 0 <= i < |pieces| ==> chunks[i] == Chunk(|Join(pieces[..i])|, |pieces[i]|, digest(pieces[i]))
  }

  lemma {:induction false} CutTotal(digest: Digest, chunks: seq<Chunk>, pieces: seq<Bytes>, k: nat)
    requires CutFrom(digest, chunks, pieces) && k <= |pieces|
    ensures Total(chunks[..k]) == |Join(pieces[..k])|
  {
    if k > 0 {
      CutTotal(digest, chunks, pieces, k - 1);
      assert chunks[..k][..k - 1] == chunks[..k - 1] && pieces[..k][..k - 1] == pieces[..k - 1];
    }
  }

  lemma {:induction false} JoinGrows(pieces: seq<Bytes>, k: nat)
    requires k <= |pieces|
    ensures |Join(pieces[..k])| <= |Join(pieces)|
    ensures Join(pieces)[..|Join(pieces[..k])|] == Join(pieces[..k])
  {
    if k == |pieces| {
      assert pieces[..k] == pieces;
    } else {
      var less := pieces[..|pieces| - 1];
      JoinGrows(less, k);
      assert less[..k] == pieces[..k];
    }
  }

  lemma JoinSlice(pieces: seq<Bytes>, i: nat)
    requires i < |pieces|
    ensures |Join(pieces[..i])| + |pieces[i]| <= |Join(pieces)|
    ensures Join(pieces)[|Join(pieces[..i])|..|Join(pieces[..i])| + |pieces[i]|] == pieces[i]
  {
    JoinGrows(pieces, i + 1);
    assert pieces[..i + 1][..i] == pieces[..i];
    var all, upTo := Join(pieces), Join(pieces[..i + 1]);
    var a := |Join(pieces[..i])|;
    assert upTo == Join(pieces[..i]) + pieces[i];
    assert upTo[a..] == pieces[i];
    assert all[..|upTo|] == upTo;
    assert all[a..a + |pieces[i]|] == all[..|upTo|][a..];
  }

  lemma CutIsRegular(digest: Digest, chunks: seq<Chunk>, pieces: seq<Bytes>, maxSize: nat)
    requires CutFrom(digest, chunks, pieces)
    ensures Tiles(chunks) && Total(chunks) == |Join(pieces)|
    ensures CollisionFree(digest) ==> Consistent(chunks)
    ensures Sized(chunks, maxSize) <==> forall i :: 0 <= i < |pieces| ==> 0 < |pieces[i]| <= maxSize
  {
    forall i | 0 <= i < |chunks| ensures chunks[i].offset == Total(chunks[..i]) {
      CutTotal(digest, chunks, pieces, i);
    }
    CutTotal(digest, chunks, pieces, |pieces|);
    assert chunks[..|pieces|] == chunks && pieces[..|pieces|] == pieces;
  }

  /** `manifest_from_reader`, over the pieces that the chunker cuts. The manifest exists exactly when
      the pieces respect the profile and the file size fits; it is valid and describes the bytes. */
  method ManifestFromPieces(digest: Digest, pieces: seq<Bytes>, profile: Profile) returns (r: Option<FileManifest>)
    ensures r.Some? ==> Valid(digest, r.value) && Describes(digest, r.value, Join(pieces))
    ensures r.Some? ==> r.value.profile == profile && CutFrom(digest, r.value.chunks, pieces)
    ensures CollisionFree(digest) ==>
              (r.Some? <==>
               && profile.Valid() && |Join(pieces)| <= U64_MAX
               && forall i :: 0 <= i < |pieces| ==> 0 < |pieces[i]| <= profile.maxSize)
  {
    hide Total, Tiles, Sized, Consistent, CutFrom, Describes;
    if !profile.Valid() {
      return None;
    }
    var chunks: seq<Chunk> := [];
    var expected: nat := 0;
    NothingCut(digest, pieces[..0]);
    for k := 0 to |pieces|
      invariant CutFrom(digest, chunks, pieces[..k])
      invariant expected == |Join(pieces[..k])| <= U64_MAX
    {
      assert pieces[..k + 1][..k] == pieces[..k];
      JoinGrows(pieces, k + 1);
      if |pieces[k]| > 0xFFFF_FFFF {
        return None;
      }
      ghost var before := chunks;
      chunks := chunks + [Chunk(expected, |pieces[k]|, digest(pieces[k]))];
      CutOneMore(digest, before, pieces, k);
      if expected + |pieces[k]| > U64_MAX {
        return None;
      }
      expected := expected + |pieces[k]|;
    }
    assert pieces[..|pieces|] == pieces;
    var m := FileManifest(expected, digest(Join(pieces)), profile, chunks);
    CutIsRegular(digest, chunks, pieces, profile.maxSize);
    var ok := Validate(digest, m);
    if !ok {
      EmptyJoin(pieces);
      return None;
    }
    CutDescribes(digest, m, pieces);
    return Some(m);
  }

  lemma CutDescribes(digest: Digest, m: FileManifest, pieces: seq<Bytes>)
    requires CutFrom(digest, m.chunks, pieces) && m.size == |Join(pieces)| && m.fileHash == digest(Join(pieces))
    ensures Describes(digest, m, Join(pieces))
  {
    forall i | 0 <= i < |m.chunks|
      ensures m.chunks[i].offset + m.chunks[i].length <= |Join(pieces)|
      ensures digest(Extent(Join(pieces), m.chunks[i])) == m.chunks[i].hash
    {
      JoinSlice(pieces, i);
    }
  }

  lemma NothingCut(digest: Digest, pieces: seq<Bytes>)
    requires pieces == []
    ensures CutFrom(digest, [], pieces)
  {
  }

  lemma EmptyJoin(pieces: seq<Bytes>)
    ensures |Join(pieces)| == 0 ==> Join(pieces) == []
  {
  }

  lemma CutOneMore(digest: Digest, chunks: seq<Chunk>, pieces: seq<Bytes>, k: nat)
    requires k < |pieces| && CutFrom(digest, chunks, pieces[..k])
    ensures CutFrom(digest, chunks + [Chunk(|Join(pieces[..k])|, |pieces[k]|, digest(pieces[k]))], pieces[..k + 1])
  {
    var more := pieces[..k + 1];
    assert forall i :: 0 <= i <= k ==> more[..i] == pieces[..i];
    assert forall i :: 0 <= i < k ==> more[..i] == pieces[..k][..i] && more[i] == pieces[..k][i];
  }

  // ---------------------------------------------------------------- reassembly

  type Files = map<Hash, Bytes>

  /** The store holds the chunk, and what it holds has the right digest. */
  predicate Intact(digest: Digest, files: Files, h: Hash) {
    h in files && digest(files[h]) == h
  }

  function Reassemble(files: Files, chunks: seq<Chunk>): Bytes {
    if chunks == [] then []
    else
      var c := chunks[|chunks| - 1];
      Reassemble(files, chunks[..|chunks| - 1]) + if c.hash in files then files[c.hash] else []
  }

  ghost predicate Complete(digest: Digest, files: Files, m: FileManifest) {
    forall i :: 0 <= i < |m.chunks| ==> Intact(digest, files, m.chunks[i].hash)
  }

  /** The stored chunk is the next stretch of the file. */
  lemma ReassemblesStep(digest: Digest, files: Files, m: FileManifest, bytes: Bytes, i: nat)
    requires CollisionFree(digest) && Valid(digest, m) && Describes(digest, m, bytes) && Complete(digest, files, m)
    requires i < |m.chunks|
    ensures var c := m.chunks[i];
            && c.hash in files
            && c.offset == Total(m.chunks[..i]) && c.offset + c.length <= |bytes|
            && bytes[..c.offset] + files[c.hash] == bytes[..c.offset + c.length]
  {
    hide Total;
    var c := m.chunks[i];
    assert Intact(digest, files, c.hash);
    assert files[c.hash] == Extent(bytes, c);
  }

  lemma {:induction false} ReassemblesPrefix(digest: Digest, files: Files, m: FileManifest, bytes: Bytes, k: nat)
    requires CollisionFree(digest) && Valid(digest, m) && Describes(digest, m, bytes) && Complete(digest, files, m)
    requires k <= |m.chunks|
    ensures Total(m.chunks[..k]) <= |bytes|
    ensures Reassemble(files, m.chunks[..k]) == bytes[..Total(m.chunks[..k])]
  {
    hide Valid, Describes, Complete, CollisionFree;
    DescribedSize(digest, m, bytes);
    TotalGrows(m.chunks, k);
    if k > 0 {
      ReassemblesPrefix(digest, files, m, bytes, k - 1);
      assert m.chunks[..k][..k - 1] == m.chunks[..k - 1];
      ReassemblesStep(digest, files, m, bytes, k - 1);
    }
  }

  lemma DescribedSize(digest: Digest, m: FileManifest, bytes: Bytes)
    requires Valid(digest, m) && Describes(digest, m, bytes)
    ensures |bytes| == Total(m.chunks)
  {
  }

  /** A complete store gives back the described file, whoever filled it. */
  lemma ReassemblesFile(digest: Digest, files: Files, m: FileManifest, bytes: Bytes)
    requires CollisionFree(digest) && Valid(digest, m) && Describes(digest, m, bytes) && Complete(digest, files, m)
    ensures Reassemble(files, m.chunks) == bytes
  {
    ReassemblesPrefix(digest, files, m, bytes, |m.chunks|);
    assert m.chunks[..|m.chunks|] == m.chunks;
    assert bytes[..|bytes|] == bytes;
  }

  // ---------------------------------------------------------------- what is missing

  /** The chunks not held, each once, in the order of their first use. */
  function Missing(chunks: seq<Chunk>, held: set<Hash>): seq<Hash> {
    if chunks == [] then []
    else
      var before := Missing(chunks[..|chunks| - 1], held);
      var h := chunks[|chunks| - 1].hash;
      if h in held || h in before then before else before + [h]
  }

  /** Extents whose chunk is held. */
  function Reused(chunks: seq<Chunk>, held: set<Hash>): nat {
    if chunks == [] then 0
    else Reused(chunks[..|chunks| - 1], held) + if chunks[|chunks| - 1].hash in held then 1 else 0
  }

  /** The extents that are counted as reused, by number. */
  lemma {:induction false} ReusedIsCount(chunks: seq<Chunk>, held: set<Hash>)
    ensures Reused(chunks, held) == |set i | 0 <= i < |chunks| && chunks[i].hash in held|
  {
    var all := set i | 0 <= i < |chunks| && chunks[i].hash in held;
    if chunks == [] {
      assert all == {};
    } else {
      var n := |chunks| - 1;
      ReusedIsCount(chunks[..n], held);
      var less := set i | 0 <= i < n && chunks[..n][i].hash in held;
      assert all == less + (if chunks[n].hash in held then {n} else {});
    }
  }

  predicate Mentions(chunks: seq<Chunk>, h: Hash) {
    exists i :: 0 <= i < |chunks| && chunks[i].hash == h
  }

  /** The position of a chunk's first use. */
  function FirstUse(chunks: seq<Chunk>, h: Hash): nat {
    if chunks == [] || chunks[0].hash == h then 0 else 1 + FirstUse(chunks[1..], h)
  }

  /** The length that a (consistent) manifest gives a chunk. */
  function LengthOf(chunks: seq<Chunk>, h: Hash): nat {
    if chunks == [] then 0
    else if chunks[|chunks| - 1].hash == h then chunks[|chunks| - 1].length
    else LengthOf(chunks[..|chunks| - 1], h)
  }

  function Payload(chunks: seq<Chunk>, hashes: seq<Hash>): nat {
    if hashes == [] then 0 else Payload(chunks, hashes[..|hashes| - 1]) + LengthOf(chunks, hashes[|hashes| - 1])
  }

  lemma MentionsSplits(chunks: seq<Chunk>, h: Hash)
    requires chunks != []
    ensures Mentions(chunks, h) <==> Mentions(chunks[..|chunks| - 1], h) || chunks[|chunks| - 1].hash == h
  {
    var less := chunks[..|chunks| - 1];
    if Mentions(less, h) {
      var i :| 0 <= i < |less| && less[i].hash == h;
      assert chunks[i].hash == h;
    }
    if Mentions(chunks, h) && chunks[|chunks| - 1].hash != h {
      var i :| 0 <= i < |chunks| && chunks[i].hash == h;
      assert less[i].hash == h;
    }
  }

  /** Each absent chunk is asked for exactly once, and none that is held. */
  lemma {:induction false} MissingIsExact(chunks: seq<Chunk>, held: set<Hash>)
    ensures Distinct(Missing(chunks, held))
    ensures forall h :: h in Missing(chunks, held) <==> Mentions(chunks, h) && h !in held
  {
    if chunks != [] {
      MissingIsExact(chunks[..|chunks| - 1], held);
      forall h ensures h in Missing(chunks, held) <==> Mentions(chunks, h) && h !in held {
        MentionsSplits(chunks, h);
      }
    }
  }

  lemma {:induction false} FirstUseIsFirst(chunks: seq<Chunk>, h: Hash)
    ensures FirstUse(chunks, h) <= |chunks|
    ensures FirstUse(chunks, h) < |chunks| ==> chunks[FirstUse(chunks, h)].hash == h
    ensures forall i :: 0 <= i < FirstUse(chunks, h) ==> chunks[i].hash != h
  {
    if chunks != [] && chunks[0].hash != h {
      FirstUseIsFirst(chunks[1..], h);
      forall i | 0 <= i < FirstUse(chunks, h) ensures chunks[i].hash != h {
        if i > 0 { assert chunks[i] == chunks[1..][i - 1]; }
      }
    }
  }

  lemma FirstUseInPrefix(chunks: seq<Chunk>, k: nat, h: Hash)
    requires k <= |chunks|
    ensures Mentions(chunks[..k], h) <==> FirstUse(chunks, h) < k
  {
    FirstUseIsFirst(chunks, h);
    var f := FirstUse(chunks, h);
    if f < k { assert chunks[..k][f].hash == h; }
    if Mentions(chunks[..k], h) {
      var i :| 0 <= i < k && chunks[..k][i].hash == h;
      assert chunks[i].hash == h;
    }
  }

  ghost predicate InOrder(chunks: seq<Chunk>, hashes: seq<Hash>) {
    forall i, j :: 0 <= i < j < |hashes| ==> FirstUse(chunks, hashes[i]) < FirstUse(chunks, hashes[j])
  }

  /** The request follows the order of first use. */
  lemma {:induction false} MissingInOrder(chunks: seq<Chunk>, held: set<Hash>, k: nat)
    requires k <= |chunks|
    ensures InOrder(chunks, Missing(chunks[..k], held))
  {
    if k > 0 {
      MissingInOrder(chunks, held, k - 1);
      var before := Missing(chunks[..k - 1], held);
      var h := chunks[k - 1].hash;
      assert chunks[..k][..k - 1] == chunks[..k - 1];
      MissingIsExact(chunks[..k - 1], held);
      var missing := Missing(chunks[..k], held);
      assert missing == if h in held || h in before then before else before + [h];
      if h in held || h in before {
        assert missing == before;
      } else {
        FirstUseInPrefix(chunks, k - 1, h);
        forall i | 0 <= i < |before| ensures FirstUse(chunks, before[i]) < FirstUse(chunks, h) {
          assert before[i] in before;
          FirstUseInPrefix(chunks, k - 1, before[i]);
        }
      }
    }
  }

  lemma {:induction false} LengthIsConsistent(chunks: seq<Chunk>, i: nat)
    requires Consistent(chunks) && i < |chunks|
    ensures LengthOf(chunks, chunks[i].hash) == chunks[i].length
  {
    if chunks[|chunks| - 1].hash != chunks[i].hash {
      var less := chunks[..|chunks| - 1];
      assert forall j :: 0 <= j < |less| ==> less[j] == chunks[j];
      assert Consistent(less);
      LengthIsConsistent(less, i);
    }
  }

  /** The requested payload never exceeds the file. */
  lemma {:induction false} PayloadFits(chunks: seq<Chunk>, held: set<Hash>, k: nat)
    requires Consistent(chunks) && k <= |chunks|
    ensures Payload(chunks, Missing(chunks[..k], held)) <= Total(chunks[..k])
  {
    if k > 0 {
      PayloadFits(chunks, held, k - 1);
      assert chunks[..k][..k - 1] == chunks[..k - 1];
      var before := Missing(chunks[..k - 1], held);
      var h := chunks[k - 1].hash;
      LengthIsConsistent(chunks, k - 1);
      assert (before + [h])[..|before|] == before;
    }
  }

  /** `DeltaPlan::build`: the plan is exact, and for a valid manifest its byte count is the true sum,
      never the saturated one. */
  method BuildPlan(m: FileManifest, available: set<Hash>)
    returns (missing: seq<Hash>, transferBytes: nat, reusedExtents: nat)
    ensures missing == Missing(m.chunks, available)
    ensures reusedExtents == Reused(m.chunks, available)
    ensures Consistent(m.chunks) && Total(m.chunks) <= U64_MAX ==> transferBytes == Payload(m.chunks, missing) <= Total(m.chunks)
  {
    hide Total, Consistent;
    missing, transferBytes, reusedExtents := [], 0, 0;
    ghost var fine := Consistent(m.chunks) && Total(m.chunks) <= U64_MAX;
    for k := 0 to |m.chunks|
      invariant missing == Missing(m.chunks[..k], available)
      invariant reusedExtents == Reused(m.chunks[..k], available)
      invariant fine ==> transferBytes == Payload(m.chunks, missing)
    {
      var chunk := m.chunks[k];
      assert m.chunks[..k + 1][..k] == m.chunks[..k];
      if fine {
        PayloadFits(m.chunks, available, k + 1);
        TotalGrows(m.chunks, k + 1);
        LengthIsConsistent(m.chunks, k);
      }
      if chunk.hash in available {
        reusedExtents := reusedExtents + 1;
      } else if chunk.hash !in missing {
        assert (missing + [chunk.hash])[..|missing|] == missing;
        missing := missing + [chunk.hash];
        transferBytes := if transferBytes + chunk.length > U64_MAX then U64_MAX else transferBytes + chunk.length;
      }
    }
    assert m.chunks[..|m.chunks|] == m.chunks;
    if fine { PayloadFits(m.chunks, available, |m.chunks|); }
  }

  /** The chunk is in the store, undamaged and not longer than described. */
  predicate Usable(digest: Digest, files: Files, c: Chunk) {
    Intact(digest, files, c.hash) && |files[c.hash]| <= c.length
  }

  /** The chunks that the store holds, judged at their first use. */
  function Held(digest: Digest, files: Files, chunks: seq<Chunk>): set<Hash> {
    set i | 0 <= i < |chunks| && FirstUse(chunks, chunks[i].hash) == i && Usable(digest, files, chunks[i]) :: chunks[i].hash
  }

  /** `Store::missing_chunks`. */
  method MissingChunks(digest: Digest, files: Files, m: FileManifest) returns (missing: seq<Hash>)
    ensures missing == Missing(m.chunks, Held(digest, files, m.chunks))
    ensures forall k :: 0 <= k < |m.chunks| && (forall j :: 0 <= j < k ==> m.chunks[j].hash != m.chunks[k].hash) ==>
              var c := m.chunks[k];
              (c.hash in missing <==> c.hash !in files || digest(files[c.hash]) != c.hash || |files[c.hash]| > c.length)
  {
    hide Held;
    missing := [];
    var seen: set<Hash> := {};
    for k := 0 to |m.chunks|
      invariant missing == Missing(m.chunks[..k], Held(digest, files, m.chunks))
      invariant forall h :: h in seen <==> Mentions(m.chunks[..k], h)
    {
      var chunk := m.chunks[k];
      var before := m.chunks[..k];
      assert m.chunks[..k + 1][..k] == before;
      forall h ensures Mentions(m.chunks[..k + 1], h) <==> Mentions(before, h) || chunk.hash == h {
        MentionsSplits(m.chunks[..k + 1], h);
      }
      MissingIsExact(before, Held(digest, files, m.chunks));
      HeldHere(digest, files, m.chunks, k);
      if chunk.hash !in seen && !Usable(digest, files, chunk) {
        missing := missing + [chunk.hash];
      }
      seen := seen + {chunk.hash};
    }
    assert m.chunks[..|m.chunks|] == m.chunks;
    MissingAtFirstUse(digest, files, m.chunks);
  }

  /** Whether a chunk is asked for is decided at its first use: it is, if the store has no file for it,
      or a damaged one, or a longer one. */
  lemma MissingAtFirstUse(digest: Digest, files: Files, chunks: seq<Chunk>)
    ensures var missing := Missing(chunks, Held(digest, files, chunks));
            forall k :: 0 <= k < |chunks| && (forall j :: 0 <= j < k ==> chunks[j].hash != chunks[k].hash) ==>
              var c := chunks[k];
              (c.hash in missing <==> c.hash !in files || digest(files[c.hash]) != c.hash || |files[c.hash]| > c.length)
  {
    hide Held, Missing;
    MissingIsExact(chunks, Held(digest, files, chunks));
    forall k | 0 <= k < |chunks| && forall j :: 0 <= j < k ==> chunks[j].hash != chunks[k].hash
      ensures chunks[k].hash in Missing(chunks, Held(digest, files, chunks)) <==>
              chunks[k].hash !in files || digest(files[chunks[k].hash]) != chunks[k].hash || |files[chunks[k].hash]| > chunks[k].length
    {
      assert !Mentions(chunks[..k], chunks[k].hash);
      HeldHere(digest, files, chunks, k);
      assert Mentions(chunks, chunks[k].hash);
    }
  }

  lemma HeldHere(digest: Digest, files: Files, chunks: seq<Chunk>, k: nat)
    requires k < |chunks|
    ensures !Mentions(chunks[..k], chunks[k].hash) ==>
              (chunks[k].hash in Held(digest, files, chunks) <==> Usable(digest, files, chunks[k]))
  {
    FirstUseInPrefix(chunks, k, chunks[k].hash);
    FirstUseIsFirst(chunks, chunks[k].hash);
  }
}
