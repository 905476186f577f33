/** Where each field sits in the byte forms that nodes exchange and store. */
module ByteLayouts {
  import opened Numbers
  import opened Results
  import opened Wire
  import opened HashList
  import opened Chunking
  import BlockCodec
  import SyncCodec
  import ManifestCodec
  import StateSync
  import Attestation
  import Clearing
  import ChainRoot
  import ChainSpec

  /** The bytes hold this part at this offset. */
  predicate Part(bytes: Bytes, offset: nat, part: Bytes) {
    offset + |part| <= |bytes| && bytes[offset..offset + |part|] == part
  }

  lemma Front(part: Bytes, rest: Bytes)
    ensures Part(part + rest, 0, part)
  {
  }

  lemma Behind(front: Bytes, rest: Bytes, offset: nat, part: Bytes)
    requires Part(rest, offset, part)
    ensures Part(front + rest, |front| + offset, part)
  {
    assert (front + rest)[|front| + offset..|front| + offset + |part|] == rest[offset..offset + |part|];
  }

  lemma PowerBytes(k: nat, n: nat)
    ensures n / 256 / Pow256(k) == n / Pow256(k + 1)
  {
    var p, q, r := Pow256(k), n / 256 / Pow256(k), n / 256 % Pow256(k);
    assert n / 256 == p * q + r && n == 256 * (n / 256) + n % 256;
    DivUnique(n, 256 * p, q, 256 * r + n % 256);
  }

  /** Numbers are written most significant byte first. */
  lemma {:induction false} BigEndian(n: nat, width: nat, i: nat)
    requires i < width
    ensures Be(n, width)[i] == n / Pow256(width - 1 - i) % 256
    decreases width
  {
    if i < width - 1 {
      BigEndian(n / 256, width - 1, i);
      PowerBytes(width - 2 - i, n);
    }
  }

  /** What the block decoder lets through. */
  lemma BlockLimits(bytes: Bytes)
    requires BlockCodec.Decode(bytes).Success?
    ensures var block := BlockCodec.Decode(bytes).value;
      && 0 <= block.timestamp && |block.transactions| <= 32 && |bytes| <= 1_572_864
      && forall i | 0 <= i < |block.transactions| :: 0 < |block.transactions[i]| <= 1_048_576
  {
    BlockCodec.EncodingOfDecode(bytes);
    var block := BlockCodec.Decode(bytes).value;
    hide BlockCodec.Decode, BlockCodec.Encoding;
    forall i | 0 <= i < |block.transactions|
      ensures 0 < |block.transactions[i]| <= 1_048_576
    {
      assert block.transactions[i] in block.transactions;
    }
  }

  /** What the summary decoder lets through: one count of 512 KiB chunks, and no identifier left blank. */
  lemma SummaryLimits(bytes: Bytes)
    requires SyncCodec.DecodeSummary(bytes).Success?
    ensures var s := SyncCodec.DecodeSummary(bytes).value;
      && |bytes| == 270 && 0 < s.snapshotLen <= 536_870_912 && s.chunkSize == 524_288 && s.chunkCount <= 1_024
      && s.chunkCount == (s.snapshotLen + 524_287) / 524_288 && 0 <= s.timestamp
      && ZERO_HASH !in [s.chainId, s.genesisHash, s.blockId, s.stateRoot, s.snapshotHash, s.chunkRoot]
  {
    SyncCodec.SummaryOfDecode(bytes);
    hide SyncCodec.DecodeSummary, SyncCodec.SummaryEncoding;
  }

  lemma ResponseLimits(bytes: Bytes)
    requires SyncCodec.DecodeResponse(bytes).Success?
    ensures var p := SyncCodec.DecodeResponse(bytes).value;
      p.summaryId != ZERO_HASH && p.index < p.chunkCount && |p.proof| <= 32 && 0 < |p.bytes| <= 524_288
  {
    SyncCodec.ResponseOfDecode(bytes);
    hide SyncCodec.DecodeResponse, SyncCodec.ResponseEncoding;
  }

  lemma ManifestLimits(bytes: Bytes)
    requires ManifestCodec.DecodeManifest(bytes).Success?
    ensures var m := ManifestCodec.DecodeManifest(bytes).value;
      && m.encoding <= 1 && 0 < m.payloadLen <= 536_870_912 && 0 < m.stateLen <= 536_870_912
      && |m.chunkHashes| == (m.payloadLen + 8_388_607) / 8_388_608 <= 64
  {
    ManifestCodec.ManifestOfDecode(bytes);
    hide ManifestCodec.DecodeManifest, ManifestCodec.ManifestEncoding;
  }

  lemma BlockLayout(block: BlockCodec.Block)
    ensures var b := BlockCodec.Encoding(block);
      && Part(b, 0, BlockCodec.MAGIC) && Part(b, 8, block.parentId)
      && Part(b, 40, Be(ToUnsigned(block.timestamp), 8)) && Part(b, 48, Be(block.height, 8))
      && Part(b, 56, Be(|block.transactions|, 2)) && Part(b, 58, BlockCodec.TransactionBytes(block.transactions))
  {
    hide Be, Part, BlockCodec.TransactionBytes;
    var f5 := BlockCodec.TransactionBytes(block.transactions);
    var f4, f3 := Be(|block.transactions|, 2), Be(block.height, 8);
    var f2, f1, f0 := Be(ToUnsigned(block.timestamp), 8), block.parentId, BlockCodec.MAGIC;
    Six(f0, f1, f2, f3, f4, f5);
  }

  lemma Two(a: Bytes, b: Bytes)
    ensures var all := a + b; Part(all, 0, a) && Part(all, |a|, b)
  {
    Front(a, b);
    Behind(a, b, 0, b);
  }

  lemma Three(a: Bytes, b: Bytes, c: Bytes)
    ensures var all := a + (b + c); Part(all, 0, a) && Part(all, |a|, b) && Part(all, |a| + |b|, c)
  {
    hide Part;
    Front(a, b + c);
    Two(b, c);
    Behind(a, b + c, 0, b);
    Behind(a, b + c, |b|, c);
  }

  lemma Four(a: Bytes, b: Bytes, c: Bytes, d: Bytes)
    ensures var all := a + (b + (c + d));
      && Part(all, 0, a) && Part(all, |a|, b) && Part(all, |a| + |b|, c) && Part(all, |a| + |b| + |c|, d)
  {
    hide Part;
    var rest := b + (c + d);
    Front(a, rest);
    Three(b, c, d);
    Behind(a, rest, 0, b);
    Behind(a, rest, |b|, c);
    Behind(a, rest, |b| + |c|, d);
  }

  lemma Five(a: Bytes, b: Bytes, c: Bytes, d: Bytes, e: Bytes)
    ensures var all := a + (b + (c + (d + e)));
      && Part(all, 0, a) && Part(all, |a|, b) && Part(all, |a| + |b|, c) && Part(all, |a| + |b| + |c|, d)
      && Part(all, |a| + |b| + |c| + |d|, e)
  {
    hide Part;
    var rest := b + (c + (d + e));
    Front(a, rest);
    Four(b, c, d, e);
    Behind(a, rest, 0, b);
    Behind(a, rest, |b|, c);
    Behind(a, rest, |b| + |c|, d);
    Behind(a, rest, |b| + |c| + |d|, e);
  }

  lemma Six(a: Bytes, b: Bytes, c: Bytes, d: Bytes, e: Bytes, f: Bytes)
    ensures var all := a + (b + (c + (d + (e + f))));
      && Part(all, 0, a) && Part(all, |a|, b) && Part(all, |a| + |b|, c) && Part(all, |a| + |b| + |c|, d)
      && Part(all, |a| + |b| + |c| + |d|, e) && Part(all, |a| + |b| + |c| + |d| + |e|, f)
  {
    hide Part;
    var rest := b + (c + (d + (e + f)));
    Front(a, rest);
    Five(b, c, d, e, f);
    Behind(a, rest, 0, b);
    Behind(a, rest, |b|, c);
    Behind(a, rest, |b| + |c|, d);
    Behind(a, rest, |b| + |c| + |d|, e);
    Behind(a, rest, |b| + |c| + |d| + |e|, f);
  }

  lemma SummaryLayout(s: SyncCodec.StateSummary)
    ensures var b := SyncCodec.SummaryEncoding(s);
      && Part(b, 0, SyncCodec.SUMMARY_MAGIC) && Part(b, 8, Be(1, 2)) && Part(b, 10, Be(s.networkId, 4))
      && Part(b, 14, s.chainId) && Part(b, 46, s.genesisHash) && Part(b, 78, s.blockId) && Part(b, 110, s.parentId)
      && Part(b, 142, s.stateRoot) && Part(b, 174, s.snapshotHash) && Part(b, 206, s.chunkRoot)
      && Part(b, 238, Be(s.height, 8)) && Part(b, 246, Be(ToUnsigned(s.timestamp), 8))
      && Part(b, 254, Be(s.snapshotLen, 8)) && Part(b, 262, Be(s.chunkSize, 4)) && Part(b, 266, Be(s.chunkCount, 4))
  {
    hide Part, Be;
    var hashes, tail := HashBytes(SyncCodec.SummaryHashes(s)), SyncCodec.SummaryTail(s);
    var rest := Be(s.networkId, 4) + (hashes + tail);
    Five(SyncCodec.SUMMARY_MAGIC, Be(1, 2), Be(s.networkId, 4), hashes, tail);
    SummaryHashAt(s);
    Inside(SyncCodec.SummaryEncoding(s), 14, hashes, 0, s.chainId);
    Inside(SyncCodec.SummaryEncoding(s), 14, hashes, 32, s.genesisHash);
    Inside(SyncCodec.SummaryEncoding(s), 14, hashes, 64, s.blockId);
    Inside(SyncCodec.SummaryEncoding(s), 14, hashes, 96, s.parentId);
    Inside(SyncCodec.SummaryEncoding(s), 14, hashes, 128, s.stateRoot);
    Inside(SyncCodec.SummaryEncoding(s), 14, hashes, 160, s.snapshotHash);
    Inside(SyncCodec.SummaryEncoding(s), 14, hashes, 192, s.chunkRoot);
    Five(Be(s.height, 8), Be(ToUnsigned(s.timestamp), 8), Be(s.snapshotLen, 8), Be(s.chunkSize, 4),
        Be(s.chunkCount, 4));
    Inside(SyncCodec.SummaryEncoding(s), 238, tail, 0, Be(s.height, 8));
    Inside(SyncCodec.SummaryEncoding(s), 238, tail, 8, Be(ToUnsigned(s.timestamp), 8));
    Inside(SyncCodec.SummaryEncoding(s), 238, tail, 16, Be(s.snapshotLen, 8));
    Inside(SyncCodec.SummaryEncoding(s), 238, tail, 24, Be(s.chunkSize, 4));
    Inside(SyncCodec.SummaryEncoding(s), 238, tail, 28, Be(s.chunkCount, 4));
  }

  lemma Inside(bytes: Bytes, offset: nat, part: Bytes, inner: nat, piece: Bytes)
    requires Part(bytes, offset, part) && Part(part, inner, piece)
    ensures Part(bytes, offset + inner, piece)
  {
    var found := bytes[offset + inner..offset + inner + |piece|];
    forall k | 0 <= k < |piece|
      ensures found[k] == piece[k]
    {
      assert piece[k] == part[inner..inner + |piece|][k] == part[inner + k];
      assert part[inner + k] == bytes[offset..offset + |part|][inner + k] == bytes[offset + inner + k];
    }
  }

  lemma {:induction false} HashAt(hashes: seq<Hash>, i: nat)
    requires i < |hashes|
    ensures Part(HashBytes(hashes), 32 * i, hashes[i])
    decreases |hashes|
  {
    hide Part;
    if i == 0 {
      Front(hashes[0], HashBytes(hashes[1..]));
    } else {
      HashAt(hashes[1..], i - 1);
      Behind(hashes[0], HashBytes(hashes[1..]), 32 * (i - 1), hashes[i]);
    }
  }

  lemma SummaryHashAt(s: SyncCodec.StateSummary)
    ensures var hashes := HashBytes(SyncCodec.SummaryHashes(s));
      && Part(hashes, 0, s.chainId) && Part(hashes, 32, s.genesisHash) && Part(hashes, 64, s.blockId)
      && Part(hashes, 96, s.parentId) && Part(hashes, 128, s.stateRoot) && Part(hashes, 160, s.snapshotHash)
      && Part(hashes, 192, s.chunkRoot)
  {
    hide Part, HashBytes;
    var hashes := SyncCodec.SummaryHashes(s);
    HashAt(hashes, 0);
    HashAt(hashes, 1);
    HashAt(hashes, 2);
    HashAt(hashes, 3);
    HashAt(hashes, 4);
    HashAt(hashes, 5);
    HashAt(hashes, 6);
  }

  lemma ResponseLayout(p: SyncCodec.ChunkResponse)
    ensures var b, n := SyncCodec.ResponseEncoding(p), 32 * |p.proof|;
      && Part(b, 0, SyncCodec.RESPONSE_MAGIC) && Part(b, 8, p.summaryId) && Part(b, 40, Be(p.index, 4))
      && Part(b, 44, Be(p.chunkCount, 4)) && Part(b, 48, Be(|p.proof|, 2)) && Part(b, 50, HashBytes(p.proof))
      && Part(b, 50 + n, Be(|p.bytes|, 4)) && Part(b, 54 + n, p.bytes)
  {
    hide Part, Be, HashBytes;
    var last := HashBytes(p.proof) + (Be(|p.bytes|, 4) + p.bytes);
    var b := SyncCodec.ResponseEncoding(p);
    Six(SyncCodec.RESPONSE_MAGIC, p.summaryId, Be(p.index, 4), Be(p.chunkCount, 4), Be(|p.proof|, 2), last);
    Three(HashBytes(p.proof), Be(|p.bytes|, 4), p.bytes);
    Inside(b, 50, last, 0, HashBytes(p.proof));
    Inside(b, 50, last, 32 * |p.proof|, Be(|p.bytes|, 4));
    Inside(b, 50, last, 32 * |p.proof| + 4, p.bytes);
  }

  lemma ManifestLayout(m: ManifestCodec.Manifest)
    requires ManifestCodec.ValidManifest(m)
    ensures var b := ManifestCodec.ManifestEncoding(m);
      && Part(b, 0, ManifestCodec.MANIFEST_MAGIC) && Part(b, 8, Be(1, 2)) && Part(b, 10, Be(m.encoding, 1))
      && Part(b, 11, Be(ManifestCodec.STATE_CHUNK_BYTES, 4)) && Part(b, 15, Be(m.payloadLen, 8))
      && Part(b, 23, m.payloadHash) && Part(b, 55, Be(m.stateLen, 8)) && Part(b, 63, m.stateHash)
      && Part(b, 95, Be(|m.chunkHashes|, 4)) && Part(b, 99, HashBytes(m.chunkHashes))
  {
    hide Part, Be, HashBytes;
    var b, tail := ManifestCodec.ManifestEncoding(m), ManifestCodec.Tail(m);
    var last := m.payloadHash + tail;
    Six(ManifestCodec.MANIFEST_MAGIC, Be(1, 2), Be(m.encoding, 1), Be(ManifestCodec.STATE_CHUNK_BYTES, 4),
        Be(m.payloadLen, 8), last);
    Five(m.payloadHash, Be(m.stateLen, 8), m.stateHash, Be(|m.chunkHashes|, 4), HashBytes(m.chunkHashes));
    Inside(b, 23, last, 0, m.payloadHash);
    Inside(b, 23, last, 32, Be(m.stateLen, 8));
    Inside(b, 23, last, 40, m.stateHash);
    Inside(b, 23, last, 72, Be(|m.chunkHashes|, 4));
    Inside(b, 23, last, 76, HashBytes(m.chunkHashes));
  }

  /** What the parties of an obligation sign: payer, payee and asset behind their lengths, then the amount. */
  lemma ObligationLayout<P>(encode: P -> Hash, o: Clearing.Obligation<P>, rest: Bytes)
    ensures var b := Attestation.BodyThen(encode, o, rest);
      var p, q, a := |o.payer|, |o.payee|, |o.asset|;
      && Part(b, 0, Attestation.CCP_DOMAIN) && Part(b, 17, Attestation.OBLIGATION_TAG)
      && Part(b, 29, Be(p, 4)) && Part(b, 33, o.payer) && Part(b, 33 + p, Be(q, 4)) && Part(b, 37 + p, o.payee)
      && Part(b, 37 + p + q, Be(a, 4)) && Part(b, 41 + p + q, o.asset) && Part(b, 41 + p + q + a, encode(o.commitment))
  {
    hide Part, Be;
    var last := encode(o.commitment) + rest;
    var tail := o.payee + (Be(|o.asset|, 4) + (o.asset + last));
    var b := Attestation.BodyThen(encode, o, rest);
    Six(Attestation.CCP_DOMAIN, Attestation.OBLIGATION_TAG, Be(|o.payer|, 4), o.payer, Be(|o.payee|, 4), tail);
    Five(o.payee, Be(|o.asset|, 4), o.asset, encode(o.commitment), rest);
    var at := 37 + |o.payer|;
    Inside(b, at, tail, 0, o.payee);
    Inside(b, at, tail, |o.payee|, Be(|o.asset|, 4));
    Inside(b, at, tail, |o.payee| + 4, o.asset);
    Inside(b, at, tail, |o.payee| + 4 + |o.asset|, encode(o.commitment));
  }

  /** The attestation names cycle, house and asset behind their lengths, then the trades. */
  lemma NovationLayout<P>(encode: P -> Hash, n: Clearing.Novation<P>, cycle: Bytes)
    ensures var b := Attestation.DigestInput(encode, n, cycle);
      var c, h := |cycle|, |n.house|;
      && Part(b, 0, Attestation.CCP_DOMAIN) && Part(b, 17, Attestation.NOVATION_TAG)
      && Part(b, 27, Be(c, 8)) && Part(b, 35, cycle) && Part(b, 35 + c, Be(h, 8)) && Part(b, 43 + c, n.house)
      && Part(b, 43 + c + h, Be(|n.asset|, 8)) && Part(b, 51 + c + h, n.asset)
      && Part(b, 51 + c + h + |n.asset|, Attestation.Bodies(encode, n.before))
  {
    hide Part, Be, Attestation.Bodies;
    var tail := n.house + (Be(|n.asset|, 8) + (n.asset + Attestation.Bodies(encode, n.before)));
    var b := Attestation.DigestInput(encode, n, cycle);
    Six(Attestation.CCP_DOMAIN, Attestation.NOVATION_TAG, Be(|cycle|, 8), cycle, Be(|n.house|, 8), tail);
    Four(n.house, Be(|n.asset|, 8), n.asset, Attestation.Bodies(encode, n.before));
    var at := 43 + |cycle|;
    Inside(b, at, tail, 0, n.house);
    Inside(b, at, tail, |n.house|, Be(|n.asset|, 8));
    Inside(b, at, tail, |n.house| + 8, n.asset);
    Inside(b, at, tail, |n.house| + 8 + |n.asset|, Attestation.Bodies(encode, n.before));
  }

  /** The rows under the contract's root, byte for byte. */
  lemma AccountRowBytes(handle: Bytes, commitment: Bytes, nullifier: Bytes, deadline: nat)
    ensures ChainRoot.Flat(ChainRoot.AccountRow(handle, commitment)) == Be(|handle|, 8) + handle + commitment
    ensures ChainRoot.Flat(ChainRoot.NullifierRow(nullifier, deadline)) == nullifier + Be(deadline, 8)
  {
    hide Be;
    FlatFields(ChainRoot.Sized(handle), [ChainRoot.Fixed(commitment)]);
    FlatFields(ChainRoot.Fixed(commitment), []);
    FlatFields(ChainRoot.Fixed(nullifier), [ChainRoot.Word(deadline)]);
    FlatFields(ChainRoot.Word(deadline), []);
    assert ChainRoot.AccountRow(handle, commitment) == [ChainRoot.Sized(handle)] + [ChainRoot.Fixed(commitment)];
    assert ChainRoot.NullifierRow(nullifier, deadline) == [ChainRoot.Fixed(nullifier)] + [ChainRoot.Word(deadline)];
    hide ChainRoot.Flat, ChainRoot.AccountRow, ChainRoot.NullifierRow;
  }

  lemma EscrowRowBytes(leg: Bytes, e: ChainSpec.Escrow)
    ensures ChainRoot.Flat(ChainRoot.EscrowRow(leg, e)) ==
      (Be(|leg|, 8) + leg)
          + ((Be(|e.payer|, 8) + e.payer) + ((Be(|e.payee|, 8) + e.payee) + (e.held + Be(e.deadline, 8))))
  {
    hide Be, ChainRoot.Flat;
    FlatFive(ChainRoot.Sized(leg), ChainRoot.Sized(e.payer), ChainRoot.Sized(e.payee), ChainRoot.Fixed(e.held),
             ChainRoot.Word(e.deadline));
  }

  lemma FlatFive(a: ChainRoot.Field, b: ChainRoot.Field, c: ChainRoot.Field, d: ChainRoot.Field, e: ChainRoot.Field)
    ensures ChainRoot.Flat([a, b, c, d, e]) ==
      ChainRoot.FieldBytes(a) + (ChainRoot.FieldBytes(b) + (ChainRoot.FieldBytes(c)
        + (ChainRoot.FieldBytes(d) + ChainRoot.FieldBytes(e))))
  {
    hide ChainRoot.FieldBytes, ChainRoot.Flat;
    FlatFields(e, []);
    FlatFields(d, [e]);
    FlatFields(c, [d, e]);
    FlatFields(b, [c, d, e]);
    FlatFields(a, [b, c, d, e]);
    assert [d] + [e] == [d, e] && [c] + [d, e] == [c, d, e] && [b] + [c, d, e] == [b, c, d, e];
    assert [a] + [b, c, d, e] == [a, b, c, d, e];
  }

  lemma FlatFields(f: ChainRoot.Field, rest: seq<ChainRoot.Field>)
    ensures ChainRoot.Flat([f] + rest) == ChainRoot.FieldBytes(f) + ChainRoot.Flat(rest)
    ensures ChainRoot.Flat([f]) == ChainRoot.FieldBytes(f)
  {
    assert ([f] + rest)[1..] == rest && [f][1..] == [];
  }

  lemma SnapshotLayout(block: Bytes, state: Bytes)
    ensures var b := StateSync.SnapshotBytes(block, state);
      && Part(b, 0, StateSync.SNAPSHOT_MAGIC) && Part(b, 8, Be(|block|, 4)) && Part(b, 12, Be(|state|, 8))
      && Part(b, 20, block) && Part(b, 20 + |block|, state)
  {
    hide Part, Be;
    Five(StateSync.SNAPSHOT_MAGIC, Be(|block|, 4), Be(|state|, 8), block, state);
  }
}
