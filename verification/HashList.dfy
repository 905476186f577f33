/** Lists of 32-byte digests on the wire: fixed-width items, written and read one after another. */
module HashList {
  import opened Results
  import opened Wire

  function HashBytes(hashes: seq<Hash>): (b: Bytes)
    ensures |b| == 32 * |hashes|
  {
    if hashes == [] then [] else hashes[0] + HashBytes(hashes[1..])
  }

  function ParseHashes(rest: Bytes, count: nat): Result<(seq<Hash>, Bytes), WireError> {
    if count == 0 then Success(([], rest)) else
      var (first, after) :- Take(rest, 32);
      var (others, end) :- ParseHashes(after, count - 1);
      Success(([first] + others, end))
  }

  lemma {:induction false} ParseOfHashes(hashes: seq<Hash>, rest: Bytes)
    ensures ParseHashes(HashBytes(hashes) + rest, |hashes|) == Success((hashes, rest))
    decreases |hashes|
  {
    if hashes != [] {
      var first, others := hashes[0], hashes[1..];
      assert HashBytes(hashes) + rest == first + (HashBytes(others) + rest);
      TakeAppend(first, HashBytes(others) + rest);
      ParseOfHashes(others, rest);
      assert hashes == [first] + others;
    } else {
      assert HashBytes(hashes) + rest == rest;
    }
  }

  lemma {:induction false} HashesOfParse(rest: Bytes, count: nat)
    requires ParseHashes(rest, count).Success?
    ensures var (hashes, after) := ParseHashes(rest, count).value;
      |hashes| == count && HashBytes(hashes) + after == rest
  {
    if count > 0 {
      TakeJoins(rest, 32);
      var (first, afterFirst) := Take(rest, 32).value;
      HashesOfParse(afterFirst, count - 1);
      var (others, after) := ParseHashes(afterFirst, count - 1).value;
      var hashes: seq<Hash> := [first] + others;
      assert hashes[1..] == others;
      assert HashBytes(hashes) + after == first + (HashBytes(others) + after);
    }
  }

  lemma {:induction false} HashBytesAppend(hashes: seq<Hash>, next: Hash)
    ensures HashBytes(hashes + [next]) == HashBytes(hashes) + next
    decreases |hashes|
  {
    var longer := hashes + [next];
    if hashes == [] {
      assert longer[1..] == [];
    } else {
      HashBytesAppend(hashes[1..], next);
      assert longer[1..] == hashes[1..] + [next];
    }
  }

  method WriteHashes(out: Bytes, hashes: seq<Hash>) returns (r: Bytes)
    ensures r == out + HashBytes(hashes)
  {
    r := out;
    for i := 0 to |hashes|
      invariant r == out + HashBytes(hashes[..i])
    {
      HashBytesAppend(hashes[..i], hashes[i]);
      assert hashes[..i + 1] == hashes[..i] + [hashes[i]];
      r := r + hashes[i];
    }
    assert hashes[..|hashes|] == hashes;
  }

  /** What is left to parse once some digests have been read. */
  function AfterHashes(read: seq<Hash>, rest: Bytes, count: nat): Result<(seq<Hash>, Bytes), WireError> {
    var (others, after) :- ParseHashes(rest, count);
    Success((read + others, after))
  }

  method ReadHashes(reader: Reader, count: nat) returns (r: Result<seq<Hash>, WireError>)
    requires reader.Valid()
    modifies reader
    ensures reader.Valid()
    ensures match ParseHashes(old(reader.Rest()), count)
            case Success((hashes, rest)) => r == Success(hashes) && reader.Rest() == rest
            case Failure(error) => r == Failure(error)
  {
    var hashes: seq<Hash> := [];
    var whole := ParseHashes(reader.Rest(), count);
    if whole.Success? {
      assert [] + whole.value.0 == whole.value.0;
    }
    for i := 0 to count
      invariant reader.Valid()
      invariant AfterHashes(hashes, reader.Rest(), count - i) == ParseHashes(old(reader.Rest()), count)
    {
      var hash := reader.TakeBytes(32);
      if hash.Failure? {
        return Failure(hash.error);
      }
      var parsed := ParseHashes(reader.Rest(), count - i - 1);
      if parsed.Success? {
        assert hashes + ([hash.value] + parsed.value.0) == (hashes + [hash.value]) + parsed.value.0;
      }
      hashes := hashes + [hash.value];
    }
    assert hashes + [] == hashes;
    return Success(hashes);
  }
}
