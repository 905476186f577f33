/** The canonical byte form of a block: a fixed header and a list of length-prefixed transactions. */
module BlockCodec {
  import opened Numbers
  import opened Results
  import opened Wire

  const MAGIC: Bytes := [81, 79, 77, 77, 66, 76, 75, 49]
  const MAX_TRANSACTIONS := 32
  const MAX_TRANSACTION_BYTES := 0x10_0000
  const MAX_BLOCK_BYTES := 0x18_0000

  datatype Block = Block(parentId: Hash, timestamp: I64, height: U64, transactions: seq<Bytes>)

  predicate ValidTransaction(transaction: Bytes) {
    0 < |transaction| <= MAX_TRANSACTION_BYTES
  }

  predicate Valid(block: Block) {
    && 0 <= block.timestamp
    && |block.transactions| <= MAX_TRANSACTIONS
    && forall t | t in block.transactions :: ValidTransaction(t)
  }

  function TransactionBytes(transactions: seq<Bytes>): Bytes {
    if transactions == [] then []
    else Be(|transactions[0]|, 4) + (transactions[0] + TransactionBytes(transactions[1..]))
  }

  function Encoding(block: Block): Bytes {
    MAGIC + (block.parentId + (Be(ToUnsigned(block.timestamp), 8) + (Be(block.height, 8)
      + (Be(|block.transactions|, 2) + TransactionBytes(block.transactions)))))
  }

  /** Blocks that the encoder does not refuse. */
  predicate Encodable(block: Block) {
    Valid(block) && |Encoding(block)| <= MAX_BLOCK_BYTES
  }

  function ParseTransactions(rest: Bytes, count: nat): Result<(seq<Bytes>, Bytes), WireError> {
    if count == 0 then Success(([], rest)) else
      var (length, afterLength) :- TakeNumber(rest, 4);
      if length == 0 || length > MAX_TRANSACTION_BYTES then Failure(OutOfBounds) else
      var (first, after) :- Take(afterLength, length);
      var (others, end) :- ParseTransactions(after, count - 1);
      Success(([first] + others, end))
  }

  function Decode(bytes: Bytes): Result<Block, WireError> {
    if bytes == [] || |bytes| > MAX_BLOCK_BYTES then Failure(OutOfBounds) else
    var (magic, r1) :- Take(bytes, 8);
    if magic != MAGIC then Failure(Unsupported) else
    var (parentId, r2) :- Take(r1, 32);
    var (timestamp, r3) :- TakeNumber(r2, 8);
    var (height, r4) :- TakeNumber(r3, 8);
    var (count, r5) :- TakeNumber(r4, 2);
    if count > MAX_TRANSACTIONS then Failure(OutOfBounds) else
    var (transactions, r6) :- ParseTransactions(r5, count);
    if r6 != [] then Failure(Trailing) else
    Widths();
    var block := Block(parentId, ToSigned(timestamp), height, transactions);
    if Valid(block) then Success(block) else Failure(OutOfBounds)
  }

  lemma {:induction false} ParseOfTransactions(transactions: seq<Bytes>, rest: Bytes)
    requires forall t | t in transactions :: ValidTransaction(t)
    ensures ParseTransactions(TransactionBytes(transactions) + rest, |transactions|) == Success((transactions, rest))
    decreases |transactions|
  {
    if transactions != [] {
      var first, others := transactions[0], transactions[1..];
      Widths();
      hide Be, Pow256, Take, TakeNumber;
      var afterFirst := TransactionBytes(others) + rest;
      Regroup(Be(|first|, 4), first, TransactionBytes(others), rest);
      assert TransactionBytes(transactions) + rest == Be(|first|, 4) + (first + afterFirst);
      assert first in transactions && ValidTransaction(first);
      TakeNumberAppend(|first|, 4, first + afterFirst);
      TakeAppend(first, afterFirst);
      ParseOfTransactions(others, rest);
      hide TransactionBytes;
      assert transactions == [first] + others;
    } else {
      assert TransactionBytes(transactions) + rest == rest;
    }
  }

  lemma {:induction false} TransactionsOfParse(rest: Bytes, count: nat)
    requires ParseTransactions(rest, count).Success?
    ensures var (transactions, after) := ParseTransactions(rest, count).value;
      && |transactions| == count
      && (forall t | t in transactions :: ValidTransaction(t))
      && TransactionBytes(transactions) + after == rest
  {
    if count > 0 {
      TakeNumberJoins(rest, 4);
      var (length, afterLength) := TakeNumber(rest, 4).value;
      TakeJoins(afterLength, length);
      var (first, afterFirst) := Take(afterLength, length).value;
      TransactionsOfParse(afterFirst, count - 1);
      var (others, after) := ParseTransactions(afterFirst, count - 1).value;
      var transactions := [first] + others;
      assert transactions[1..] == others;
      Regroup(Be(length, 4), first, TransactionBytes(others), after);
    }
  }

  /** Decoding an encoding returns the block. */
  lemma DecodeOfEncoding(block: Block)
    requires Encodable(block)
    ensures Decode(Encoding(block)) == Success(block)
  {
    Widths();
    var e5 := TransactionBytes(block.transactions);
    var e4 := Be(|block.transactions|, 2) + e5;
    var e3 := Be(block.height, 8) + e4;
    var e2 := Be(ToUnsigned(block.timestamp), 8) + e3;
    TakeAppend(MAGIC, block.parentId + e2);
    TakeAppend(block.parentId, e2);
    TakeNumberAppend(ToUnsigned(block.timestamp), 8, e3);
    TakeNumberAppend(block.height, 8, e4);
    TakeNumberAppend(|block.transactions|, 2, e5);
    ParseOfTransactions(block.transactions, []);
    assert e5 + [] == e5;
    SignedRoundTrip(block.timestamp);
  }

  /** Every accepted byte string is the encoding of what it decodes to. */
  lemma EncodingOfDecode(bytes: Bytes)
    requires Decode(bytes).Success?
    ensures Encodable(Decode(bytes).value) && Encoding(Decode(bytes).value) == bytes
  {
    TakeJoins(bytes, 8);
    var r1 := Take(bytes, 8).value.1;
    TakeJoins(r1, 32);
    var r2 := Take(r1, 32).value.1;
    TakeNumberJoins(r2, 8);
    var r3 := TakeNumber(r2, 8).value.1;
    TakeNumberJoins(r3, 8);
    var r4 := TakeNumber(r3, 8).value.1;
    TakeNumberJoins(r4, 2);
    var (count, r5) := TakeNumber(r4, 2).value;
    TransactionsOfParse(r5, count);
    var transactions := ParseTransactions(r5, count).value.0;
    assert TransactionBytes(transactions) + [] == TransactionBytes(transactions);
  }

  /** Blocks with the same bytes, and hence the same identifier input, are the same block. */
  lemma EncodingInjective(a: Block, b: Block)
    requires Encodable(a) && Encodable(b) && Encoding(a) == Encoding(b)
    ensures a == b
  {
    DecodeOfEncoding(a);
    DecodeOfEncoding(b);
  }

  // ----- the loops ---------------------------------------------------------------------------

  lemma Joins(a: Bytes, b: Bytes, c: Bytes)
    ensures a + (b + c) == (a + b) + c
  {
  }

  lemma {:induction false} TransactionBytesAppend(transactions: seq<Bytes>, next: Bytes)
    ensures TransactionBytes(transactions + [next]) == TransactionBytes(transactions) + (Be(|next|, 4) + next)
    decreases |transactions|
  {
    var longer := transactions + [next];
    if transactions == [] {
      assert longer[1..] == [];
    } else {
      TransactionBytesAppend(transactions[1..], next);
      assert longer[1..] == transactions[1..] + [next] && longer[0] == transactions[0];
      var head, rest := Be(|transactions[0]|, 4) + transactions[0], TransactionBytes(transactions[1..]);
      var end := Be(|next|, 4) + next;
      assert TransactionBytes(longer) == head + TransactionBytes(longer[1..]);
      assert TransactionBytes(transactions) == head + rest;
      hide Be, TransactionBytes;
      Joins(head, rest, end);
    }
  }

  method Encode(block: Block) returns (r: Result<Bytes, WireError>)
    ensures r == if Encodable(block) then Success(Encoding(block)) else Failure(OutOfBounds)
  {
    if !Valid(block) {
      return Failure(OutOfBounds);
    }
    hide Be, Valid;
    var encoded := MAGIC;
    encoded := encoded + block.parentId;
    encoded := encoded + Be(ToUnsigned(block.timestamp), 8);
    encoded := encoded + Be(block.height, 8);
    encoded := encoded + Be(|block.transactions|, 2);
    ghost var header := encoded;
    for i := 0 to |block.transactions|
      invariant encoded == header + TransactionBytes(block.transactions[..i])
    {
      hide TransactionBytes;
      var transaction := block.transactions[i];
      TransactionBytesAppend(block.transactions[..i], transaction);
      assert block.transactions[..i + 1] == block.transactions[..i] + [transaction];
      encoded := encoded + Be(|transaction|, 4);
      encoded := encoded + transaction;
    }
    assert block.transactions[..|block.transactions|] == block.transactions;
    hide TransactionBytes;
    assert encoded == Encoding(block);
    if |encoded| > MAX_BLOCK_BYTES {
      return Failure(OutOfBounds);
    }
    return Success(encoded);
  }

  /** What is left to parse once some transactions have been read. */
  function AfterTransactions(read: seq<Bytes>, rest: Bytes, count: nat): Result<(seq<Bytes>, Bytes), WireError> {
    var (others, after) :- ParseTransactions(rest, count);
    Success((read + others, after))
  }

  method DecodeTransactions(reader: Reader, count: nat) returns (r: Result<seq<Bytes>, WireError>)
    requires reader.Valid()
    modifies reader
    ensures reader.Valid()
    ensures match ParseTransactions(old(reader.Rest()), count)
            case Success((transactions, rest)) => r == Success(transactions) && reader.Rest() == rest
            case Failure(error) => r == Failure(error)
  {
    var transactions: seq<Bytes> := [];
    assert AfterTransactions([], reader.Rest(), count) == ParseTransactions(reader.Rest(), count) by {
      var parsed := ParseTransactions(reader.Rest(), count);
      assert parsed.Success? ==> [] + parsed.value.0 == parsed.value.0;
    }
    for i := 0 to count
      invariant reader.Valid()
      invariant AfterTransactions(transactions, reader.Rest(), count - i)
        == ParseTransactions(old(reader.Rest()), count)
    {
      ghost var before := reader.Rest();
      var length := reader.TakeInteger(4);
      if length.Failure? {
        return Failure(length.error);
      }
      if length.value == 0 || length.value > MAX_TRANSACTION_BYTES {
        return Failure(OutOfBounds);
      }
      var transaction := reader.TakeBytes(length.value);
      if transaction.Failure? {
        return Failure(transaction.error);
      }
      var parsed := ParseTransactions(reader.Rest(), count - i - 1);
      if parsed.Success? {
        assert transactions + ([transaction.value] + parsed.value.0)
            == (transactions + [transaction.value]) + parsed.value.0;
      }
      transactions := transactions + [transaction.value];
    }
    assert transactions + [] == transactions;
    return Success(transactions);
  }

  method DecodeBlock(bytes: Bytes) returns (r: Result<Block, WireError>)
    ensures r == Decode(bytes)
  {
    if bytes == [] || |bytes| > MAX_BLOCK_BYTES {
      return Failure(OutOfBounds);
    }
    var reader := new Reader(bytes);
    var magic := reader.TakeBytes(8);
    if magic.Failure? {
      return Failure(magic.error);
    }
    if magic.value != MAGIC {
      return Failure(Unsupported);
    }
    var parentId := reader.TakeBytes(32);
    if parentId.Failure? {
      return Failure(parentId.error);
    }
    var timestamp := reader.TakeInteger(8);
    if timestamp.Failure? {
      return Failure(timestamp.error);
    }
    var height := reader.TakeInteger(8);
    if height.Failure? {
      return Failure(height.error);
    }
    var count := reader.TakeInteger(2);
    if count.Failure? {
      return Failure(count.error);
    }
    if count.value > MAX_TRANSACTIONS {
      return Failure(OutOfBounds);
    }
    var transactions := DecodeTransactions(reader, count.value);
    if transactions.Failure? {
      return Failure(transactions.error);
    }
    if reader.Rest() != [] {
      return Failure(Trailing);
    }
    Widths();
    var block := Block(parentId.value, ToSigned(timestamp.value), height.value, transactions.value);
    return if Valid(block) then Success(block) else Failure(OutOfBounds);
  }
}
