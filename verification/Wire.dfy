/** Bytes, big-endian integers and the cursor that every decoder advances. */
module Wire {
  import opened Numbers
  import opened Results

  type Byte = n: nat | n < 256
  type Bytes = seq<Byte>

  /** A 32-byte digest or identifier. */
  type Hash = b: Bytes | |b| == 32 witness ZEROS

  const ZEROS: Bytes :=
    [0, 0, 0, 0, 0, 0, 0, 0, 0, 0, 0, 0, 0, 0, 0, 0,
     0, 0, 0, 0, 0, 0, 0, 0, 0, 0, 0, 0, 0, 0, 0, 0]

  const ZERO_HASH: Hash := ZEROS

  datatype WireError = Truncated | Unsupported | OutOfBounds | Trailing

  function Pow256(k: nat): (p: nat)
    ensures p > 0
  {
    if k == 0 then 1 else 256 * Pow256(k - 1)
  }

  /** The `width` big-endian bytes of `n`. */
  function Be(n: nat, width: nat): (b: Bytes)
    ensures |b| == width
  {
    if width == 0 then [] else Be(n / 256, width - 1) + [n % 256]
  }

  function FromBe(b: Bytes): (n: nat)
    ensures n < Pow256(|b|)
  {
    if b == [] then 0 else 256 * FromBe(b[..|b| - 1]) + b[|b| - 1]
  }

  lemma {:induction false} FromBeOfBe(n: nat, width: nat)
    requires n < Pow256(width)
    ensures FromBe(Be(n, width)) == n
  {
    if width > 0 {
      FromBeOfBe(n / 256, width - 1);
      assert Be(n, width)[..width - 1] == Be(n / 256, width - 1);
    }
  }

  lemma LastByte(n: nat, last: Byte)
    ensures (256 * n + last) / 256 == n && (256 * n + last) % 256 == last
  {
  }

  lemma {:induction false} BeOfFromBe(b: Bytes)
    ensures Be(FromBe(b), |b|) == b
  {
    if b != [] {
      var init, last := b[..|b| - 1], b[|b| - 1];
      BeOfFromBe(init);
      LastByte(FromBe(init), last);
      assert FromBe(b) == 256 * FromBe(init) + last;
      hide FromBe;
      assert b == init + [last];
    }
  }

  lemma Widths()
    ensures Pow256(2) == U16_MAX + 1
    ensures Pow256(4) == U32_MAX + 1
    ensures Pow256(8) == U64_MAX + 1
  {
    assert Pow256(4) == 256 * (256 * Pow256(2));
    assert Pow256(8) == 256 * (256 * (256 * (256 * Pow256(4))));
  }

  /** Two's complement of a signed 64-bit number. */
  function ToUnsigned(n: I64): U64 {
    if n < 0 then n + U64_MAX + 1 else n
  }

  function ToSigned(n: U64): (i: I64)
    ensures ToUnsigned(i) == n
  {
    if n > I64_MAX then n - U64_MAX - 1 else n
  }

  lemma SignedRoundTrip(n: I64)
    ensures ToSigned(ToUnsigned(n)) == n
  {
  }

  /** Split the first `length` bytes off, as the decoders' cursor does. */
  function Take(rest: Bytes, length: nat): Result<(Bytes, Bytes), WireError> {
    if length <= |rest| then Success((rest[..length], rest[length..])) else Failure(Truncated)
  }

  lemma TakeAppend(first: Bytes, rest: Bytes)
    ensures Take(first + rest, |first|) == Success((first, rest))
  {
    assert (first + rest)[..|first|] == first && (first + rest)[|first|..] == rest;
  }

  lemma TakeJoins(rest: Bytes, length: nat)
    requires Take(rest, length).Success?
    ensures Take(rest, length).value.0 + Take(rest, length).value.1 == rest
    ensures |Take(rest, length).value.0| == length
  {
  }

  lemma Split3(b: Bytes, i: nat, j: nat)
    requires i <= j <= |b|
    ensures b[..i] + (b[i..j] + b[j..]) == b
  {
  }

  lemma Regroup(a: Bytes, b: Bytes, c: Bytes, d: Bytes)
    ensures (a + (b + c)) + d == a + (b + (c + d))
  {
  }

  lemma RightNested(a: Bytes, b: Bytes, c: Bytes, d: Bytes, e: Bytes)
    ensures a + b + c + d + e == a + (b + (c + (d + e)))
  {
  }

  function TakeNumber(rest: Bytes, width: nat): Result<(nat, Bytes), WireError> {
    var (bytes, after) :- Take(rest, width);
    Success((FromBe(bytes), after))
  }

  lemma TakeNumberAppend(n: nat, width: nat, rest: Bytes)
    requires n < Pow256(width)
    ensures TakeNumber(Be(n, width) + rest, width) == Success((n, rest))
  {
    TakeAppend(Be(n, width), rest);
    FromBeOfBe(n, width);
  }

  lemma TakeNumberJoins(rest: Bytes, width: nat)
    requires TakeNumber(rest, width).Success?
    ensures var (n, after) := TakeNumber(rest, width).value;
      n < Pow256(width) && Be(n, width) + after == rest
  {
    var (bytes, after) := Take(rest, width).value;
    BeOfFromBe(bytes);
  }

  /** Parts of one length that begin the same bytes are the same. */
  lemma PeelBytes(a: Bytes, b: Bytes, r: Bytes, t: Bytes)
    requires |a| == |b| && a + r == b + t
    ensures a == b && r == t
  {
    assert a == (a + r)[..|a|] && b == (b + t)[..|b|];
    assert r == (a + r)[|a|..] && t == (b + t)[|b|..];
  }

  /** A part behind its own length begins bytes in only one way. */
  lemma PeelSized(width: nat, a: Bytes, b: Bytes, r: Bytes, t: Bytes)
    requires |a| < Pow256(width) && |b| < Pow256(width)
    requires Be(|a|, width) + (a + r) == Be(|b|, width) + (b + t)
    ensures a == b && r == t
  {
    PeelBytes(Be(|a|, width), Be(|b|, width), a + r, b + t);
    FromBeOfBe(|a|, width);
    FromBeOfBe(|b|, width);
    PeelBytes(a, b, r, t);
  }

  /** The decoders' cursor over one message. */
  class Reader {
    const bytes: Bytes
    var offset: nat

    predicate Valid()
      reads this
    {
      offset <= |bytes|
    }

    function Rest(): Bytes
      requires Valid()
      reads this
    {
      bytes[offset..]
    }

    constructor (bytes: Bytes)
      ensures Valid() && Rest() == bytes
    {
      this.bytes, offset := bytes, 0;
    }

    method TakeBytes(length: nat) returns (r: Result<Bytes, WireError>)
      requires Valid()
      modifies this
      ensures Valid()
      ensures match Take(old(Rest()), length)
              case Success((value, rest)) => r == Success(value) && Rest() == rest
              case Failure(error) => r == Failure(error)
    {
      var end := offset + length;
      if end > |bytes| {
        return Failure(Truncated);
      }
      assert Rest()[..length] == bytes[offset..end] && Rest()[length..] == bytes[end..];
      r := Success(bytes[offset..end]);
      offset := end;
    }

    method TakeInteger(width: nat) returns (r: Result<nat, WireError>)
      requires Valid()
      modifies this
      ensures Valid()
      ensures match TakeNumber(old(Rest()), width)
              case Success((value, rest)) => r == Success(value) && value < Pow256(width) && Rest() == rest
              case Failure(error) => r == Failure(error)
    {
      var taken := TakeBytes(width);
      if taken.Failure? {
        return Failure(taken.error);
      }
      return Success(FromBe(taken.value));
    }
  }
}
