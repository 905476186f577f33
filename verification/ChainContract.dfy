/** The settlement contract as an object: four calls, pruning and the root. */
module ChainContract {
  import opened Numbers
  import opened Results
  import opened Wire
  import opened ChainSpec
  import opened ChainRoot

  // ----- sorted keys -------------------------------------------------------------------------

  method Smallest(s: set<Bytes>) returns (m: Bytes)
    requires s != {}
    ensures First(m, s)
  {
    m :| m in s;
    var todo := s - {m};
    while todo != {}
      invariant m in s && todo <= s && m !in todo
      invariant forall x | x in s && x !in todo && x != m :: Before(m, x)
      decreases todo
    {
      var x :| x in todo;
      todo := todo - {x};
      BeforeTotal(m, x);
      if Before(x, m) {
        forall y | y in s && y !in todo && y != x
          ensures Before(x, y)
        {
          if y != m {
            BeforeTransitive(x, m, y);
          }
        }
        m := x;
      }
    }
  }

  lemma InOrderFrom(m: Bytes, s: set<Bytes>)
    requires First(m, s)
    ensures InOrder(s) == [m] + InOrder(s - {m})
  {
    FirstUnique(m, FirstOf(s), s);
  }

  lemma Regrouped(l: seq<Bytes>, m: Bytes, rest: seq<Bytes>)
    ensures l + ([m] + rest) == (l + [m]) + rest
  {
  }

  method SortedKeys(s: set<Bytes>) returns (l: seq<Bytes>)
    ensures l == InOrder(s)
  {
    hide InOrder, First;
    l := [];
    var todo := s;
    while todo != {}
      invariant l + InOrder(todo) == InOrder(s)
      decreases todo
    {
      var m := Smallest(todo);
      InOrderFrom(m, todo);
      Regrouped(l, m, InOrder(todo - {m}));
      l := l + [m];
      todo := todo - {m};
    }
    assert l + [] == l;
  }

  method WriteFields(out: Bytes, fs: seq<Field>) returns (r: Bytes)
    ensures r == out + Flat(fs)
  {
    r := out;
    for i := 0 to |fs|
      invariant r + Flat(fs[i..]) == out + Flat(fs)
    {
      assert r + (FieldBytes(fs[i]) + Flat(fs[i..][1..])) == (r + FieldBytes(fs[i])) + Flat(fs[i + 1..]);
      r := r + FieldBytes(fs[i]);
    }
    assert r + [] == r;
  }

  lemma TableFrom<V>(keys: seq<Bytes>, m: map<Bytes, V>, row: Row<V>, i: nat, out: Bytes)
    requires i < |keys| && forall k | k in keys :: k in m
    ensures out + Table(keys[i..], m, row) == (out + Flat(row(keys[i], m[keys[i]]))) + Table(keys[i + 1..], m, row)
  {
    hide Flat;
    assert keys[i..][1..] == keys[i + 1..];
  }

  lemma TableEnd<V>(keys: seq<Bytes>, m: map<Bytes, V>, row: Row<V>, out: Bytes)
    requires forall k | k in keys :: k in m
    ensures out + Table(keys[|keys|..], m, row) == out && Table(keys[0..], m, row) == Table(keys, m, row)
  {
    assert keys[|keys|..] == [] && keys[0..] == keys && out + [] == out;
  }

  /** A count, then every row in key order. */
  method WriteSection<V>(out: Bytes, m: map<Bytes, V>, row: Row<V>) returns (r: Bytes)
    ensures r == out + Section(m, row)
  {
    hide InOrder, Flat, Be, Table;
    var keys := SortedKeys(m.Keys);
    r := out + Be(|m|, 8);
    ghost var head := r;
    TableEnd(keys, m, row, r);
    for i := 0 to |keys|
      invariant r + Table(keys[i..], m, row) == head + Table(keys, m, row)
    {
      TableFrom(keys, m, row, i, r);
      r := WriteFields(r, row(keys[i], m[keys[i]]));
    }
    TableEnd(keys, m, row, r);
    assert r == out + (Be(|m|, 8) + Table(keys, m, row));
  }

  // ----- the contract ------------------------------------------------------------------------

  class ChainState {
    var accounts: map<Bytes, Hash>
    var nullifiers: map<Hash, U64>
    var escrows: map<Bytes, Escrow>

    function Value(): State
      reads this
    {
      State(accounts, nullifiers, escrows)
    }

    constructor ()
      ensures Value() == State(map[], map[], map[])
    {
      accounts, nullifiers, escrows := map[], map[], map[];
    }

    method OpenAccount(handle: Bytes, commitment: Hash) returns (r: Reply)
      modifies this
      ensures (Value(), r) == Step(old(Value()), Open(handle, commitment))
    {
      accounts := accounts[handle := commitment];
      return Success(Delta(0, 1, 32, 0));
    }

    /** All checks come before all writes. */
    method SettleInstruction(nullifier: Hash, deadline: U64, now: U64, moves: seq<Move>) returns (r: Reply)
      modifies this
      ensures (Value(), r) == Step(old(Value()), Settle(nullifier, deadline, now, moves))
    {
      if now > deadline {
        return Failure(Expired(deadline, now));
      }
      if nullifier in nullifiers {
        return Failure(NullifierSeen);
      }
      for i := 0 to |moves|
        invariant Value() == old(Value())
        invariant forall j | 0 <= j < i :: moves[j].0 in accounts
      {
        if moves[i].0 !in accounts {
          return Failure(UnknownAccount);
        }
      }
      ghost var before := accounts;
      for i := 0 to |moves|
        invariant accounts == Moved(before, moves[..i])
        invariant nullifiers == old(nullifiers) && escrows == old(escrows)
      {
        assert moves[..i + 1][..i] == moves[..i];
        accounts := accounts[moves[i].0 := moves[i].1];
      }
      assert moves[..|moves|] == moves;
      nullifiers := nullifiers[nullifier := deadline];
      return Success(Delta(|moves| + 1, |moves| + 1, |moves| * 32 + 32 + 8, 1));
    }

    method PrepareLeg(leg: Bytes, payer: Bytes, payee: Bytes, remainder: Hash, held: Hash, deadline: U64)
        returns (r: Reply)
      modifies this
      ensures (Value(), r) == Step(old(Value()), Prepare(leg, payer, payee, remainder, held, deadline))
    {
      if payer !in accounts || payee !in accounts {
        return Failure(UnknownAccount);
      }
      if leg in escrows {
        return Failure(NullifierSeen);
      }
      accounts := accounts[payer := remainder];
      escrows := escrows[leg := Escrow(payer, payee, held, deadline)];
      return Success(Delta(2, 2, 96, 0));
    }

    method ClaimLeg(leg: Bytes, credited: Hash, now: U64) returns (r: Reply)
      modifies this
      ensures (Value(), r) == Step(old(Value()), Claim(leg, credited, now))
    {
      if leg !in escrows {
        return Failure(UnknownAccount);
      }
      var escrow := escrows[leg];
      if now > escrow.deadline {
        return Failure(Expired(escrow.deadline, now));
      }
      accounts := accounts[escrow.payee := credited];
      escrows := escrows - {leg};
      return Success(Delta(2, 2, 32, 0));
    }

    method UnwindLeg(leg: Bytes, returned: Hash, now: U64) returns (r: Reply)
      modifies this
      ensures (Value(), r) == Step(old(Value()), Unwind(leg, returned, now))
    {
      if leg !in escrows {
        return Failure(UnknownAccount);
      }
      var escrow := escrows[leg];
      if now <= escrow.deadline {
        return Failure(Expired(escrow.deadline, now));
      }
      accounts := accounts[escrow.payer := returned];
      escrows := escrows - {leg};
      return Success(Delta(2, 2, 32, 0));
    }

    /** Forget expired nullifiers; the reply is how many were forgotten. */
    method PruneExpired(now: U64) returns (dropped: nat)
      modifies this
      ensures Value() == Step(old(Value()), Prune(now)).0
      ensures dropped == |old(nullifiers)| - |nullifiers|
    {
      var before := |nullifiers|;
      var todo := nullifiers.Keys;
      ghost var all := nullifiers;
      while todo != {}
        invariant accounts == old(accounts) && escrows == old(escrows)
        invariant todo <= nullifiers.Keys <= all.Keys
        invariant forall n | n in nullifiers :: nullifiers[n] == all[n]
        invariant forall n | n in all && n !in todo :: n in nullifiers <==> all[n] >= now
        invariant |nullifiers| <= before
        decreases todo
      {
        var n :| n in todo;
        if nullifiers[n] < now {
          nullifiers := nullifiers - {n};
          assert nullifiers.Keys <= all.Keys;
          Smaller(nullifiers, all);
        }
        todo := todo - {n};
      }
      assert nullifiers == Kept(all, now);
      return before - |nullifiers|;
    }

    method Serve(call: Call) returns (r: Reply)
      modifies this
      ensures (Value(), r) == Step(old(Value()), call)
    {
      match call
      case Open(handle, commitment) => r := OpenAccount(handle, commitment);
      case Settle(nullifier, deadline, now, moves) => r := SettleInstruction(nullifier, deadline, now, moves);
      case Prepare(leg, payer, payee, remainder, held, deadline) =>
        r := PrepareLeg(leg, payer, payee, remainder, held, deadline);
      case Claim(leg, credited, now) => r := ClaimLeg(leg, credited, now);
      case Unwind(leg, returned, now) => r := UnwindLeg(leg, returned, now);
      case Prune(now) =>
        var _ := PruneExpired(now);
        r := Success(Delta(0, 0, 0, 0));
    }

    /** Over a whole run the object gives the states and replies that the properties of runs are about. */
    method ServeAll(calls: seq<Call>) returns (replies: seq<Reply>)
      modifies this
      ensures Value() == After(old(Value()), calls) && |replies| == |calls|
      ensures forall i | 0 <= i < |calls| :: replies[i] == ReplyAt(old(Value()), calls, i)
    {
      hide Step;
      replies := [];
      for i := 0 to |calls|
        invariant Value() == After(old(Value()), calls[..i]) && |replies| == i
        invariant forall j | 0 <= j < i :: replies[j] == ReplyAt(old(Value()), calls, j)
      {
        assert calls[..i + 1] == calls[..i] + [calls[i]];
        AfterMore(old(Value()), calls[..i], calls[i]);
        var r := Serve(calls[i]);
        replies := replies + [r];
      }
      assert calls[..|calls|] == calls;
    }

    method RootBytes() returns (bytes: Bytes)
      ensures bytes == Preimage(Value())
    {
      hide Section;
      bytes := WriteSection<Bytes>(STATE_DOMAIN, accounts, AccountRow);
      bytes := WriteSection<nat>(bytes, nullifiers, NullifierRow);
      bytes := WriteSection<Escrow>(bytes, escrows, EscrowRow);
    }
  }

  lemma Smaller<K, V>(m: map<K, V>, n: map<K, V>)
    requires m.Keys <= n.Keys
    ensures |m| <= |n|
  {
    assert n.Keys == m.Keys + (n.Keys - m.Keys);
    assert |m| == |m.Keys| && |n| == |n.Keys|;
  }
}
