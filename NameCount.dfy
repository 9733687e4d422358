/**
 The process-wide reference counter of sender names, as values: how one
 construction or destruction of a sender context changes the table, and what
 the table means after a whole history of them.
 */
module NameCount {

  /** The table: share name to the number of sender contexts counted for it. */
  type Counts = map<string, int>

  /** One event the counter sees: a sender context built or destroyed for a name. */
  datatype Op = Construct(name: string) | Destroy(name: string)

  /** The count of a name; a name never seen counts as 0. */
  function Count(counts: Counts, name: string): int {
    if name in counts then counts[name] else 0
  }

  /**
   The table after one event. Construction first inserts 0 for a new name and
   then adds one; destruction subtracts one with no lower bound (a missing name
   is inserted by the subscript and becomes -1). Entries are never erased.
   */
  function Apply(counts: Counts, op: Op): (r: Counts)
    ensures r.Keys == counts.Keys + {op.name}
    ensures op.Construct? ==> Count(r, op.name) == Count(counts, op.name) + 1
    ensures op.Destroy? ==> Count(r, op.name) == Count(counts, op.name) - 1
    ensures forall n :: n != op.name ==> Count(r, n) == Count(counts, n)
  {
    match op
    case Construct(n) => counts[n := Count(counts, n) + 1]
    case Destroy(n) => counts[n := Count(counts, n) - 1]
  }

  /** Destroying a context for `name` asks the protocol to release the name exactly when the count reaches 0. */
  predicate ReleasesName(counts: Counts, name: string) {
    Count(Apply(counts, Destroy(name)), name) == 0
  }

  /** The table after a history of events, starting from the empty table at process start. */
  function Replay(ops: seq<Op>): Counts
    decreases |ops|
  {
    if ops == [] then map[] else Apply(Replay(ops[..|ops| - 1]), ops[|ops| - 1])
  }

  /** The names of the sender contexts alive after a history: one occurrence per live context. */
  function Live(ops: seq<Op>): multiset<string>
    decreases |ops|
  {
    if ops == [] then multiset{}
    else
      var before := Live(ops[..|ops| - 1]);
      match ops[|ops| - 1]
      case Construct(n) => before + multiset{n}
      case Destroy(n) => before - multiset{n}
  }

  /**
   Every destruction destroys a context that is alive: in C++ a destructor runs
   only on an object that was constructed and not yet destroyed.
   */
  predicate Matched(ops: seq<Op>)
    decreases |ops|
  {
    ops == []
    || (var init, last := ops[..|ops| - 1], ops[|ops| - 1];
        Matched(init) && (last.Destroy? ==> last.name in Live(init)))
  }

  /** One step of a history: the table and the live contexts both follow its last event. */
  lemma LastStep(ops: seq<Op>)
    requires ops != []
    ensures Replay(ops) == Apply(Replay(ops[..|ops| - 1]), ops[|ops| - 1])
    ensures ops[|ops| - 1].Construct? ==> Live(ops) == Live(ops[..|ops| - 1]) + multiset{ops[|ops| - 1].name}
    ensures ops[|ops| - 1].Destroy? ==> Live(ops) == Live(ops[..|ops| - 1]) - multiset{ops[|ops| - 1].name}
  {
  }

  /**
   The counter's invariant, for one name: when every destruction matches a
   live context, the count of a name is the number of live contexts with that
   name, and so is never negative.
   */
  lemma {:induction false} CountIsLiveAt(ops: seq<Op>, name: string)
    requires Matched(ops)
    ensures Count(Replay(ops), name) == Live(ops)[name]
    decreases |ops|
  {
    if ops != [] {
      var k := |ops| - 1;
      var init, last := ops[..k], ops[k];
      CountIsLiveAt(init, name);
      LastStep(ops);
      if last.Destroy? && last.name == name {
        assert ops[..k] == init;
        assert name in Live(init);
      }
    }
  }

  /** The invariant for every name at once. */
  lemma CountIsLive(ops: seq<Op>)
    requires Matched(ops)
    ensures forall n :: Count(Replay(ops), n) == Live(ops)[n] >= 0
  {
    forall n ensures Count(Replay(ops), n) == Live(ops)[n] {
      CountIsLiveAt(ops, n);
    }
  }

  /**
   Under the invariant, destroying a live context releases its name exactly
   when it was the last live context with that name.
   */
  lemma ReleaseIffLastLive(ops: seq<Op>, name: string)
    requires Matched(ops) && name in Live(ops)
    ensures ReleasesName(Replay(ops), name) <==> Live(ops)[name] == 1
  {
    CountIsLiveAt(ops, name);
  }

  /**
   A history with equally many constructions and destructions of one name, each
   destruction matched, returns that name's count to exactly zero.
   */
  lemma BalancedReturnsToZero(ops: seq<Op>, name: string)
    requires Matched(ops)
    requires multiset(ops)[Construct(name)] == multiset(ops)[Destroy(name)]
    ensures Count(Replay(ops), name) == 0
  {
    CountIsLiveAt(ops, name);
    LiveOccurrences(ops, name);
  }

  /** The multiplicity of a name among the live contexts is its constructions minus its destructions. */
  lemma {:induction false} LiveOccurrences(ops: seq<Op>, name: string)
    requires Matched(ops)
    ensures Live(ops)[name] + multiset(ops)[Destroy(name)] == multiset(ops)[Construct(name)]
    decreases |ops|
  {
    if ops != [] {
      var k := |ops| - 1;
      var init, last := ops[..k], ops[k];
      LiveOccurrences(init, name);
      LastStep(ops);
      assert ops == init + [last];
      var before := multiset(init);
      assert multiset(ops) == before + multiset{last};
      if last == Construct(name) {
        assert Live(ops)[name] == Live(init)[name] + 1;
      } else if last == Destroy(name) {
        assert Live(ops)[name] == Live(init)[name] - 1;
      } else {
        assert Live(ops)[name] == Live(init)[name];
      }
    }
  }

  /**
   Two senders publishing "CamFeed": both constructions count up, only the
   second destruction releases the name. As written, each construction also
   calls the protocol's CreateSender (see the Sender module).
   */
  lemma CamFeedScenario()
    ensures var ops := [Construct("CamFeed"), Construct("CamFeed")];
      Count(Replay(ops[..1]), "CamFeed") == 1
      && Count(Replay(ops), "CamFeed") == 2
      && !ReleasesName(Replay(ops), "CamFeed")
      && ReleasesName(Replay(ops + [Destroy("CamFeed")]), "CamFeed")
  {
    var ops := [Construct("CamFeed"), Construct("CamFeed")];
    assert ops[..1][..0] == [];
    assert ops[..1] == [Construct("CamFeed")];
    assert ops[..1] == ops[..|ops| - 1];
    assert (ops + [Destroy("CamFeed")])[..2] == ops;
  }
}
