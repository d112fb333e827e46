/** The per-Gateway lock: reference-counted entries, each with a one-slot token
    channel, under arbitrary interleaving and cancellation of callers. */
module Coordination {
  type UID = string
  type CallId = nat
  type EntryId = nat

  /** `tokens` is what the channel holds; its capacity is one. */
  datatype Entry = Entry(uid: UID, tokens: int, refs: int)

  /** Where one acquire call stands. `Holding` is between a successful return and
      the first use of the returned release function. */
  datatype Phase =
    | Waiting(entry: EntryId)
    | Took(entry: EntryId)
    | Holding(entry: EntryId)
    | PuttingBack(entry: EntryId)
    | Leaving(entry: EntryId)
    | Finished

  datatype State = State(entries: map<UID, EntryId>, heap: map<EntryId, Entry>, calls: map<CallId, Phase>)

  const CAPACITY := 1

  predicate Uses(p: Phase, e: EntryId)
  {
    !p.Finished? && p.entry == e
  }

  predicate OwnsToken(p: Phase, e: EntryId)
  {
    (p.Took? || p.Holding? || p.PuttingBack?) && p.entry == e
  }

  function Users(calls: map<CallId, Phase>, e: EntryId): set<CallId>
  {
    set c | c in calls && Uses(calls[c], e)
  }

  function Owners(calls: map<CallId, Phase>, e: EntryId): set<CallId>
  {
    set c | c in calls && OwnsToken(calls[c], e)
  }

  // ----- atomic steps -----

  datatype Step =
    | Refuse(call: CallId)                              // empty UID or cancelled context
    | Retain(call: CallId, uid: UID, unused: EntryId)    // under the mutex
    | Take(call: CallId)                                // receive from the channel
    | Commit(call: CallId)                              // context still alive: acquire returns
    | Cancel(call: CallId)                              // context done, before or after the token
    | Release(call: CallId)                             // the returned function, any number of times
    | PutBack(call: CallId)                             // send to the channel
    | Leave(call: CallId)                               // under the mutex

  predicate Enabled(s: State, step: Step)
  {
    match step
    case Refuse(c) => c !in s.calls
    case Retain(c, uid, unused) => c !in s.calls && uid != "" && unused !in s.heap
    case Take(c) => c in s.calls && s.calls[c].Waiting? && s.calls[c].entry in s.heap && s.heap[s.calls[c].entry].tokens > 0
    case Commit(c) => c in s.calls && s.calls[c].Took?
    case Cancel(c) => c in s.calls && (s.calls[c].Waiting? || s.calls[c].Took?)
    case Release(c) => c in s.calls
    case PutBack(c) =>
      c in s.calls && s.calls[c].PuttingBack? && s.calls[c].entry in s.heap && s.heap[s.calls[c].entry].tokens < CAPACITY
    case Leave(c) => c in s.calls && s.calls[c].Leaving? && s.calls[c].entry in s.heap
  }

  function Move(s: State, c: CallId, p: Phase): State
  {
    s.(calls := s.calls[c := p])
  }

  function AddToken(s: State, e: EntryId, n: int): State
    requires e in s.heap
  {
    s.(heap := s.heap[e := s.heap[e].(tokens := s.heap[e].tokens + n)])
  }

  function RetainEntry(s: State, uid: UID, unused: EntryId): State
  {
    if uid in s.entries && s.entries[uid] in s.heap then
      var e := s.entries[uid];
      s.(heap := s.heap[e := s.heap[e].(refs := s.heap[e].refs + 1)])
    else
      s.(entries := s.entries[uid := unused], heap := s.heap[unused := Entry(uid, 1, 1)])
  }

  function DropReference(s: State, e: EntryId): State
    requires e in s.heap
  {
    var entry := s.heap[e].(refs := s.heap[e].refs - 1);
    var s' := s.(heap := s.heap[e := entry]);
    if entry.refs == 0 && entry.uid in s.entries && s.entries[entry.uid] == e then
      s'.(entries := s.entries - {entry.uid})
    else s'
  }

  function Next(s: State, step: Step): State
    requires Enabled(s, step)
  {
    match step
    case Refuse(c) => Move(s, c, Finished)
    case Retain(c, uid, unused) =>
      var s' := RetainEntry(s, uid, unused);
      Move(s', c, Waiting(if uid in s'.entries then s'.entries[uid] else unused))
    case Take(c) => Move(AddToken(s, s.calls[c].entry, -1), c, Took(s.calls[c].entry))
    case Commit(c) => Move(s, c, Holding(s.calls[c].entry))
    case Cancel(c) =>
      Move(s, c, if s.calls[c].Took? then PuttingBack(s.calls[c].entry) else Leaving(s.calls[c].entry))
    case Release(c) => if s.calls[c].Holding? then Move(s, c, PuttingBack(s.calls[c].entry)) else s
    case PutBack(c) => Move(AddToken(s, s.calls[c].entry, 1), c, Leaving(s.calls[c].entry))
    case Leave(c) => Move(DropReference(s, s.calls[c].entry), c, Finished)
  }

  // ----- the invariant -----

  /** Counts are right: one token in the channel or with one owner, and one
      reference per call that has not left. */
  ghost predicate EntryOk(s: State, e: EntryId)
    requires e in s.heap
  {
    s.heap[e].refs == |Users(s.calls, e)| && s.heap[e].tokens + |Owners(s.calls, e)| == 1 && s.heap[e].tokens >= 0 &&
    (s.heap[e].refs > 0 ==> s.heap[e].uid in s.entries && s.entries[s.heap[e].uid] == e)
  }

  ghost predicate Inv(s: State)
  {
    (forall e :: e in s.heap ==> EntryOk(s, e)) &&
    (forall uid :: uid in s.entries ==>
      s.entries[uid] in s.heap && s.heap[s.entries[uid]].uid == uid && s.heap[s.entries[uid]].refs > 0) &&
    (forall c :: c in s.calls && !s.calls[c].Finished? ==> s.calls[c].entry in s.heap)
  }

  lemma OneMore<T>(a: set<T>, b: set<T>, x: T, now: bool)
    requires b == if now then a + {x} else a - {x}
    ensures |b| == |a| + Weight(now) - Weight(x in a)
  {
    assert a == (a - {x}) + if x in a then {x} else {};
  }

  lemma UsersAfter(calls: map<CallId, Phase>, c: CallId, p: Phase, e: EntryId)
    ensures |Users(calls[c := p], e)| == |Users(calls, e)| + Weight(Uses(p, e)) - Weight(c in calls && Uses(calls[c], e))
  {
    hide Uses;
    assert Users(calls[c := p], e) == if Uses(p, e) then Users(calls, e) + {c} else Users(calls, e) - {c};
    OneMore(Users(calls, e), Users(calls[c := p], e), c, Uses(p, e));
  }

  lemma OwnersAfter(calls: map<CallId, Phase>, c: CallId, p: Phase, e: EntryId)
    ensures |Owners(calls[c := p], e)| ==
            |Owners(calls, e)| + Weight(OwnsToken(p, e)) - Weight(c in calls && OwnsToken(calls[c], e))
  {
    hide OwnsToken;
    assert Owners(calls[c := p], e) == if OwnsToken(p, e) then Owners(calls, e) + {c} else Owners(calls, e) - {c};
    OneMore(Owners(calls, e), Owners(calls[c := p], e), c, OwnsToken(p, e));
  }

  /** Moving one call changes the counts of the entries it leaves and joins only. */
  lemma CountsAfter(calls: map<CallId, Phase>, c: CallId, p: Phase, e: EntryId)
    ensures var calls' := calls[c := p];
            |Users(calls', e)| == |Users(calls, e)| + Weight(Uses(p, e)) - Weight(c in calls && Uses(calls[c], e)) &&
            |Owners(calls', e)| == |Owners(calls, e)| + Weight(OwnsToken(p, e)) - Weight(c in calls && OwnsToken(calls[c], e))
  {
    hide Uses, OwnsToken, Weight, Users, Owners;
    UsersAfter(calls, c, p, e);
    OwnersAfter(calls, c, p, e);
  }

  function Weight(b: bool): int
  {
    if b then 1 else 0
  }

  /** A user of an entry makes its reference count positive. */
  lemma UserCounts(s: State, c: CallId)
    requires Inv(s) && c in s.calls && !s.calls[c].Finished?
    ensures var e := s.calls[c].entry;
            e in s.heap && s.heap[e].refs > 0 && (OwnsToken(s.calls[c], e) ==> s.heap[e].tokens == 0)
  {
    var e := s.calls[c].entry;
    assert c in Users(s.calls, e);
    if OwnsToken(s.calls[c], e) {
      assert c in Owners(s.calls, e);
    }
  }

  lemma MoveKeepsInv(s: State, c: CallId, p: Phase)
    requires Inv(s) && c in s.calls && !s.calls[c].Finished? && Uses(p, s.calls[c].entry)
    requires OwnsToken(p, s.calls[c].entry) <==> OwnsToken(s.calls[c], s.calls[c].entry)
    ensures Inv(Move(s, c, p))
  {
    var s' := Move(s, c, p);
    forall e | e in s'.heap ensures EntryOk(s', e) {
      assert EntryOk(s, e);
      CountsAfter(s.calls, c, p, e);
    }
  }

  lemma RefuseKeepsInv(s: State, c: CallId)
    requires Inv(s) && c !in s.calls
    ensures Inv(Move(s, c, Finished))
  {
    var s' := Move(s, c, Finished);
    forall e | e in s'.heap ensures EntryOk(s', e) {
      assert EntryOk(s, e);
      CountsAfter(s.calls, c, Finished, e);
    }
  }

  lemma NewEntryUnused(s: State, e: EntryId)
    requires Inv(s) && e !in s.heap
    ensures Users(s.calls, e) == {} && Owners(s.calls, e) == {}
  {
  }

  lemma JoinKeepsInv(s: State, c: CallId, uid: UID)
    requires Inv(s) && c !in s.calls && uid in s.entries
    ensures s.entries[uid] in s.heap
    ensures var e := s.entries[uid];
            Inv(Move(s.(heap := s.heap[e := s.heap[e].(refs := s.heap[e].refs + 1)]), c, Waiting(e)))
  {
    var joined := s.entries[uid];
    var s' := Move(s.(heap := s.heap[joined := s.heap[joined].(refs := s.heap[joined].refs + 1)]), c, Waiting(joined));
    forall e | e in s'.heap ensures EntryOk(s', e) {
      CountsAfter(s.calls, c, Waiting(joined), e);
      assert EntryOk(s, e);
    }
  }

  lemma CreateKeepsInv(s: State, c: CallId, uid: UID, unused: EntryId)
    requires Inv(s) && c !in s.calls && uid !in s.entries && unused !in s.heap
    ensures Inv(Move(s.(entries := s.entries[uid := unused], heap := s.heap[unused := Entry(uid, 1, 1)]), c, Waiting(unused)))
  {
    var s' := Move(s.(entries := s.entries[uid := unused], heap := s.heap[unused := Entry(uid, 1, 1)]), c, Waiting(unused));
    NewEntryUnused(s, unused);
    forall e | e in s'.heap ensures EntryOk(s', e) {
      CountsAfter(s.calls, c, Waiting(unused), e);
      if e != unused {
        assert EntryOk(s, e);
      }
    }
  }

  lemma RetainKeepsInv(s: State, c: CallId, uid: UID, unused: EntryId)
    requires Inv(s) && Enabled(s, Retain(c, uid, unused))
    ensures Inv(Next(s, Retain(c, uid, unused)))
  {
    hide Inv;
    if uid in s.entries {
      JoinKeepsInv(s, c, uid);
    } else {
      CreateKeepsInv(s, c, uid, unused);
    }
  }

  lemma TokenMoves(s: State, c: CallId, n: int, p: Phase)
    requires Inv(s) && c in s.calls && !s.calls[c].Finished? && s.calls[c].entry in s.heap && Uses(p, s.calls[c].entry)
    requires n == Weight(OwnsToken(s.calls[c], s.calls[c].entry)) - Weight(OwnsToken(p, s.calls[c].entry))
    requires s.heap[s.calls[c].entry].tokens + n >= 0
    ensures Inv(Move(AddToken(s, s.calls[c].entry, n), c, p))
  {
    var s' := Move(AddToken(s, s.calls[c].entry, n), c, p);
    forall e | e in s'.heap ensures EntryOk(s', e) {
      assert EntryOk(s, e);
      CountsAfter(s.calls, c, p, e);
    }
  }

  lemma LeaveKeepsInv(s: State, c: CallId)
    requires Inv(s) && Enabled(s, Leave(c))
    ensures Inv(Next(s, Leave(c)))
  {
    var s' := Next(s, Leave(c));
    var gone := s.calls[c].entry;
    UserCounts(s, c);
    forall e | e in s'.heap ensures EntryOk(s', e) {
      assert EntryOk(s, e) && EntryOk(s, gone);
      CountsAfter(s.calls, c, Finished, e);
    }
    forall uid | uid in s'.entries
      ensures s'.entries[uid] in s'.heap && s'.heap[s'.entries[uid]].uid == uid && s'.heap[s'.entries[uid]].refs > 0
    {
      assert uid in s.entries && s.entries[uid] in s.heap;
    }
  }

  /** Every step keeps the invariant. */
  lemma StepKeepsInv(s: State, step: Step)
    requires Inv(s) && Enabled(s, step)
    ensures Inv(Next(s, step))
  {
    hide Inv;
    match step {
      case Refuse(c) => RefuseKeepsInv(s, c);
      case Retain(c, uid, unused) => RetainKeepsInv(s, c, uid, unused);
      case Take(c) => TokenMoves(s, c, -1, Took(s.calls[c].entry));
      case Commit(c) => MoveKeepsInv(s, c, Holding(s.calls[c].entry));
      case Cancel(c) => MoveKeepsInv(s, c, if s.calls[c].Took? then PuttingBack(s.calls[c].entry) else Leaving(s.calls[c].entry));
      case Release(c) =>
        if s.calls[c].Holding? {
          MoveKeepsInv(s, c, PuttingBack(s.calls[c].entry));
        }
      case PutBack(c) =>
        UserCounts(s, c);
        TokenMoves(s, c, 1, Leaving(s.calls[c].entry));
      case Leave(c) => LeaveKeepsInv(s, c);
    }
  }

  // ----- whole runs -----

  const INITIAL := State(map[], map[], map[])

  /** The states reached by executing enabled steps in order. */
  ghost predicate IsRun(s: State, steps: seq<Step>, s': State)
    decreases |steps|
  {
    if steps == [] then s' == s else Enabled(s, steps[0]) && IsRun(Next(s, steps[0]), steps[1..], s')
  }

  lemma {:induction false} RunKeepsInv(s: State, steps: seq<Step>, s': State)
    requires Inv(s) && IsRun(s, steps, s')
    ensures Inv(s')
    decreases |steps|
  {
    hide Inv, Enabled, Next;
    if steps != [] {
      StepKeepsInv(s, steps[0]);
      RunKeepsInv(Next(s, steps[0]), steps[1..], s');
    }
  }

  lemma SameOwner(owners: set<CallId>, a: CallId, b: CallId)
    requires |owners| <= 1 && a in owners && b in owners
    ensures a == b
  {
    assert |owners - {a}| == |owners| - 1;
    assert owners - {a} == {};
  }

  ghost predicate Holds(s: State, c: CallId, uid: UID)
  {
    c in s.calls && s.calls[c].Holding? && s.calls[c].entry in s.heap && s.heap[s.calls[c].entry].uid == uid
  }

  ghost predicate Referenced(s: State, e: EntryId, uid: UID)
  {
    e in s.heap && s.heap[e].refs > 0 && s.heap[e].uid == uid
  }

  /** Over every run, at most one referenced entry exists per UID. */
  lemma OneEntryPerGateway(steps: seq<Step>, s: State, e: EntryId, f: EntryId, uid: UID)
    requires IsRun(INITIAL, steps, s) && Referenced(s, e, uid) && Referenced(s, f, uid)
    ensures e == f
  {
    RunKeepsInv(INITIAL, steps, s);
    assert EntryOk(s, e) && EntryOk(s, f);
  }

  /** Over every run, at most one call holds a given Gateway UID. */
  lemma MutualExclusion(steps: seq<Step>, s: State, a: CallId, b: CallId, uid: UID)
    requires IsRun(INITIAL, steps, s) && Holds(s, a, uid) && Holds(s, b, uid)
    ensures a == b
  {
    RunKeepsInv(INITIAL, steps, s);
    UserCounts(s, a);
    UserCounts(s, b);
    var e := s.calls[a].entry;
    OneEntryPerGateway(steps, s, e, s.calls[b].entry, uid);
    assert EntryOk(s, e);
    SameOwner(Owners(s.calls, e), a, b);
  }

  /** Over every run the token is neither lost nor duplicated, and references are
      counted exactly. */
  lemma Conservation(steps: seq<Step>, s: State, e: EntryId)
    requires IsRun(INITIAL, steps, s) && e in s.heap
    ensures s.heap[e].tokens + |Owners(s.calls, e)| == 1 && s.heap[e].refs == |Users(s.calls, e)|
  {
    RunKeepsInv(INITIAL, steps, s);
    assert EntryOk(s, e);
  }

  /** Over every run, returning a token or a reference never blocks. */
  lemma ReturnsNeverBlock(steps: seq<Step>, s: State, c: CallId)
    requires IsRun(INITIAL, steps, s) && c in s.calls
    ensures s.calls[c].PuttingBack? ==> Enabled(s, PutBack(c))
    ensures s.calls[c].Leaving? ==> Enabled(s, Leave(c))
  {
    RunKeepsInv(INITIAL, steps, s);
    if !s.calls[c].Finished? {
      UserCounts(s, c);
    }
  }

  lemma EntryHasUser(s: State, uid: UID) returns (c: CallId)
    requires Inv(s) && uid in s.entries
    ensures c in s.calls && !s.calls[c].Finished?
  {
    assert EntryOk(s, s.entries[uid]);
    assert Users(s.calls, s.entries[uid]) != {};
    c :| c in Users(s.calls, s.entries[uid]);
  }

  /** When every call has left, the table is empty. */
  lemma NoLeak(steps: seq<Step>, s: State)
    requires IsRun(INITIAL, steps, s) && forall c :: c in s.calls ==> s.calls[c].Finished?
    ensures s.entries == map[]
  {
    RunKeepsInv(INITIAL, steps, s);
    if uid :| uid in s.entries {
      var c := EntryHasUser(s, uid);
      assert false;
    }
  }

  /** Nothing gets stuck: a waiting call can take the token at once, or another
      call has it and can always move on by itself. */
  lemma WaiterCanProceed(steps: seq<Step>, s: State, c: CallId)
    requires IsRun(INITIAL, steps, s) && c in s.calls && s.calls[c].Waiting?
    ensures Enabled(s, Take(c)) ||
            exists o :: o in s.calls && o != c && OwnsToken(s.calls[o], s.calls[c].entry) &&
              (Enabled(s, Commit(o)) || Enabled(s, PutBack(o)) || s.calls[o].Holding?)
  {
    RunKeepsInv(INITIAL, steps, s);
    UserCounts(s, c);
    var e := s.calls[c].entry;
    Conservation(steps, s, e);
    hide Inv, IsRun;
    if s.heap[e].tokens <= 0 {
      assert Owners(s.calls, e) != {};
      var o :| o in Owners(s.calls, e);
      ReturnsNeverBlock(steps, s, o);
    }
  }

  /** The release function starts giving back once, for a call that holds; in every
      other phase, and so when called again, it changes nothing. */
  lemma ReleaseTwice(s: State, c: CallId)
    requires Enabled(s, Release(c))
    ensures var s' := Next(s, Release(c));
            Enabled(s', Release(c)) && Next(s', Release(c)) == s' && s'.entries == s.entries && s'.heap == s.heap &&
            s'.calls == if s.calls[c].Holding? then s.calls[c := PuttingBack(s.calls[c].entry)] else s.calls
  {
  }

  // ----- what acquiring, releasing and cancelling achieve -----

  /** The table and the heap without one reference to an entry. */
  function Without(s: State, c: CallId, e: EntryId, tokens: int): State
    requires e in s.heap
  {
    State(if s.heap[e].refs == 1 then s.entries - {s.heap[e].uid} else s.entries,
          s.heap[e := Entry(s.heap[e].uid, tokens, s.heap[e].refs - 1)], s.calls[c := Finished])
  }

  lemma LeaveDrops(s: State, c: CallId, e: EntryId)
    requires c in s.calls && s.calls[c] == Leaving(e) && e in s.heap
    requires s.heap[e].uid in s.entries && s.entries[s.heap[e].uid] == e
    ensures Enabled(s, Leave(c)) && Next(s, Leave(c)) == Without(s, c, e, s.heap[e].tokens)
  {
  }

  lemma PutBackThenLeave(s: State, c: CallId, e: EntryId)
    requires c in s.calls && s.calls[c] == PuttingBack(e) && e in s.heap && s.heap[e].tokens == 0
    requires s.heap[e].uid in s.entries && s.entries[s.heap[e].uid] == e
    ensures Enabled(s, PutBack(c)) && Enabled(Next(s, PutBack(c)), Leave(c)) &&
            Next(Next(s, PutBack(c)), Leave(c)) == Without(s, c, e, 1)
  {
    var s1 := Next(s, PutBack(c));
    LeaveDrops(s1, c, e);
    assert s1.heap[e := Entry(s.heap[e].uid, 1, s.heap[e].refs - 1)] == s.heap[e := Entry(s.heap[e].uid, 1, s.heap[e].refs - 1)];
    assert s1.calls[c := Finished] == s.calls[c := Finished];
  }

  /** Over every run, the release function of a holder runs through: it ends with
      the call gone, the token back in the channel, one reference fewer, and the UID
      forgotten exactly when that was the last one. Nothing else changes. */
  lemma ReleaseGivesBack(steps: seq<Step>, s: State, c: CallId, uid: UID)
    requires IsRun(INITIAL, steps, s) && Holds(s, c, uid)
    ensures var e := s.calls[c].entry;
            var s' := State(if s.heap[e].refs == 1 then s.entries - {uid} else s.entries,
                            s.heap[e := Entry(uid, 1, s.heap[e].refs - 1)], s.calls[c := Finished]);
            IsRun(s, [Release(c), PutBack(c), Leave(c)], s')
  {
    RunKeepsInv(INITIAL, steps, s);
    UserCounts(s, c);
    var e := s.calls[c].entry;
    assert EntryOk(s, e);
    hide Inv, EntryOk;
    PutBackThenLeave(Next(s, Release(c)), c, e);
    assert s.calls[c := PuttingBack(e)][c := Finished] == s.calls[c := Finished];
    ThreeSteps(s, Release(c), PutBack(c), Leave(c));
  }

  lemma TwoSteps(s: State, a: Step, b: Step)
    requires Enabled(s, a) && Enabled(Next(s, a), b)
    ensures IsRun(s, [a, b], Next(Next(s, a), b))
  {
    hide Enabled, Next;
    var s' := Next(Next(s, a), b);
    assert [a, b][1..] == [b] && [b][1..] == [];
    assert IsRun(s', [], s');
    assert IsRun(Next(s, a), [b], s');
  }

  lemma ThreeSteps(s: State, a: Step, b: Step, c: Step)
    requires Enabled(s, a) && Enabled(Next(s, a), b) && Enabled(Next(Next(s, a), b), c)
    ensures IsRun(s, [a, b, c], Next(Next(Next(s, a), b), c))
  {
    hide Enabled, Next;
    assert [a, b, c][1..] == [b, c];
    TwoSteps(Next(s, a), b, c);
  }

  /** A waiting call whose entry has its token acquires: it takes the token, commits,
      and then holds the entry's UID. */
  lemma WaiterAcquires(s: State, c: CallId)
    requires c in s.calls && s.calls[c].Waiting? && s.calls[c].entry in s.heap && s.heap[s.calls[c].entry].tokens > 0
    ensures var e := s.calls[c].entry;
            var s' := s.(heap := s.heap[e := s.heap[e].(tokens := s.heap[e].tokens - 1)], calls := s.calls[c := Holding(e)]);
            IsRun(s, [Take(c), Commit(c)], s') && Holds(s', c, s.heap[e].uid)
  {
    var e := s.calls[c].entry;
    var s' := Next(Next(s, Take(c)), Commit(c));
    assert s'.calls == s.calls[c := Holding(e)];
    TwoSteps(s, Take(c), Commit(c));
  }

  /** Retaining makes a new call wait on the one entry of its UID. */
  lemma RetainWaits(steps: seq<Step>, s: State, c: CallId, uid: UID, unused: EntryId)
    requires IsRun(INITIAL, steps, s) && Enabled(s, Retain(c, uid, unused))
    ensures var s' := Next(s, Retain(c, uid, unused));
            c in s'.calls && s'.calls[c].Waiting? && uid in s'.entries && s'.entries[uid] == s'.calls[c].entry &&
            s'.calls[c].entry in s'.heap && s'.heap[s'.calls[c].entry].uid == uid &&
            s'.heap[s'.calls[c].entry].refs == (if uid in s.entries && s.entries[uid] in s.heap then s.heap[s.entries[uid]].refs else 0) + 1 &&
            (uid !in s.entries ==> s'.heap[s'.calls[c].entry].tokens == 1)
  {
    RunKeepsInv(INITIAL, steps, s);
  }

  /** Acquiring an uncontended UID succeeds. */
  lemma AcquireHolds(steps: seq<Step>, s: State, c: CallId, uid: UID, unused: EntryId)
    requires IsRun(INITIAL, steps, s) && Enabled(s, Retain(c, uid, unused)) && uid !in s.entries
    ensures exists s' :: IsRun(s, [Retain(c, uid, unused), Take(c), Commit(c)], s') && Holds(s', c, uid)
  {
    RetainWaits(steps, s, c, uid, unused);
    hide Inv;
    var s1 := Next(s, Retain(c, uid, unused));
    WaiterAcquires(s1, c);
    ThreeSteps(s, Retain(c, uid, unused), Take(c), Commit(c));
    var s' := Next(Next(s1, Take(c)), Commit(c));
    assert Holds(s', c, uid);
  }

  /** A cancelled call leaves, gives back the token if it had taken it, and its
      reference. */
  lemma CancelGivesBack(steps: seq<Step>, s: State, c: CallId)
    requires IsRun(INITIAL, steps, s) && c in s.calls && (s.calls[c].Waiting? || s.calls[c].Took?)
    ensures s.calls[c].entry in s.heap
    ensures var e := s.calls[c].entry;
            var tokens := if s.calls[c].Took? then 1 else s.heap[e].tokens;
            var s' := State(if s.heap[e].refs == 1 then s.entries - {s.heap[e].uid} else s.entries,
                            s.heap[e := Entry(s.heap[e].uid, tokens, s.heap[e].refs - 1)], s.calls[c := Finished]);
            IsRun(s, if s.calls[c].Took? then [Cancel(c), PutBack(c), Leave(c)] else [Cancel(c), Leave(c)], s')
  {
    RunKeepsInv(INITIAL, steps, s);
    UserCounts(s, c);
    var e := s.calls[c].entry;
    assert EntryOk(s, e);
    hide Inv, EntryOk;
    var s1 := Next(s, Cancel(c));
    assert s1.calls[c := Finished] == s.calls[c := Finished];
    if s.calls[c].Took? {
      PutBackThenLeave(s1, c, e);
      ThreeSteps(s, Cancel(c), PutBack(c), Leave(c));
    } else {
      LeaveDrops(s1, c, e);
      TwoSteps(s, Cancel(c), Leave(c));
    }
  }

  /** Hand-over: after the holder's release any call waiting on the entry can take
      the token and then holds the UID. */
  lemma HandOver(steps: seq<Step>, s: State, a: CallId, b: CallId, uid: UID)
    requires IsRun(INITIAL, steps, s) && Holds(s, a, uid) && b in s.calls && s.calls[b] == Waiting(s.calls[a].entry)
    ensures exists released, s' ::
              IsRun(s, [Release(a), PutBack(a), Leave(a)], released) && IsRun(released, [Take(b), Commit(b)], s') &&
              Holds(s', b, uid) && !Holds(s', a, uid)
  {
    ReleaseGivesBack(steps, s, a, uid);
    RunKeepsInv(INITIAL, steps, s);
    var e := s.calls[a].entry;
    assert EntryOk(s, e);
    TwoUsers(s, a, b, e);
    hide Inv;
    var released := State(if s.heap[e].refs == 1 then s.entries - {uid} else s.entries,
                          s.heap[e := Entry(uid, 1, s.heap[e].refs - 1)], s.calls[a := Finished]);
    assert b != a;
    WaiterAcquires(released, b);
  }

  lemma TwoUsers(s: State, a: CallId, b: CallId, e: EntryId)
    requires a in s.calls && b in s.calls && Uses(s.calls[a], e) && Uses(s.calls[b], e) && a != b
    ensures |Users(s.calls, e)| >= 2
  {
    assert {a, b} <= Users(s.calls, e);
    assert |Users(s.calls, e) - {a, b}| >= 0;
    assert Users(s.calls, e) == {a, b} + (Users(s.calls, e) - {a, b});
  }

  ghost predicate ReachesHold(s: State, c: CallId, uid: UID)
  {
    exists more, s' :: IsRun(s, more, s') && Holds(s', c, uid)
  }

  lemma OneStepCloser(s: State, step: Step, c: CallId, uid: UID)
    requires Enabled(s, step) && ReachesHold(Next(s, step), c, uid)
    ensures ReachesHold(s, c, uid)
  {
    hide Enabled, Next, Holds;
    var more, s' :| IsRun(Next(s, step), more, s') && Holds(s', c, uid);
    assert ([step] + more)[1..] == more;
    assert IsRun(s, [step] + more, s');
  }

  /** From the owner's phase to a free token. */
  lemma OwnerGivesWay(s: State, o: CallId, c: CallId)
    requires Inv(s) && o in s.calls && c in s.calls && s.calls[c].Waiting? && OwnsToken(s.calls[o], s.calls[c].entry)
    ensures s.calls[c].entry in s.heap && ReachesHold(s, c, s.heap[s.calls[c].entry].uid)
    decreases if s.calls[o].Took? then 2 else if s.calls[o].Holding? then 1 else 0
  {
    UserCounts(s, o);
    var e := s.calls[c].entry;
    var uid := s.heap[e].uid;
    var step := if s.calls[o].Took? then Commit(o) else if s.calls[o].Holding? then Release(o) else PutBack(o);
    StepKeepsInv(s, step);
    var s' := Next(s, step);
    hide Inv, ReachesHold;
    assert s'.calls[c] == s.calls[c] && s'.heap[e].uid == uid;
    if step.PutBack? {
      WaiterAcquires(s', c);
      HeldIsReached(s', c);
    } else {
      OwnerGivesWay(s', o, c);
    }
    OneStepCloser(s, step, c, uid);
  }

  lemma HeldIsReached(s: State, c: CallId)
    requires c in s.calls && s.calls[c].Waiting? && s.calls[c].entry in s.heap && s.heap[s.calls[c].entry].tokens > 0
    ensures ReachesHold(s, c, s.heap[s.calls[c].entry].uid)
  {
    WaiterAcquires(s, c);
  }

  /** No deadlock: from every reachable state every waiting call can still come to
      hold the UID it waits for. */
  lemma WaiterCanHold(steps: seq<Step>, s: State, c: CallId)
    requires IsRun(INITIAL, steps, s) && c in s.calls && s.calls[c].Waiting?
    ensures s.calls[c].entry in s.heap && ReachesHold(s, c, s.heap[s.calls[c].entry].uid)
  {
    RunKeepsInv(INITIAL, steps, s);
    UserCounts(s, c);
    var e := s.calls[c].entry;
    assert EntryOk(s, e);
    hide Inv, ReachesHold;
    if s.heap[e].tokens > 0 {
      HeldIsReached(s, c);
    } else {
      assert Owners(s.calls, e) != {};
      var o :| o in Owners(s.calls, e);
      OwnerGivesWay(s, o, c);
    }
  }

  lemma RoomForToken(s: State, c: CallId)
    requires Inv(s) && c in s.calls && s.calls[c].PuttingBack?
    ensures Enabled(s, PutBack(c))
  {
    UserCounts(s, c);
  }

  /** Creating an entry and then counting the first reference is one step. */
  lemma RetainedEntry(s: State, c: CallId, uid: UID, unused: EntryId)
    requires Inv(s) && Enabled(s, Retain(c, uid, unused))
    ensures uid in s.entries ==> s.entries[uid] in s.heap
    ensures var s' := Next(s, Retain(c, uid, unused));
            if uid in s.entries then
              var e := s.entries[uid];
              s' == s.(heap := s.heap[e := s.heap[e].(refs := s.heap[e].refs + 1)], calls := s.calls[c := Waiting(e)])
            else
              s' == State(s.entries[uid := unused], s.heap[unused := Entry(uid, 1, 0)][unused := Entry(uid, 1, 1)],
                          s.calls[c := Waiting(unused)])
  {
    assert s.heap[unused := Entry(uid, 1, 0)][unused := Entry(uid, 1, 1)] == s.heap[unused := Entry(uid, 1, 1)];
  }

  /** The shared object with its guarded fields; each method is one atomic step. */
  class Coordinator {
    var entries: map<UID, EntryId>
    var heap: map<EntryId, Entry>
    ghost var calls: map<CallId, Phase>

    constructor ()
      ensures Value() == INITIAL && Valid()
    {
      entries, heap, calls := map[], map[], map[];
    }

    ghost function Value(): State
      reads this
    {
      State(entries, heap, calls)
    }

    ghost predicate Valid()
      reads this
    {
      Inv(Value())
    }

    /** Finds or creates the entry and counts one more reference. */
    method RetainFor(ghost call: CallId, uid: UID, unused: EntryId) returns (entry: EntryId)
      requires Valid() && Enabled(Value(), Retain(call, uid, unused))
      modifies this
      ensures Valid() && Value() == Next(old(Value()), Retain(call, uid, unused))
      ensures call in calls && calls[call] == Waiting(entry)
    {
      RetainedEntry(Value(), call, uid, unused);
      StepKeepsInv(Value(), Retain(call, uid, unused));
      hide Inv, Next, Enabled;
      ghost var target := Next(Value(), Retain(call, uid, unused));
      if uid in entries {
        entry := entries[uid];
      } else {
        entry := unused;
        heap := heap[entry := Entry(uid, 1, 0)];
        entries := entries[uid := entry];
      }
      heap := heap[entry := heap[entry].(refs := heap[entry].refs + 1)];
      calls := calls[call := Waiting(entry)];
      assert Value() == target;
    }

    /** Receives the token; the caller waits until there is one. */
    method ReceiveToken(ghost call: CallId, entry: EntryId)
      requires Valid() && Enabled(Value(), Take(call)) && calls[call].entry == entry
      modifies this
      ensures Valid() && Value() == Next(old(Value()), Take(call))
    {
      StepKeepsInv(Value(), Take(call));
      hide Inv;
      heap := heap[entry := heap[entry].(tokens := heap[entry].tokens - 1)];
      calls := calls[call := Took(entry)];
    }

    /** Sends the token back; the channel always has room. */
    method SendToken(ghost call: CallId, entry: EntryId)
      requires Valid() && call in calls && calls[call] == PuttingBack(entry)
      modifies this
      ensures old(Enabled(Value(), PutBack(call)))
      ensures Valid() && Value() == Next(old(Value()), PutBack(call))
    {
      RoomForToken(Value(), call);
      StepKeepsInv(Value(), PutBack(call));
      hide Inv, Uses, OwnsToken;
      heap := heap[entry := heap[entry].(tokens := heap[entry].tokens + 1)];
      calls := calls[call := Leaving(entry)];
    }

    /** Gives up one reference and forgets the entry with the last one. */
    method ReleaseReference(ghost call: CallId, uid: UID, entry: EntryId)
      requires Valid() && call in calls && calls[call] == Leaving(entry) && entry in heap && heap[entry].uid == uid
      modifies this
      ensures old(Enabled(Value(), Leave(call)))
      ensures Valid() && Value() == Next(old(Value()), Leave(call))
    {
      StepKeepsInv(Value(), Leave(call));
      hide Inv;
      heap := heap[entry := heap[entry].(refs := heap[entry].refs - 1)];
      if heap[entry].refs == 0 && uid in entries && entries[uid] == entry {
        entries := entries - {uid};
      }
      calls := calls[call := Finished];
    }
  }
}
