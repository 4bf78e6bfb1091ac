/** src/group.rs: the membership ledger. Records are replaced only by records with a larger
    clock, so ledgers that see the same records agree, as long as no two records of a member
    share a clock value. */
module Group {
  import opened Wrappers
  import opened Bytes

  datatype Status = Active | Removed

  datatype Member = Member(id: Text, status: Status, lamport: nat)

  type Ledger = map<Text, Member>

  ghost predicate LedgerOk(l: Ledger) {
    forall id :: id in l ==> l[id].id == id
  }

  // ---------- node ids ----------

  predicate HexDigit(c: byte) {
    48 <= c <= 57 || 65 <= c <= 70 || 97 <= c <= 102
  }

  /** What `u8::from_str_radix` takes of two characters: a sign may stand for the first digit. */
  predicate HexByte(a: byte, b: byte) {
    (HexDigit(a) || a == 43) && HexDigit(b)
  }

  /** The strings that parse as a `NodeId`. */
  predicate ValidId(id: Text) {
    |id| == 64 && forall i :: 0 <= i < 32 ==> HexByte(id[2 * i], id[2 * i + 1])
  }

  // ---------- the operations on a ledger ----------

  function Highest(l: Ledger, ids: seq<Text>): (n: nat)
    requires forall id :: id in ids ==> id in l
    ensures forall id :: id in ids ==> l[id].lamport <= n
    ensures n == 0 || exists id :: id in ids && l[id].lamport == n
  {
    if ids == [] then 0 else
      var rest := Highest(l, ids[1..]);
      if rest < l[ids[0]].lamport then l[ids[0]].lamport else rest
  }

  /** `next_lamport`: one more than any clock in the ledger. */
  function NextLamport(l: Ledger): (n: nat)
    ensures forall id :: id in l ==> l[id].lamport < n
    ensures n == 1 || exists id :: id in l && l[id].lamport + 1 == n
  {
    Highest(l, Sorted(l.Keys)) + 1
  }

  function Add(l: Ledger, id: Text): Ledger {
    if id in l && l[id].status == Active then l else l[id := Member(id, Active, NextLamport(l))]
  }

  function Drop(l: Ledger, id: Text): Ledger {
    if id in l then l[id := Member(id, Removed, NextLamport(l))] else l
  }

  /** Only the record of `id` may change: it has this status, and if it is new, a clock above
      all there were. */
  ghost predicate Sets(l: Ledger, m: Ledger, id: Text, status: Status) {
    && m.Keys == l.Keys + {id} && (forall other :: other in l && other != id ==> m[other] == l[other])
    && m[id].id == id && m[id].status == status
    && ((id in l && m[id] == l[id]) || forall other :: other in l ==> l[other].lamport < m[id].lamport)
  }

  lemma SetNow(l: Ledger, id: Text, status: Status)
    ensures Sets(l, l[id := Member(id, status, NextLamport(l))], id, status)
    ensures l[id := Member(id, status, NextLamport(l))] != l
  {
    assert l[id := Member(id, status, NextLamport(l))][id].lamport == NextLamport(l);
  }

  lemma SetAlready(l: Ledger, id: Text)
    requires LedgerOk(l) && id in l
    ensures Sets(l, l, id, l[id].status)
  {
  }

  /** Whether a received record replaces what the ledger has. */
  predicate Applies(l: Ledger, e: Member) {
    ValidId(e.id) && (e.id in l ==> l[e.id].lamport < e.lamport)
  }

  function MergeOne(l: Ledger, e: Member): Ledger {
    if Applies(l, e) then l[e.id := e] else l
  }

  function Merge(l: Ledger, es: seq<Member>): Ledger
    decreases |es|
  {
    if es == [] then l else Merge(MergeOne(l, es[0]), es[1..])
  }

  predicate Changes(l: Ledger, es: seq<Member>)
    decreases |es|
  {
    es != [] && (Applies(l, es[0]) || Changes(MergeOne(l, es[0]), es[1..]))
  }

  /** Some record that was applied removed `self`. */
  predicate Expels(l: Ledger, es: seq<Member>, self: Text)
    decreases |es|
  {
    es != [] &&
    ((Applies(l, es[0]) && es[0].id == self && es[0].status == Removed) || Expels(MergeOne(l, es[0]), es[1..], self))
  }

  function Records(l: Ledger, ids: seq<Text>): (es: seq<Member>)
    requires forall id :: id in ids ==> id in l
    ensures |es| == |ids| && forall i :: 0 <= i < |es| ==> es[i] == l[ids[i]]
  {
    seq(|ids|, i requires 0 <= i < |ids| => l[ids[i]])
  }

  /** `members`: what one node sends to another. */
  function Members(l: Ledger): seq<Member> {
    Records(l, Sorted(l.Keys))
  }

  function ActiveAmong(l: Ledger, ids: seq<Text>, self: Text): (r: seq<Text>)
    requires forall id :: id in ids ==> id in l
    ensures forall id :: id in r <==> id in ids && id != self && l[id].status == Active && ValidId(id)
  {
    if ids == [] then []
    else if ids[0] != self && l[ids[0]].status == Active && ValidId(ids[0])
    then [ids[0]] + ActiveAmong(l, ids[1..], self)
    else ActiveAmong(l, ids[1..], self)
  }

  lemma ActiveStep(l: Ledger, ids: seq<Text>, self: Text, found: seq<Text>)
    requires ids != [] && forall id :: id in ids ==> id in l
    ensures found + ActiveAmong(l, ids, self) ==
      (if ids[0] != self && l[ids[0]].status == Active && ValidId(ids[0]) then found + [ids[0]] else found)
      + ActiveAmong(l, ids[1..], self)
  {
    var rest := ActiveAmong(l, ids[1..], self);
    assert found + ([ids[0]] + rest) == (found + [ids[0]]) + rest;
  }

  // ---------- the state ----------

  datatype MemberMerge = MemberMerge(changed: bool, removedSelf: bool, activePeers: seq<Text>)

  class GroupState {
    const localId: Text
    var members: Ledger

    ghost predicate Valid()
      reads this
    {
      LedgerOk(members) && localId in members
    }

    /** `load_or_init`: the ledger that was saved, with the node itself in it. */
    constructor (localId: Text, saved: Ledger)
      requires LedgerOk(saved)
      ensures Valid() && this.localId == localId
      ensures members ==
        if localId in saved then saved else saved[localId := Member(localId, Active, NextLamport(saved))]
    {
      this.localId := localId;
      members := if localId in saved then saved else saved[localId := Member(localId, Active, NextLamport(saved))];
    }

    /** `add_active_peer`. */
    method AddActivePeer(peer: Text) returns (changed: bool)
      requires Valid()
      modifies this`members
      ensures Valid() && members == Add(old(members), peer)
      ensures changed <==> members != old(members)
      ensures Sets(old(members), members, peer, Active)
      ensures changed <==> !(peer in old(members) && old(members)[peer].status == Active)
    {
      var lamport := NextLamport(members);
      SetNow(members, peer, Active);
      if peer in members { SetAlready(members, peer); }
      if peer in members {
        changed := members[peer].status != Active;
        if changed { members := members[peer := Member(peer, Active, lamport)]; }
      } else {
        members := members[peer := Member(peer, Active, lamport)];
        changed := true;
      }
    }

    /** `remove_peer`. */
    method RemovePeer(target: Text) returns (r: Result<Option<Text>>)
      requires Valid()
      modifies this`members
      ensures Valid()
      ensures r ==
        if target == localId then Err(Rejected) else if target in old(members) then Ok(Some(target)) else Ok(None)
      ensures members == if target == localId then old(members) else Drop(old(members), target)
      ensures r.Ok? && r.value.Some? ==>
        Sets(old(members), members, target, Removed) && old(members)[target].lamport < members[target].lamport
      ensures !(r.Ok? && r.value.Some?) ==> members == old(members)
    {
      if target !in members { return Ok(None); }
      if target == localId { return Err(Rejected); }
      var lamport := NextLamport(members);
      SetNow(members, target, Removed);
      members := members[target := Member(target, Removed, lamport)];
      return Ok(Some(target));
    }

    method ActivePeers() returns (ids: seq<Text>)
      ensures ids == ActiveAmong(members, Sorted(members.Keys), localId)
    {
      ids := [];
      var all := Sorted(members.Keys);
      ghost var whole := ActiveAmong(members, all, localId);
      while all != []
        invariant forall id :: id in all ==> id in members
        invariant ids + ActiveAmong(members, all, localId) == whole
        decreases |all|
      {
        ActiveStep(members, all, localId, ids);
        if all[0] != localId && members[all[0]].status == Active && ValidId(all[0]) { ids := ids + [all[0]]; }
        all := all[1..];
      }
      assert ids + [] == ids;
    }

    /** `merge_members`. */
    method MergeMembers(incoming: seq<Member>) returns (r: MemberMerge)
      requires Valid()
      modifies this`members
      ensures Valid() && members == Merge(old(members), incoming)
      ensures r.changed == Changes(old(members), incoming)
      ensures r.removedSelf == Expels(old(members), incoming, localId)
      ensures forall id :: id in r.activePeers <==>
        id in members && id != localId && members[id].status == Active && ValidId(id)
    {
      var changed, removedSelf := false, false;
      ghost var before := members;
      for i := 0 to |incoming|
        invariant Valid()
        invariant Merge(members, incoming[i..]) == Merge(before, incoming)
        invariant changed || Changes(members, incoming[i..]) <==> Changes(before, incoming)
        invariant removedSelf || Expels(members, incoming[i..], localId) <==> Expels(before, incoming, localId)
      {
        var e := incoming[i];
        assert incoming[i..][0] == e && incoming[i..][1..] == incoming[i + 1..];
        if !ValidId(e.id) { continue; }
        if e.id in members && e.lamport <= members[e.id].lamport { continue; }
        if e.id == localId && e.status == Removed { removedSelf := true; }
        members := members[e.id := e];
        changed := true;
      }
      var peers := ActivePeers();
      return MemberMerge(changed, removedSelf, peers);
    }
  }

  // ---------- records only give way to newer ones ----------

  datatype Action = AddPeer(id: Text) | RemovePeer(id: Text) | Receive(records: seq<Member>)

  function Act(l: Ledger, a: Action): Ledger {
    match a
    case AddPeer(id) => Add(l, id)
    case RemovePeer(id) => Drop(l, id)
    case Receive(es) => Merge(l, es)
  }

  function Run(l: Ledger, acts: seq<Action>): Ledger
    decreases |acts|
  {
    if acts == [] then l else Run(Act(l, acts[0]), acts[1..])
  }

  /** The record of a member is still there, or a later one is. */
  ghost predicate Keeps(l: Ledger, m: Ledger, id: Text) {
    id in l ==> id in m && (m[id] == l[id] || l[id].lamport < m[id].lamport)
  }

  lemma {:induction false} MergeKeepsRecords(l: Ledger, es: seq<Member>, id: Text)
    ensures Keeps(l, Merge(l, es), id)
    decreases |es|
  {
    if es != [] { MergeKeepsRecords(MergeOne(l, es[0]), es[1..], id); }
  }

  /** Over any run, a member is never forgotten, its clock never goes back, and any change
      of its record, such as from removed to active, comes with a strictly larger clock. */
  lemma {:induction false} RunKeepsRecords(l: Ledger, acts: seq<Action>, id: Text)
    ensures Keeps(l, Run(l, acts), id)
    decreases |acts|
  {
    if acts != [] {
      if acts[0].Receive? { MergeKeepsRecords(l, acts[0].records, id); }
      RunKeepsRecords(Act(l, acts[0]), acts[1..], id);
    }
  }

  // ---------- who is a member ----------

  /** An action that can end the removal of `id`, or with `Removed` its membership: one of the
      node's own, or a record with a larger clock than `n`. */
  ghost predicate Turns(a: Action, id: Text, n: nat, status: Status) {
    match a
    case AddPeer(x) => x == id && status == Active
    case RemovePeer(x) => x == id && status == Removed
    case Receive(es) => exists e :: e in es && e.id == id && ValidId(id) && n < e.lamport && e.status == status
  }

  lemma {:induction false} MergeStays(l: Ledger, es: seq<Member>, id: Text, status: Status, n: nat)
    requires id in l && l[id].status != status && n <= l[id].lamport
    requires !Turns(Receive(es), id, n, status)
    ensures id in Merge(l, es) && Merge(l, es)[id].status != status && n <= Merge(l, es)[id].lamport
    decreases |es|
  {
    if es != [] {
      assert es[0] in es && forall e :: e in es[1..] ==> e in es;
      MergeStays(MergeOne(l, es[0]), es[1..], id, status, n);
    }
  }

  lemma ActStays(l: Ledger, a: Action, id: Text, status: Status, n: nat)
    requires id in l && l[id].status != status && n <= l[id].lamport && !Turns(a, id, n, status)
    ensures id in Act(l, a) && Act(l, a)[id].status != status && n <= Act(l, a)[id].lamport
  {
    if a.Receive? { MergeStays(l, a.records, id, status, n); }
  }

  ghost predicate Untouched(acts: seq<Action>, id: Text, n: nat, status: Status) {
    forall i :: 0 <= i < |acts| ==> !Turns(acts[i], id, n, status)
  }

  /** A member keeps its status over any run, until an action or a newer record turns it. */
  lemma {:induction false} RunStays(l: Ledger, acts: seq<Action>, id: Text, status: Status, n: nat)
    requires id in l && l[id].status != status && n <= l[id].lamport && Untouched(acts, id, n, status)
    ensures id in Run(l, acts) && Run(l, acts)[id].status != status
    decreases |acts|
  {
    if acts != [] {
      ActStays(l, acts[0], id, status, n);
      RunStays(Act(l, acts[0]), acts[1..], id, status, n);
    }
  }

  /** A member that has been dropped is none of the active peers until it is added again or a
      record with a larger clock says so; and one that has been added is one until it is
      dropped or such a record says so. */
  lemma DroppedAndAdded(l: Ledger, id: Text, acts: seq<Action>, self: Text)
    requires self != id && ValidId(id)
    ensures id in l && Untouched(acts, id, Drop(l, id)[id].lamport, Active) ==>
      var m := Run(Drop(l, id), acts);
      id !in ActiveAmong(m, Sorted(m.Keys), self)
    ensures Untouched(acts, id, Add(l, id)[id].lamport, Removed) ==>
      var m := Run(Add(l, id), acts);
      id in ActiveAmong(m, Sorted(m.Keys), self)
  {
    if id in l && Untouched(acts, id, Drop(l, id)[id].lamport, Active) {
      RunStays(Drop(l, id), acts, id, Active, Drop(l, id)[id].lamport);
    }
    if Untouched(acts, id, Add(l, id)[id].lamport, Removed) {
      RunStays(Add(l, id), acts, id, Removed, Add(l, id)[id].lamport);
    }
  }

  /** A merge reports a change exactly if there was one. */
  lemma {:induction false} ChangedExactly(l: Ledger, es: seq<Member>)
    ensures Changes(l, es) <==> Merge(l, es) != l
    decreases |es|
  {
    if es != [] {
      var m := MergeOne(l, es[0]);
      ChangedExactly(m, es[1..]);
      if Applies(l, es[0]) {
        MergeKeepsRecords(m, es[1..], es[0].id);
        assert es[0].id in l ==> l[es[0].id].lamport < Merge(l, es)[es[0].id].lamport;
        assert es[0].id in Merge(l, es);
      }
    }
  }

  // ---------- merging is a pointwise maximum ----------

  /** `out` is what is at or above `l` and all valid records of `es`, and no more. */
  ghost predicate IsLatest(l: Ledger, es: seq<Member>, out: Ledger) {
    && (forall id :: id in l ==> id in out && l[id].lamport <= out[id].lamport)
    && (forall e :: e in es && ValidId(e.id) ==> e.id in out && e.lamport <= out[e.id].lamport)
    && (forall id :: id in out ==> (id in l && out[id] == l[id]) || (out[id] in es && out[id].id == id && ValidId(id)))
  }

  lemma {:induction false} MergeIsLatest(l: Ledger, es: seq<Member>)
    ensures IsLatest(l, es, Merge(l, es))
    decreases |es|
  {
    if es != [] {
      var m, out := MergeOne(l, es[0]), Merge(l, es);
      MergeIsLatest(m, es[1..]);
      forall e | e in es && ValidId(e.id) ensures e.id in out && e.lamport <= out[e.id].lamport {
        if e == es[0] { assert e.id in m && e.lamport <= m[e.id].lamport; } else { assert e in es[1..]; }
      }
    }
  }

  /** No two distinct records of one member share a clock value. */
  ghost predicate NoConflict(l: Ledger, es: seq<Member>) {
    && (forall e, f :: e in es && f in es && e.id == f.id && e.lamport == f.lamport ==> e == f)
    && (forall e :: e in es && e.id in l && l[e.id].lamport == e.lamport ==> l[e.id] == e)
  }

  lemma LatestUnique(l: Ledger, es: seq<Member>, fs: seq<Member>, x: Ledger, y: Ledger)
    requires forall e :: e in es <==> e in fs
    requires NoConflict(l, es) && IsLatest(l, es, x) && IsLatest(l, fs, y)
    ensures x == y
  {
    forall id | id in x ensures id in y && x[id] == y[id] {}
    forall id | id in y ensures id in x {}
  }

  /** The order in which records arrive does not matter, nor how often. */
  lemma MergeOrder(l: Ledger, es: seq<Member>, fs: seq<Member>)
    requires NoConflict(l, es) && forall e :: e in es <==> e in fs
    ensures Merge(l, es) == Merge(l, fs)
  {
    MergeIsLatest(l, es);
    MergeIsLatest(l, fs);
    LatestUnique(l, es, fs, Merge(l, es), Merge(l, fs));
  }

  /** Two records commute exactly if they are not distinct records of one member, with the
      same clock value, that the ledger would take. */
  lemma TwoRecords(l: Ledger, e: Member, f: Member)
    ensures MergeOne(MergeOne(l, e), f) == MergeOne(MergeOne(l, f), e) <==>
      !(e.id == f.id && e.lamport == f.lamport && e != f && Applies(l, e))
  {
    var x, y := MergeOne(MergeOne(l, e), f), MergeOne(MergeOne(l, f), e);
    if e.id == f.id && e.lamport == f.lamport && e != f && Applies(l, e) {
      assert x[e.id] == e && y[e.id] == f;
    } else if e.id != f.id {
      assert x == y;
    }
  }

  lemma MembersListed(l: Ledger, e: Member)
    requires LedgerOk(l)
    ensures e in Members(l) <==> e.id in l && l[e.id] == e
  {
    var ids := Sorted(l.Keys);
    if e in Members(l) {
      var i :| 0 <= i < |ids| && Members(l)[i] == e;
      assert ids[i] in ids;
    }
    if e.id in l && l[e.id] == e {
      var i :| 0 <= i < |ids| && ids[i] == e.id;
      assert Members(l)[i] == e;
    }
  }

  /** `x` has the later record of `a` and `b`, and in a tie that of `a`. */
  ghost predicate LatestOfTwo(a: Ledger, b: Ledger, x: Ledger, id: Text) {
    && (id in x <==> id in a || id in b)
    && (id in a && (id in b ==> b[id].lamport <= a[id].lamport) ==> x[id] == a[id])
    && (id in b && (id in a ==> a[id].lamport < b[id].lamport) ==> x[id] == b[id])
  }

  /** Every id of the ledger parses. */
  ghost predicate RealIds(l: Ledger) {
    forall id :: id in l ==> ValidId(id)
  }

  lemma OneOfTwo(a: Ledger, b: Ledger, id: Text)
    requires LedgerOk(a) && LedgerOk(b) && RealIds(b)
    ensures LatestOfTwo(a, b, Merge(a, Members(b)), id)
  {
    var x := Merge(a, Members(b));
    MergeIsLatest(a, Members(b));
    MergeKeepsRecords(a, Members(b), id);
    if id in b { MembersListed(b, b[id]); }
    if id in x { MembersListed(b, x[id]); }
  }

  ghost predicate Tie(a: Ledger, b: Ledger, id: Text) {
    id in a && id in b && a[id].lamport == b[id].lamport && a[id] != b[id]
  }

  ghost predicate SameAt(x: Ledger, y: Ledger, id: Text) {
    (id in x <==> id in y) && (id in x ==> id in y && x[id] == y[id])
  }

  lemma ExchangeAt(a: Ledger, b: Ledger, x: Ledger, y: Ledger, id: Text)
    requires LatestOfTwo(a, b, x, id) && LatestOfTwo(b, a, y, id)
    ensures SameAt(x, y, id) <==> !Tie(a, b, id)
  {
  }

  /** Two nodes that send each other their ledgers agree afterwards, exactly if they had no
      two records of a member with the same clock value. */
  lemma ExchangeAgrees(a: Ledger, b: Ledger)
    requires LedgerOk(a) && LedgerOk(b) && RealIds(a) && RealIds(b)
    ensures Merge(a, Members(b)) == Merge(b, Members(a)) <==> forall id :: !Tie(a, b, id)
  {
    var x, y := Merge(a, Members(b)), Merge(b, Members(a));
    forall id ensures LatestOfTwo(a, b, x, id) { OneOfTwo(a, b, id); }
    forall id ensures LatestOfTwo(b, a, y, id) { OneOfTwo(b, a, id); }
    ExchangedEverywhere(a, b, x, y);
  }

  lemma ExchangedEverywhere(a: Ledger, b: Ledger, x: Ledger, y: Ledger)
    requires forall id :: LatestOfTwo(a, b, x, id)
    requires forall id :: LatestOfTwo(b, a, y, id)
    ensures x == y <==> forall id :: !Tie(a, b, id)
  {
    forall id ensures SameAt(x, y, id) <==> !Tie(a, b, id) { ExchangeAt(a, b, x, y, id); }
    SameEverywhere(x, y);
  }

  lemma SameEverywhere(x: Ledger, y: Ledger)
    ensures x == y <==> forall id :: SameAt(x, y, id)
  {
    if forall id :: SameAt(x, y, id) {
      forall id | id in x ensures id in y && x[id] == y[id] { assert SameAt(x, y, id); }
      forall id | id in y ensures id in x { assert SameAt(x, y, id); }
    }
  }

  /** Record `i` is the removal of `self`, newer than the ledger's and than all before it. */
  ghost predicate Expelling(l: Ledger, es: seq<Member>, self: Text, i: nat) {
    && i < |es| && es[i].id == self && es[i].status == Removed && ValidId(self)
    && (self in l ==> l[self].lamport < es[i].lamport)
    && forall j :: 0 <= j < i && es[j].id == self ==> es[j].lamport < es[i].lamport
  }

  /** A node is told of its removal exactly if there is such a record, even if a later one in
      the same message takes it back. */
  lemma {:induction false} ExpelledExactly(l: Ledger, es: seq<Member>, self: Text)
    ensures Expels(l, es, self) <==> exists i: nat :: Expelling(l, es, self, i)
    decreases |es|
  {
    if es != [] {
      var m := MergeOne(l, es[0]);
      ExpelledExactly(m, es[1..], self);
      if i: nat :| Expelling(m, es[1..], self, i) {
        forall j | 0 <= j < i + 1 && es[j].id == self ensures es[j].lamport < es[i + 1].lamport {
          if j > 0 { assert es[1..][j - 1] == es[j]; }
        }
        assert Expelling(l, es, self, i + 1);
      }
      if i: nat :| Expelling(l, es, self, i) {
        if i > 0 {
          forall j | 0 <= j < i - 1 && es[1..][j].id == self ensures es[1..][j].lamport < es[1..][i - 1].lamport {
            assert es[1..][j] == es[j + 1];
          }
          assert Expelling(m, es[1..], self, i - 1);
        }
      }
      if Applies(l, es[0]) && es[0].id == self && es[0].status == Removed { assert Expelling(l, es, self, 0); }
    }
  }

  /** A node does not end up removed by a merge without being told. */
  lemma {:induction false} ExpulsionNoticed(l: Ledger, es: seq<Member>, self: Text)
    requires self in Merge(l, es) && Merge(l, es)[self].status == Removed
    requires self in l ==> Merge(l, es)[self] != l[self]
    ensures Expels(l, es, self)
    decreases |es|
  {
    if es != [] {
      var m := MergeOne(l, es[0]);
      if !(Applies(l, es[0]) && es[0].id == self && es[0].status == Removed) {
        MergeKeepsRecords(m, es[1..], self);
        ExpulsionNoticed(m, es[1..], self);
      }
    }
  }
}
