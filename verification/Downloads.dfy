/** src/sync.rs: the coordinator that lets concurrent fetches of the same content share one
    download. The two classes are proved against functions on their abstract state; the
    lemmas are about any interleaving of any number of fetches, none of them cancelled. */
module Downloads {
  import opened Wrappers
  import opened Bytes
  import opened Entries

  datatype Target = Target(path: Text, lamport: nat, origin: Text)

  function TargetOf(e: Entry): Target {
    Target(e.path, e.version.lamport, e.version.origin)
  }

  /** Two entries claim the same target exactly if they are of the same path and version. */
  lemma SameTarget(a: Entry, b: Entry)
    ensures TargetOf(a) == TargetOf(b) <==> a.path == b.path && a.version == b.version
  {
  }

  /** A temporary file, by the process-wide counter that makes its name unique. */
  type Tmp = nat

  datatype SlotState = SlotState(waiters: nat, claimed: set<Target>, result: Option<Result<Tmp>>)

  /** Every slot ever made, and the one in use for each content hash. */
  datatype Shared = Shared(slots: seq<SlotState>, active: map<Digest, nat>)

  predicate InRange(s: Shared) {
    forall h :: h in s.active ==> s.active[h] < |s.slots|
  }

  // ---------- what the operations do ----------

  function Join(s: Shared, id: nat): Shared
    requires id < |s.slots|
  {
    s.(slots := s.slots[id := s.slots[id].(waiters := s.slots[id].waiters + 1)])
  }

  datatype Acquired = Acquired(shared: Shared, id: nat, leader: bool)

  function Acquire(s: Shared, hash: Digest): Acquired
    requires InRange(s)
  {
    if hash in s.active then
      Acquired(Join(s, s.active[hash]), s.active[hash], false)
    else
      Acquired(Shared(s.slots + [SlotState(1, {}, None)], s.active[hash := |s.slots|]), |s.slots|, true)
  }

  function Publish(s: Shared, id: nat, result: Result<Tmp>): Shared
    requires id < |s.slots|
  {
    s.(slots := s.slots[id := s.slots[id].(result := Some(result))])
  }

  function Claim(s: Shared, id: nat, t: Target): Shared
    requires id < |s.slots|
  {
    s.(slots := s.slots[id := s.slots[id].(claimed := s.slots[id].claimed + {t})])
  }

  datatype Released = Released(shared: Shared, tmp: Option<Tmp>)

  function SharedTmp(slot: SlotState): Option<Tmp> {
    if slot.result.Some? && slot.result.value.Ok? then Some(slot.result.value.value) else None
  }

  function Release(s: Shared, hash: Digest, id: nat): Released
    requires id < |s.slots|
  {
    var left := if s.slots[id].waiters == 0 then 0 else s.slots[id].waiters - 1;
    var slots := s.slots[id := s.slots[id].(waiters := left)];
    if left == 0 && hash in s.active && s.active[hash] == id
    then Released(Shared(slots, s.active - {hash}), SharedTmp(s.slots[id]))
    else Released(Shared(slots, s.active), None)
  }

  // ---------- the classes ----------

  class DownloadSlot {
    ghost const id: nat
    var waiters: nat
    var claimed: set<Target>
    var result: Option<Result<Tmp>>

    constructor (ghost id: nat)
      ensures this.id == id && State() == SlotState(1, {}, None)
    {
      this.id := id;
      waiters, claimed, result := 1, {}, None;
    }

    function State(): SlotState
      reads this
    {
      SlotState(waiters, claimed, result)
    }
  }

  ghost predicate Numbered(slots: seq<DownloadSlot>) {
    forall i :: 0 <= i < |slots| ==> slots[i].id == i
  }

  ghost function States(slots: seq<DownloadSlot>): (s: seq<SlotState>)
    reads slots
    ensures |s| == |slots| && forall i :: 0 <= i < |s| ==> s[i] == slots[i].State()
  {
    seq(|slots|, i requires 0 <= i < |slots| reads slots => slots[i].State())
  }

  ghost function Ids(active: map<Digest, DownloadSlot>): map<Digest, nat> {
    map h | h in active :: active[h].id
  }

  lemma SlotById(slots: seq<DownloadSlot>, slot: DownloadSlot)
    requires Numbered(slots) && slot in slots
    ensures slot.id < |slots| && slots[slot.id] == slot
  {
  }

  lemma OneSlotChanged(slots: seq<DownloadSlot>, i: nat, before: seq<SlotState>)
    requires i < |slots| == |before| && forall k :: 0 <= k < |slots| && k != i ==> slots[k].State() == before[k]
    ensures States(slots) == before[i := slots[i].State()]
  {
  }

  lemma SlotAdded(slots: seq<DownloadSlot>, slot: DownloadSlot)
    ensures States(slots + [slot]) == States(slots) + [slot.State()]
  {
    var a, b := States(slots + [slot]), States(slots) + [slot.State()];
    forall i | 0 <= i < |a| ensures a[i] == b[i] { assert a[i] == (slots + [slot])[i].State(); }
  }

  lemma IdAdded(active: map<Digest, DownloadSlot>, hash: Digest, slot: DownloadSlot)
    ensures Ids(active[hash := slot]) == Ids(active)[hash := slot.id]
  {
  }

  lemma IdRemoved(active: map<Digest, DownloadSlot>, hash: Digest)
    ensures Ids(active - {hash}) == Ids(active) - {hash}
  {
  }

  class DownloadCoordinator {
    var active: map<Digest, DownloadSlot>
    ghost var slots: seq<DownloadSlot>

    ghost predicate Valid()
      reads this, slots
    {
      && Numbered(slots)
      && (forall h :: h in active ==> active[h] in slots)
    }

    ghost function View(): (s: Shared)
      requires Valid()
      reads this, slots
      ensures InRange(s)
    {
      Shared(States(slots), Ids(active))
    }

    constructor ()
      ensures Valid() && View() == Shared([], map[])
    {
      active, slots := map[], [];
    }

    /** `acquire`. */
    method AcquireSlot(hash: Digest) returns (slot: DownloadSlot, leader: bool)
      requires Valid()
      modifies this, slots
      ensures old(slots) <= slots && fresh(slots[|old(slots)|..]) && slot in slots && Valid()
      ensures Acquired(View(), slot.id, leader) == Acquire(old(View()), hash)
    {
      if hash in active {
        slot := active[hash];
        slot.waiters := slot.waiters + 1;
        leader := false;
        OneSlotChanged(slots, slot.id, old(States(slots)));
      } else {
        slot := new DownloadSlot(|slots|);
        assert States(slots) == old(States(slots));
        SlotAdded(slots, slot);
        IdAdded(active, hash, slot);
        active := active[hash := slot];
        slots := slots + [slot];
        leader := true;
      }
    }

    /** The leader stores how the download went. */
    method PublishResult(slot: DownloadSlot, result: Result<Tmp>)
      requires Valid() && slot in slots
      modifies slot`result
      ensures Valid() && View() == Publish(old(View()), slot.id, result)
    {
      slot.result := Some(result);
      OneSlotChanged(slots, slot.id, old(States(slots)));
    }

    /** `claim_target`. */
    method ClaimTarget(slot: DownloadSlot, e: Entry) returns (first: bool)
      requires Valid() && slot in slots
      modifies slot`claimed
      ensures Valid() && View() == Claim(old(View()), slot.id, TargetOf(e))
      ensures first <==> TargetOf(e) !in old(slot.claimed)
    {
      first := TargetOf(e) !in slot.claimed;
      slot.claimed := slot.claimed + {TargetOf(e)};
      OneSlotChanged(slots, slot.id, old(States(slots)));
    }

    /** `release`. */
    method ReleaseSlot(hash: Digest, slot: DownloadSlot) returns (tmp: Option<Tmp>)
      requires Valid() && slot in slots
      modifies this`active, slot`waiters
      ensures Valid() && Released(View(), tmp) == Release(old(View()), hash, slot.id)
    {
      slot.waiters := if slot.waiters == 0 then 0 else slot.waiters - 1;
      SlotById(slots, slot);
      OneSlotChanged(slots, slot.id, old(States(slots)));
      IdRemoved(active, hash);
      if hash in active { SlotById(slots, active[hash]); }
      if slot.waiters != 0 { return None; }
      if hash in active && active[hash] == slot {
        active := active - {hash};
        return SharedTmp(slot.State());
      }
      return None;
    }
  }
}
