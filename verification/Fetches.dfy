/** src/sync.rs `fetch_object_once`, run by any number of fetches in any interleaving. Each step
    is what a fetch does between two points at which it can be suspended. */
module Fetches {
  import opened Wrappers
  import opened Entries
  import opened Downloads

  datatype Outcome = Failed | AlreadyClaimed | CopyFailed | Got(own: Tmp)

  /** Where a fetch is; the first four of these hold the slot. */
  datatype Phase =
    | Idle
    | Leading(id: nat, tmp: Tmp)                 // downloading to the shared file
    | Waiting(id: nat)                           // looking for the result
    | Seen(id: nat, tmp: Tmp)                    // the result is there, the target not yet claimed
    | Copying(id: nat, tmp: Tmp, own: Tmp)       // linking or copying from the shared file
    | Removing(tmp: Tmp, outcome: Outcome)       // deleting the shared file
    | Finished(outcome: Outcome)

  datatype Job = Job(hash: Digest, entry: Entry, phase: Phase)

  /** The last five are history: the fetch that made each slot and the shared file it chose,
      the slot each fetch has joined, every successful claim as slot and fetch, every file
      handed out for deletion. */
  datatype System = System(
    shared: Shared,
    jobs: map<nat, Job>,
    nextTmp: Tmp,
    leaders: seq<nat>,
    temps: seq<Tmp>,
    joined: map<nat, nat>,
    claims: seq<(nat, nat)>,
    handed: seq<Tmp>)

  datatype Action =
    | Begin(job: nat)
    | Download(job: nat, succeeds: bool)
    | Look(job: nat)
    | Stake(job: nat)
    | Copy(job: nat, succeeds: bool)
    | Remove(job: nat)

  predicate Holds(p: Phase, id: nat) {
    (p.Leading? || p.Waiting? || p.Seen? || p.Copying?) && p.id == id
  }

  function Holders(jobs: map<nat, Job>, id: nat): set<nat> {
    set j | j in jobs && Holds(jobs[j].phase, id)
  }

  function Goes(s: System, j: nat, p: Phase): System
    requires j in s.jobs
  {
    s.(jobs := s.jobs[j := s.jobs[j].(phase := p)])
  }

  // ---------- the steps ----------

  predicate Enabled(s: System, a: Action) {
    && InRange(s.shared) && a.job in s.jobs
    && var p := s.jobs[a.job].phase;
    match a
    case Begin(_) => p.Idle?
    case Download(_, _) => p.Leading? && p.id < |s.shared.slots|
    case Look(_) => p.Waiting? && p.id < |s.shared.slots| && s.shared.slots[p.id].result.Some?
    case Stake(_) => p.Seen? && p.id < |s.shared.slots|
    case Copy(_, _) => p.Copying? && p.id < |s.shared.slots|
    case Remove(_) => p.Removing?
  }

  /** The fetch releases the slot; if it was the last, the shared file is its to delete. */
  function Drop(s: System, j: nat, id: nat, outcome: Outcome): System
    requires j in s.jobs && id < |s.shared.slots|
  {
    var r := Release(s.shared, s.jobs[j].hash, id);
    if r.tmp.Some? then
      Goes(s, j, Removing(r.tmp.value, outcome)).(shared := r.shared, handed := s.handed + [r.tmp.value])
    else
      Goes(s, j, Finished(outcome)).(shared := r.shared)
  }

  function Step(s: System, a: Action): System
    requires Enabled(s, a)
  {
    var j, job := a.job, s.jobs[a.job];
    match a
    case Begin(_) =>
      var got := Acquire(s.shared, job.hash);
      if got.leader then
        Goes(s, j, Leading(got.id, s.nextTmp)).(
          shared := got.shared, nextTmp := s.nextTmp + 1, leaders := s.leaders + [j], temps := s.temps + [s.nextTmp],
          joined := s.joined[j := got.id])
      else
        Goes(s, j, Waiting(got.id)).(shared := got.shared, joined := s.joined[j := got.id])
    case Download(_, succeeds) =>
      Goes(s, j, Waiting(job.phase.id)).(
        shared := Publish(s.shared, job.phase.id, if succeeds then Ok(job.phase.tmp) else Err(Storage)))
    case Look(_) =>
      (match s.shared.slots[job.phase.id].result.value
       case Ok(tmp) => Goes(s, j, Seen(job.phase.id, tmp))
       case Err(_) => Drop(s, j, job.phase.id, Failed))
    case Stake(_) =>
      if TargetOf(job.entry) in s.shared.slots[job.phase.id].claimed then
        Drop(s, j, job.phase.id, AlreadyClaimed)
      else
        Goes(s, j, Copying(job.phase.id, job.phase.tmp, s.nextTmp)).(
          shared := Claim(s.shared, job.phase.id, TargetOf(job.entry)), nextTmp := s.nextTmp + 1,
          claims := s.claims + [(job.phase.id, j)])
    case Copy(_, succeeds) =>
      Drop(s, j, job.phase.id, if succeeds then Got(job.phase.own) else CopyFailed)
    case Remove(_) =>
      Goes(s, j, Finished(job.phase.outcome))
  }

  // ---------- the invariant ----------

  /** The waiter count is the number of holders, there is one leader until there is a
      result, and the shared file is handed out exactly when the last holder is gone. */
  ghost predicate SlotOk(s: System, id: nat)
    requires id < |s.shared.slots| && |s.leaders| == |s.temps| == |s.shared.slots|
  {
    var slot := s.shared.slots[id];
    && slot.waiters == |Holders(s.jobs, id)|
    && (slot.result.None? ==> s.leaders[id] in s.jobs && s.jobs[s.leaders[id]].phase == Leading(id, s.temps[id]))
    && (SharedTmp(slot).Some? ==> SharedTmp(slot).value == s.temps[id])
    && (s.temps[id] in s.handed <==> slot.waiters == 0 && SharedTmp(slot).Some?)
  }

  ghost predicate JobOk(s: System, j: nat)
    requires j in s.jobs && |s.leaders| == |s.temps| == |s.shared.slots|
  {
    var p, h := s.jobs[j].phase, s.jobs[j].hash;
    && (p.Leading? || p.Waiting? || p.Seen? || p.Copying? ==>
          p.id < |s.shared.slots| && h in s.shared.active && s.shared.active[h] == p.id)
    && (p.Leading? ==> s.leaders[p.id] == j && s.temps[p.id] == p.tmp && s.shared.slots[p.id].result.None?)
    && (p.Seen? || p.Copying? ==> SharedTmp(s.shared.slots[p.id]) == Some(p.tmp))
    && (p.Removing? ==> p.tmp in s.handed)
  }

  ghost predicate ActiveOk(s: System) {
    && (forall h :: h in s.shared.active ==>
          s.shared.active[h] < |s.shared.slots| && s.shared.slots[s.shared.active[h]].waiters > 0)
    && (forall h, g ::
          h in s.shared.active && g in s.shared.active && s.shared.active[h] == s.shared.active[g] ==> h == g)
  }

  ghost predicate HistoryOk(s: System) {
    && (forall i, k :: 0 <= i < k < |s.temps| ==> s.temps[i] < s.temps[k])
    && (forall i :: 0 <= i < |s.temps| ==> s.temps[i] < s.nextTmp)
    && (forall i, k :: 0 <= i < k < |s.handed| ==> s.handed[i] != s.handed[k])
    && (forall t :: t in s.handed ==> t in s.temps)
  }

  ghost predicate Inv(s: System) {
    && |s.leaders| == |s.temps| == |s.shared.slots|
    && (forall id {:trigger SlotOk(s, id)} :: 0 <= id < |s.shared.slots| ==> SlotOk(s, id))
    && (forall j {:trigger JobOk(s, j)} :: j in s.jobs ==> JobOk(s, j))
    && ActiveOk(s) && HistoryOk(s)
  }

  predicate Init(s: System) {
    && s.shared == Shared([], map[]) && s.leaders == [] && s.temps == [] && s.handed == []
    && s.joined == map[] && s.claims == []
    && forall j :: j in s.jobs ==> s.jobs[j].phase == Idle
  }

  // ---------- counting holders ----------

  lemma SizeWith(s: set<nat>, j: nat)
    ensures |s + {j}| == if j in s then |s| else |s| + 1
    ensures |s - {j}| == if j in s then |s| - 1 else |s|
  {
    if j in s { assert s + {j} == s; } else { assert s - {j} == s; }
  }

  lemma HoldersMove(jobs: map<nat, Job>, j: nat, p: Phase, id: nat)
    requires j in jobs
    ensures Holders(jobs[j := jobs[j].(phase := p)], id) ==
      if Holds(p, id) then Holders(jobs, id) + {j} else Holders(jobs, id) - {j}
    ensures |Holders(jobs[j := jobs[j].(phase := p)], id)| ==
      |Holders(jobs, id)| + (if Holds(p, id) then 1 else 0) - (if Holds(jobs[j].phase, id) then 1 else 0)
  {
    var before, after := Holders(jobs, id), Holders(jobs[j := jobs[j].(phase := p)], id);
    assert after == if Holds(p, id) then before + {j} else before - {j};
    assert j in before <==> Holds(jobs[j].phase, id);
    SizeWith(before, j);
  }

  lemma NoHolders(jobs: map<nat, Job>, id: nat, j: nat)
    requires |Holders(jobs, id)| == 0 && j in jobs
    ensures !Holds(jobs[j].phase, id)
  {
    assert Holds(jobs[j].phase, id) <==> j in Holders(jobs, id);
  }

  // ---------- every step keeps the invariant ----------

  /** A holder's slot is in use, and a holder that is not leading leaves no one leading. */
  lemma HolderFacts(s: System, j: nat, id: nat)
    requires Inv(s) && j in s.jobs && Holds(s.jobs[j].phase, id)
    ensures id < |s.shared.slots| && InRange(s.shared) && s.shared.slots[id].waiters > 0
    ensures s.jobs[j].hash in s.shared.active && s.shared.active[s.jobs[j].hash] == id
    ensures s.temps[id] !in s.handed
  {
    assert JobOk(s, j);
    assert SlotOk(s, id);
    if s.shared.slots[id].waiters == 0 { NoHolders(s.jobs, id, j); }
  }

  /** The step of a fetch that keeps its slot, when the slot itself stays as it is. */
  lemma MoveKeeps(s: System, j: nat, p: Phase)
    requires Inv(s) && j in s.jobs
    requires forall id {:trigger Holds(p, id)} :: Holds(p, id) <==> Holds(s.jobs[j].phase, id)
    requires !p.Leading? && !s.jobs[j].phase.Leading?
    requires p.Seen? || p.Copying? ==> p.id < |s.shared.slots| && SharedTmp(s.shared.slots[p.id]) == Some(p.tmp)
    requires p.Removing? ==> p.tmp in s.handed
    requires p.Waiting? || p.Seen? || p.Copying? ==> Holds(s.jobs[j].phase, p.id)
    ensures Inv(Goes(s, j, p))
  {
    var t := Goes(s, j, p);
    forall id | 0 <= id < |t.shared.slots| ensures SlotOk(t, id) {
      assert SlotOk(s, id);
      HoldersMove(s.jobs, j, p, id);
    }
    forall k | k in t.jobs ensures JobOk(t, k) { assert JobOk(s, k); }
  }

  lemma BeginKeeps(s: System, j: nat)
    requires Inv(s) && Enabled(s, Begin(j))
    ensures Inv(Step(s, Begin(j)))
  {
    if s.jobs[j].hash in s.shared.active { JoinKeeps(s, j); } else { LeadKeeps(s, j); }
  }

  lemma JoinKeeps(s: System, j: nat)
    requires Inv(s) && Enabled(s, Begin(j)) && s.jobs[j].hash in s.shared.active
    ensures Inv(Step(s, Begin(j)))
  {
    var t := Step(s, Begin(j));
    forall id | 0 <= id < |t.shared.slots| ensures SlotOk(t, id) {
      assert SlotOk(s, id);
      HoldersMove(s.jobs, j, t.jobs[j].phase, id);
    }
    forall k | k in t.jobs ensures JobOk(t, k) { assert JobOk(s, k); }
  }

  lemma NewSlotUnheld(s: System)
    requires Inv(s)
    ensures Holders(s.jobs, |s.shared.slots|) == {}
  {
    forall j | j in s.jobs ensures !Holds(s.jobs[j].phase, |s.shared.slots|) { assert JobOk(s, j); }
  }

  lemma LeadSlots(s: System, j: nat, id: nat)
    requires Inv(s) && Enabled(s, Begin(j)) && s.jobs[j].hash !in s.shared.active && id <= |s.shared.slots|
    ensures SlotOk(Step(s, Begin(j)), id)
  {
    var t := Step(s, Begin(j));
    HoldersMove(s.jobs, j, t.jobs[j].phase, id);
    if id < |s.shared.slots| { assert SlotOk(s, id); } else { NewSlotUnheld(s); }
  }

  lemma LeadKeeps(s: System, j: nat)
    requires Inv(s) && Enabled(s, Begin(j)) && s.jobs[j].hash !in s.shared.active
    ensures Inv(Step(s, Begin(j)))
  {
    var t := Step(s, Begin(j));
    forall id | 0 <= id < |t.shared.slots| ensures SlotOk(t, id) { LeadSlots(s, j, id); }
    forall k | k in t.jobs ensures JobOk(t, k) { assert JobOk(s, k); }
  }

  /** A step that changes the slot's result or claims but not its waiters. */
  lemma DownloadKeeps(s: System, j: nat, succeeds: bool)
    requires Inv(s) && Enabled(s, Download(j, succeeds))
    ensures Inv(Step(s, Download(j, succeeds)))
  {
    var t := Step(s, Download(j, succeeds));
    HolderFacts(s, j, s.jobs[j].phase.id);
    assert JobOk(s, j);
    forall id | 0 <= id < |t.shared.slots| ensures SlotOk(t, id) {
      assert SlotOk(s, id);
      HoldersMove(s.jobs, j, t.jobs[j].phase, id);
    }
    forall k | k in t.jobs ensures JobOk(t, k) { assert JobOk(s, k); }
  }

  lemma ClaimSlots(s: System, j: nat, id: nat)
    requires Inv(s) && Enabled(s, Stake(j)) && TargetOf(s.jobs[j].entry) !in s.shared.slots[s.jobs[j].phase.id].claimed
    requires id < |s.shared.slots|
    ensures SlotOk(Step(s, Stake(j)), id)
  {
    assert SlotOk(s, id);
    HoldersMove(s.jobs, j, Step(s, Stake(j)).jobs[j].phase, id);
  }

  lemma ClaimKeeps(s: System, j: nat)
    requires Inv(s) && Enabled(s, Stake(j)) && TargetOf(s.jobs[j].entry) !in s.shared.slots[s.jobs[j].phase.id].claimed
    ensures Inv(Step(s, Stake(j)))
  {
    var t := Step(s, Stake(j));
    assert JobOk(s, j);
    assert SlotOk(s, s.jobs[j].phase.id);
    forall id | 0 <= id < |t.shared.slots| ensures SlotOk(t, id) { ClaimSlots(s, j, id); }
    forall k | k in t.jobs ensures JobOk(t, k) { assert JobOk(s, k); }
  }

  /** Releasing the slot. */
  lemma DropKeeps(s: System, j: nat, id: nat, outcome: Outcome)
    requires Inv(s) && j in s.jobs && Holds(s.jobs[j].phase, id) && !s.jobs[j].phase.Leading?
    requires id < |s.shared.slots| && s.shared.slots[id].result.Some?
    ensures Inv(Drop(s, j, id, outcome))
  {
    HolderFacts(s, j, id);
    if s.shared.slots[id].waiters == 1 {
      LastDropKeeps(s, j, id, outcome);
    } else {
      EarlyDropKeeps(s, j, id, outcome);
    }
  }

  lemma EarlyDropKeeps(s: System, j: nat, id: nat, outcome: Outcome)
    requires Inv(s) && j in s.jobs && Holds(s.jobs[j].phase, id) && !s.jobs[j].phase.Leading?
    requires id < |s.shared.slots| && s.shared.slots[id].waiters > 1
    ensures Inv(Drop(s, j, id, outcome))
  {
    var t := Drop(s, j, id, outcome);
    forall i | 0 <= i < |t.shared.slots| ensures SlotOk(t, i) {
      assert SlotOk(s, i);
      HoldersMove(s.jobs, j, t.jobs[j].phase, i);
    }
    forall k | k in t.jobs ensures JobOk(t, k) { assert JobOk(s, k); }
  }

  /** With one waiter left, that waiter is the only holder. */
  lemma LastHolder(s: System, j: nat, id: nat, k: nat)
    requires Inv(s) && j in s.jobs && Holds(s.jobs[j].phase, id)
    requires id < |s.shared.slots| && s.shared.slots[id].waiters == 1
    requires k in s.jobs && Holds(s.jobs[k].phase, id)
    ensures k == j
  {
    assert SlotOk(s, id);
    var hs := Holders(s.jobs, id);
    assert j in hs && k in hs;
    if k != j { assert {j, k} <= hs; SubsetSize({j, k}, hs); }
  }

  lemma SubsetSize(a: set<nat>, b: set<nat>)
    requires a <= b
    ensures |a| <= |b|
  {
    assert b == a + (b - a);
  }

  lemma LastDropSlots(s: System, j: nat, id: nat, outcome: Outcome, i: nat)
    requires Inv(s) && j in s.jobs && Holds(s.jobs[j].phase, id) && !s.jobs[j].phase.Leading?
    requires id < |s.shared.slots| && s.shared.slots[id].waiters == 1 && s.shared.slots[id].result.Some?
    requires i < |s.shared.slots|
    ensures SlotOk(Drop(s, j, id, outcome), i)
  {
    HolderFacts(s, j, id);
    assert SlotOk(s, i) && SlotOk(s, id);
    HoldersMove(s.jobs, j, Drop(s, j, id, outcome).jobs[j].phase, i);
  }

  lemma LastDropJobs(s: System, j: nat, id: nat, outcome: Outcome, k: nat)
    requires Inv(s) && j in s.jobs && Holds(s.jobs[j].phase, id) && !s.jobs[j].phase.Leading?
    requires id < |s.shared.slots| && s.shared.slots[id].waiters == 1 && s.shared.slots[id].result.Some?
    requires k in s.jobs
    ensures JobOk(Drop(s, j, id, outcome), k)
  {
    HolderFacts(s, j, id);
    assert JobOk(s, k);
    if k != j && Holds(s.jobs[k].phase, id) { LastHolder(s, j, id, k); }
  }

  lemma LastDropKeeps(s: System, j: nat, id: nat, outcome: Outcome)
    requires Inv(s) && j in s.jobs && Holds(s.jobs[j].phase, id) && !s.jobs[j].phase.Leading?
    requires id < |s.shared.slots| && s.shared.slots[id].waiters == 1 && s.shared.slots[id].result.Some?
    ensures Inv(Drop(s, j, id, outcome))
  {
    var t := Drop(s, j, id, outcome);
    HolderFacts(s, j, id);
    assert SlotOk(s, id);
    forall i | 0 <= i < |t.shared.slots| ensures SlotOk(t, i) { LastDropSlots(s, j, id, outcome, i); }
    forall k | k in t.jobs ensures JobOk(t, k) { LastDropJobs(s, j, id, outcome, k); }
  }

  /** Every step keeps the invariant. */
  lemma StepKeeps(s: System, a: Action)
    requires Inv(s) && Enabled(s, a)
    ensures Inv(Step(s, a))
  {
    var j := a.job;
    assert JobOk(s, j);
    match a {
      case Begin(_) => BeginKeeps(s, j);
      case Download(_, succeeds) => DownloadKeeps(s, j, succeeds);
      case Look(_) =>
        var id := s.jobs[j].phase.id;
        match s.shared.slots[id].result.value {
          case Ok(tmp) => MoveKeeps(s, j, Seen(id, tmp));
          case Err(_) => DropKeeps(s, j, id, Failed);
        }
      case Stake(_) =>
        if TargetOf(s.jobs[j].entry) in s.shared.slots[s.jobs[j].phase.id].claimed {
          DropKeeps(s, j, s.jobs[j].phase.id, AlreadyClaimed);
        } else {
          ClaimKeeps(s, j);
        }
      case Copy(_, succeeds) => DropKeeps(s, j, s.jobs[j].phase.id,
                                          if succeeds then Got(s.jobs[j].phase.own) else CopyFailed);
      case Remove(_) => MoveKeeps(s, j, Finished(s.jobs[j].phase.outcome));
    }
  }

  // ---------- who has claimed what, and how fetches end ----------

  ghost predicate ClaimedBy(s: System, id: nat, t: Target, j: nat) {
    (id, j) in s.claims && j in s.jobs && TargetOf(s.jobs[j].entry) == t
  }

  /** The claims on a slot are the targets claimed there, each by one fetch. */
  ghost predicate ClaimsOk(s: System) {
    && (forall c :: c in s.claims ==> c.0 < |s.shared.slots| && c.1 in s.jobs)
    && (forall id, t :: 0 <= id < |s.shared.slots| ==>
          (t in s.shared.slots[id].claimed <==> exists j :: ClaimedBy(s, id, t, j)))
    && (forall i, k :: 0 <= i < k < |s.claims| && s.claims[i].0 == s.claims[k].0 ==>
          TargetOf(s.jobs[s.claims[i].1].entry) != TargetOf(s.jobs[s.claims[k].1].entry))
  }

  predicate Ended(p: Phase) {
    p.Removing? || p.Finished?
  }

  function OutcomeOf(p: Phase): Outcome
    requires Ended(p)
  {
    p.outcome
  }

  /** The fetch has a file `x` of its own. */
  predicate Owns(p: Phase, x: Tmp) {
    (p.Copying? && p.own == x) || (Ended(p) && p.outcome == Got(x))
  }

  /** Why a fetch that has joined slot `id` has ended so. */
  ghost predicate OutcomeOk(s: System, j: nat, id: nat, outcome: Outcome)
    requires j in s.jobs && id < |s.shared.slots|
  {
    var result := s.shared.slots[id].result;
    && result.Some? && (result.value.Err? <==> outcome == Failed)
    && (outcome == AlreadyClaimed ==> exists k :: k != j && ClaimedBy(s, id, TargetOf(s.jobs[j].entry), k))
    && (outcome == CopyFailed || outcome.Got? ==> (id, j) in s.claims)
  }

  ghost predicate TaleOk(s: System, j: nat)
    requires j in s.jobs
  {
    var p := s.jobs[j].phase;
    && (p.Idle? <==> j !in s.joined)
    && (j in s.joined ==> s.joined[j] < |s.shared.slots|)
    && (forall id :: Holds(p, id) ==> j in s.joined && s.joined[j] == id)
    && (p.Copying? ==> (p.id, j) in s.claims)
    && (!p.Copying? && !(Ended(p) && (p.outcome == CopyFailed || p.outcome.Got?)) ==>
          forall c :: c in s.claims ==> c.1 != j)
    && (Ended(p) ==> j in s.joined && OutcomeOk(s, j, s.joined[j], p.outcome))
  }

  ghost predicate OwnsOk(s: System) {
    && (forall j, x: Tmp {:trigger Owns(s.jobs[j].phase, x)} ::
          j in s.jobs && Owns(s.jobs[j].phase, x) ==> x < s.nextTmp && x !in s.temps)
    && (forall j, k, x: Tmp {:trigger Owns(s.jobs[j].phase, x), Owns(s.jobs[k].phase, x)} ::
          j in s.jobs && k in s.jobs && Owns(s.jobs[j].phase, x) && Owns(s.jobs[k].phase, x) ==>
          j == k)
  }

  ghost predicate Tale(s: System) {
    ClaimsOk(s) && OwnsOk(s) && forall j {:trigger TaleOk(s, j)} :: j in s.jobs ==> TaleOk(s, j)
  }

  /** Nothing that was claimed or has come of a download is forgotten. */
  ghost predicate Remembers(s: System, t: System) {
    && t.jobs.Keys == s.jobs.Keys && (forall j :: j in s.jobs ==> t.jobs[j].entry == s.jobs[j].entry)
    && |s.shared.slots| <= |t.shared.slots| && s.claims <= t.claims
    && (forall id :: 0 <= id < |s.shared.slots| && s.shared.slots[id].result.Some? ==>
          t.shared.slots[id].result == s.shared.slots[id].result)
  }

  lemma DropRemembers(s: System, j: nat, id: nat, outcome: Outcome)
    requires j in s.jobs && id < |s.shared.slots|
    ensures Remembers(s, Drop(s, j, id, outcome)) && Drop(s, j, id, outcome).joined == s.joined
    ensures forall i :: 0 <= i < |s.shared.slots| ==>
      Drop(s, j, id, outcome).shared.slots[i].claimed == s.shared.slots[i].claimed
    ensures |Drop(s, j, id, outcome).shared.slots| == |s.shared.slots|
    ensures Drop(s, j, id, outcome).claims == s.claims
  {
  }

  lemma StakeRemembers(s: System, j: nat)
    requires Inv(s) && Enabled(s, Stake(j))
    ensures Remembers(s, Step(s, Stake(j)))
  {
    assert JobOk(s, j);
    DropRemembers(s, j, s.jobs[j].phase.id, AlreadyClaimed);
  }

  lemma LookRemembers(s: System, j: nat)
    requires Inv(s) && Enabled(s, Look(j))
    ensures Remembers(s, Step(s, Look(j)))
  {
    assert JobOk(s, j);
    DropRemembers(s, j, s.jobs[j].phase.id, Failed);
  }

  lemma StepRemembers(s: System, a: Action)
    requires Inv(s) && Enabled(s, a)
    ensures Remembers(s, Step(s, a))
  {
    var p := s.jobs[a.job].phase;
    match a {
      case Look(j) => LookRemembers(s, j);
      case Stake(j) => StakeRemembers(s, j);
      case Copy(j, succeeds) =>
        assert JobOk(s, j);
        DropRemembers(s, j, p.id, if succeeds then Got(p.own) else CopyFailed);
      case _ => assert JobOk(s, a.job);
    }
  }

  lemma OutcomeKept(s: System, t: System, j: nat, id: nat, outcome: Outcome)
    requires Remembers(s, t) && j in s.jobs && id < |s.shared.slots| && OutcomeOk(s, j, id, outcome)
    ensures OutcomeOk(t, j, id, outcome)
  {
    if outcome == AlreadyClaimed {
      var k :| k != j && ClaimedBy(s, id, TargetOf(s.jobs[j].entry), k);
      assert ClaimedBy(t, id, TargetOf(t.jobs[j].entry), k);
    }
  }

  /** The other fetches' tales go on. */
  lemma OthersTale(s: System, a: Action, k: nat)
    requires Inv(s) && Tale(s) && Enabled(s, a) && k in s.jobs && k != a.job
    ensures k in Step(s, a).jobs && TaleOk(Step(s, a), k)
  {
    var t := Step(s, a);
    StepRemembers(s, a);
    assert TaleOk(s, k);
    if Ended(s.jobs[k].phase) { OutcomeKept(s, t, k, s.joined[k], s.jobs[k].phase.outcome); }
  }

  /** A fetch that ends. */
  lemma DropTale(s: System, j: nat, id: nat, outcome: Outcome)
    requires j in s.jobs && TaleOk(s, j) && Holds(s.jobs[j].phase, id) && id < |s.shared.slots|
    requires OutcomeOk(s, j, id, outcome)
    requires outcome == CopyFailed || outcome.Got? || !s.jobs[j].phase.Copying?
    ensures j in Drop(s, j, id, outcome).jobs && TaleOk(Drop(s, j, id, outcome), j)
  {
    var t := Drop(s, j, id, outcome);
    DropRemembers(s, j, id, outcome);
    OutcomeKept(s, t, j, id, outcome);
    assert s.joined[j] == id;
  }

  lemma BeginTale(s: System, j: nat)
    requires Inv(s) && j in s.jobs && TaleOk(s, j) && Enabled(s, Begin(j))
    ensures TaleOk(Step(s, Begin(j)), j)
  {
  }

  /** A fetch that goes on holding its slot. */
  lemma HoldTale(s: System, t: System, j: nat, p: Phase)
    requires j in s.jobs && TaleOk(s, j) && !s.jobs[j].phase.Copying? && t.jobs == s.jobs[j := s.jobs[j].(phase := p)]
    requires |s.shared.slots| <= |t.shared.slots| && t.joined == s.joined
    requires (p.Waiting? || p.Seen? || p.Copying?) && Holds(s.jobs[j].phase, p.id)
    requires if p.Copying? then (p.id, j) in t.claims else t.claims == s.claims
    ensures TaleOk(t, j)
  {
    assert s.joined[j] == p.id;
  }

  lemma StakeTale(s: System, j: nat)
    requires Inv(s) && Tale(s) && Enabled(s, Stake(j))
    ensures TaleOk(Step(s, Stake(j)), j)
  {
    var p, mine := s.jobs[j].phase, TargetOf(s.jobs[j].entry);
    assert TaleOk(s, j) && JobOk(s, j);
    if mine in s.shared.slots[p.id].claimed {
      var k: nat :| ClaimedBy(s, p.id, mine, k);
      assert (p.id, k) in s.claims && (p.id, k).1 == k;
      DropTale(s, j, p.id, AlreadyClaimed);
    } else {
      HoldTale(s, Step(s, Stake(j)), j, Copying(p.id, p.tmp, s.nextTmp));
    }
  }

  /** ... and that of the fetch that acts. */
  lemma OwnTale(s: System, a: Action)
    requires Inv(s) && Tale(s) && Enabled(s, a)
    ensures TaleOk(Step(s, a), a.job)
  {
    var t, j := Step(s, a), a.job;
    var p := s.jobs[j].phase;
    assert TaleOk(s, j) && JobOk(s, j);
    match a {
      case Begin(_) => BeginTale(s, j);
      case Download(_, _) => HoldTale(s, t, j, Waiting(p.id));
      case Look(_) =>
        match s.shared.slots[p.id].result.value {
          case Ok(tmp) => HoldTale(s, t, j, Seen(p.id, tmp));
          case Err(_) => DropTale(s, j, p.id, Failed);
        }
      case Stake(_) => StakeTale(s, j);
      case Copy(_, succeeds) => DropTale(s, j, p.id, if succeeds then Got(p.own) else CopyFailed);
      case Remove(_) => OutcomeKept(s, t, j, s.joined[j], p.outcome);
    }
  }

  /** A step that claims nothing leaves the claims in order. */
  lemma ClaimsKept(s: System, t: System)
    requires ClaimsOk(s) && t.jobs.Keys == s.jobs.Keys && t.claims == s.claims
    requires forall j :: j in s.jobs ==> t.jobs[j].entry == s.jobs[j].entry
    requires |s.shared.slots| <= |t.shared.slots|
    requires forall id :: 0 <= id < |t.shared.slots| ==>
      t.shared.slots[id].claimed == if id < |s.shared.slots| then s.shared.slots[id].claimed else {}
    ensures ClaimsOk(t)
  {
    forall id, x | 0 <= id < |t.shared.slots|
      ensures x in t.shared.slots[id].claimed <==> exists j :: ClaimedBy(t, id, x, j)
    {
      forall j ensures ClaimedBy(t, id, x, j) <==> ClaimedBy(s, id, x, j) {}
    }
  }

  lemma StakeClaims(s: System, j: nat)
    requires Inv(s) && Tale(s) && Enabled(s, Stake(j))
    requires TargetOf(s.jobs[j].entry) !in s.shared.slots[s.jobs[j].phase.id].claimed
    ensures ClaimsOk(Step(s, Stake(j)))
  {
    var t, id, mine := Step(s, Stake(j)), s.jobs[j].phase.id, TargetOf(s.jobs[j].entry);
    assert t.claims == s.claims + [(id, j)] && t.claims[|s.claims|] == (id, j);
    forall i, x | 0 <= i < |t.shared.slots|
      ensures x in t.shared.slots[i].claimed <==> exists k :: ClaimedBy(t, i, x, k)
    {
      StakedAt(s, j, i, x);
    }
    forall i, k | 0 <= i < k < |t.claims| && t.claims[i].0 == t.claims[k].0
      ensures TargetOf(t.jobs[t.claims[i].1].entry) != TargetOf(t.jobs[t.claims[k].1].entry)
    {
      if k == |s.claims| {
        var c := s.claims[i];
        assert c in s.claims && c == (c.0, c.1);
        if TargetOf(s.jobs[c.1].entry) == mine { assert ClaimedBy(s, id, mine, c.1); }
      }
    }
  }

  lemma StakedAt(s: System, j: nat, i: nat, x: Target)
    requires ClaimsOk(s) && Enabled(s, Stake(j)) && i < |s.shared.slots|
    requires TargetOf(s.jobs[j].entry) !in s.shared.slots[s.jobs[j].phase.id].claimed
    ensures
      var t := Step(s, Stake(j));
      x in t.shared.slots[i].claimed <==> exists k :: ClaimedBy(t, i, x, k)
  {
    var t, id, mine := Step(s, Stake(j)), s.jobs[j].phase.id, TargetOf(s.jobs[j].entry);
    if x in t.shared.slots[i].claimed {
      if x in s.shared.slots[i].claimed {
        var k :| ClaimedBy(s, i, x, k);
        assert ClaimedBy(t, i, x, k);
      } else {
        assert ClaimedBy(t, i, x, j);
      }
    }
    if k: nat :| ClaimedBy(t, i, x, k) {
      if (i, k) in s.claims { assert ClaimedBy(s, i, x, k); }
    }
  }

  lemma StepClaims(s: System, a: Action)
    requires Inv(s) && Tale(s) && Enabled(s, a)
    ensures ClaimsOk(Step(s, a))
  {
    var p := s.jobs[a.job].phase;
    StepRemembers(s, a);
    match a {
      case Look(_) =>
        DropRemembers(s, a.job, p.id, Failed);
        ClaimsKept(s, Step(s, a));
      case Stake(_) =>
        DropRemembers(s, a.job, p.id, AlreadyClaimed);
        if TargetOf(s.jobs[a.job].entry) in s.shared.slots[p.id].claimed {
          ClaimsKept(s, Step(s, a));
        } else {
          StakeClaims(s, a.job);
        }
      case Copy(_, succeeds) =>
        DropRemembers(s, a.job, p.id, if succeeds then Got(p.own) else CopyFailed);
        ClaimsKept(s, Step(s, a));
      case _ => ClaimsKept(s, Step(s, a));
    }
  }

  /** A file that a fetch has after a step it had before, or it is a new one. */
  lemma OwnedBefore(s: System, a: Action, k: nat, x: Tmp)
    requires Enabled(s, a) && k in s.jobs && Owns(Step(s, a).jobs[k].phase, x)
    ensures Owns(s.jobs[k].phase, x) || (a.Stake? && k == a.job && x == s.nextTmp && Step(s, a).nextTmp == x + 1)
  {
  }

  lemma TmpsGrow(s: System, a: Action, x: Tmp)
    requires Inv(s) && Enabled(s, a)
    requires (x < s.nextTmp && x !in s.temps) || (x == s.nextTmp && a.Stake? && Step(s, a).nextTmp == x + 1)
    ensures x < Step(s, a).nextTmp && x !in Step(s, a).temps
  {
    assert HistoryOk(s);
    var p := s.jobs[a.job].phase;
    match a {
      case Begin(_) => assert Step(s, a).temps == s.temps || Step(s, a).temps == s.temps + [s.nextTmp];
      case _ => assert Step(s, a).temps == s.temps;
    }
  }

  lemma OwnsFresh(s: System, a: Action, k: nat, x: Tmp)
    requires Inv(s) && Tale(s) && Enabled(s, a) && k in s.jobs && Owns(Step(s, a).jobs[k].phase, x)
    ensures x < Step(s, a).nextTmp && x !in Step(s, a).temps
  {
    OwnedBefore(s, a, k, x);
    TmpsGrow(s, a, x);
  }

  lemma OwnsAlone(s: System, a: Action, j: nat, k: nat, x: Tmp)
    requires Inv(s) && Tale(s) && Enabled(s, a) && j in s.jobs && k in s.jobs
    requires Owns(Step(s, a).jobs[j].phase, x) && Owns(Step(s, a).jobs[k].phase, x)
    ensures j == k
  {
    OwnedBefore(s, a, j, x);
    OwnedBefore(s, a, k, x);
  }

  lemma StepOwns(s: System, a: Action)
    requires Inv(s) && Tale(s) && Enabled(s, a)
    ensures OwnsOk(Step(s, a))
  {
    var t := Step(s, a);
    StepRemembers(s, a);
    forall k, x: Tmp {:trigger Owns(t.jobs[k].phase, x)} | k in t.jobs && Owns(t.jobs[k].phase, x)
      ensures x < t.nextTmp && x !in t.temps
    {
      OwnsFresh(s, a, k, x);
    }
    forall j, k, x: Tmp {:trigger Owns(t.jobs[j].phase, x), Owns(t.jobs[k].phase, x)}
      | j in t.jobs && k in t.jobs && Owns(t.jobs[j].phase, x) && Owns(t.jobs[k].phase, x)
      ensures j == k
    {
      OwnsAlone(s, a, j, k, x);
    }
  }

  /** Every step keeps to that. */
  lemma StepTells(s: System, a: Action)
    requires Inv(s) && Tale(s) && Enabled(s, a)
    ensures Tale(Step(s, a))
  {
    StepClaims(s, a);
    StepOwns(s, a);
    forall k | k in Step(s, a).jobs ensures TaleOk(Step(s, a), k) {
      if k == a.job { OwnTale(s, a); } else { OthersTale(s, a, k); }
    }
  }

  // ---------- over every run ----------

  ghost predicate Stepped(ss: seq<System>, acts: seq<Action>, n: nat)
    requires n < |acts| && |ss| == |acts| + 1
  {
    Enabled(ss[n], acts[n]) && ss[n + 1] == Step(ss[n], acts[n])
  }

  ghost predicate Run(ss: seq<System>, acts: seq<Action>) {
    && |ss| == |acts| + 1 && Init(ss[0])
    && forall n {:trigger Stepped(ss, acts, n)} :: 0 <= n < |acts| ==> Stepped(ss, acts, n)
  }

  lemma {:induction false} RunInv(ss: seq<System>, acts: seq<Action>, n: nat)
    requires Run(ss, acts) && n < |ss|
    ensures Inv(ss[n]) && Tale(ss[n])
    decreases n
  {
    if n == 0 {
      forall j | j in ss[0].jobs ensures JobOk(ss[0], j) && TaleOk(ss[0], j) {}
    } else {
      RunInv(ss, acts, n - 1);
      assert Stepped(ss, acts, n - 1);
      StepKeeps(ss[n - 1], acts[n - 1]);
      StepTells(ss[n - 1], acts[n - 1]);
    }
  }

  /** A slot is in use exactly while fetches hold it, and its waiter count is their number. */
  lemma ActiveWhileHeld(ss: seq<System>, acts: seq<Action>, n: nat, id: nat)
    requires Run(ss, acts) && n < |ss| && id < |ss[n].shared.slots|
    ensures ss[n].shared.slots[id].waiters == |Holders(ss[n].jobs, id)|
    ensures (exists h :: h in ss[n].shared.active && ss[n].shared.active[h] == id) <==> Holders(ss[n].jobs, id) != {}
  {
    var s := ss[n];
    RunInv(ss, acts, n);
    assert SlotOk(s, id);
    if j :| j in Holders(s.jobs, id) { assert JobOk(s, j); }
  }

  /** At most one fetch downloads for a slot: the one that made it, until there is a result. */
  lemma OneLeader(ss: seq<System>, acts: seq<Action>, n: nat, j: nat, k: nat)
    requires Run(ss, acts) && n < |ss| && j in ss[n].jobs && k in ss[n].jobs
    requires ss[n].jobs[j].phase.Leading? && ss[n].jobs[k].phase.Leading?
    requires ss[n].jobs[j].hash == ss[n].jobs[k].hash
    ensures j == k
  {
    RunInv(ss, acts, n);
    assert JobOk(ss[n], j) && JobOk(ss[n], k);
  }

  /** Nobody waits for a download that is not under way. */
  lemma SomeoneLeads(ss: seq<System>, acts: seq<Action>, n: nat, j: nat)
    requires Run(ss, acts) && n < |ss| && j in ss[n].jobs && ss[n].jobs[j].phase.Waiting?
    ensures Enabled(ss[n], Look(j)) ||
      exists k :: Enabled(ss[n], Download(k, true)) && ss[n].jobs[k].phase.id == ss[n].jobs[j].phase.id
  {
    var s := ss[n];
    RunInv(ss, acts, n);
    assert JobOk(s, j);
    var id := s.jobs[j].phase.id;
    assert SlotOk(s, id);
    if s.shared.slots[id].result.None? {
      assert Enabled(s, Download(s.leaders[id], true));
    }
  }

  /** Two claims on one slot are for different paths or different versions. */
  lemma ClaimedOnce(ss: seq<System>, acts: seq<Action>, n: nat, i: nat, k: nat)
    requires Run(ss, acts) && n < |ss| && i < k < |ss[n].claims| && ss[n].claims[i].0 == ss[n].claims[k].0
    ensures ss[n].claims[i].1 in ss[n].jobs && ss[n].claims[k].1 in ss[n].jobs
    ensures
      var a, b := ss[n].jobs[ss[n].claims[i].1].entry, ss[n].jobs[ss[n].claims[k].1].entry;
      a.path != b.path || a.version != b.version
  {
    RunInv(ss, acts, n);
    assert ss[n].claims[i] in ss[n].claims && ss[n].claims[k] in ss[n].claims;
    SameTarget(ss[n].jobs[ss[n].claims[i].1].entry, ss[n].jobs[ss[n].claims[k].1].entry);
  }

  lemma {:induction false} NoRepeats<T>(xs: seq<T>, x: T)
    requires forall i, k :: 0 <= i < k < |xs| ==> xs[i] != xs[k]
    ensures multiset(xs)[x] <= 1
    decreases |xs|
  {
    if xs != [] {
      assert xs == [xs[0]] + xs[1..];
      NoRepeats(xs[1..], x);
      if xs[0] == x { assert x !in xs[1..]; }
    }
  }

  /** A shared file is handed out for deletion at most once, when the last holder of its slot
      lets go, and from then on nobody is or will be reading it. */
  lemma HandedOnce(ss: seq<System>, acts: seq<Action>, n: nat, t: Tmp)
    requires Run(ss, acts) && n < |ss|
    ensures multiset(ss[n].handed)[t] <= 1
    ensures t in ss[n].handed ==> forall j :: j in ss[n].jobs ==>
      !((ss[n].jobs[j].phase.Leading? || ss[n].jobs[j].phase.Seen? || ss[n].jobs[j].phase.Copying?)
        && ss[n].jobs[j].phase.tmp == t)
  {
    var s := ss[n];
    RunInv(ss, acts, n);
    assert HistoryOk(s);
    NoRepeats(s.handed, t);
    forall j | j in s.jobs && t in s.handed
      ensures !((s.jobs[j].phase.Leading? || s.jobs[j].phase.Seen? || s.jobs[j].phase.Copying?)
        && s.jobs[j].phase.tmp == t)
    {
      var p := s.jobs[j].phase;
      assert JobOk(s, j);
      if p.Leading? || p.Seen? || p.Copying? {
        HolderFacts(s, j, p.id);
        assert SlotOk(s, p.id);
      }
    }
  }

  /** No shared file is left behind: once no fetch holds anything, every download that
      succeeded has been handed out for deletion, and no slot is in use. */
  lemma NothingLeftBehind(ss: seq<System>, acts: seq<Action>, n: nat, id: nat)
    requires Run(ss, acts) && n < |ss| && id < |ss[n].shared.slots|
    requires forall j :: j in ss[n].jobs ==> ss[n].jobs[j].phase.Idle? || ss[n].jobs[j].phase.Finished?
    ensures ss[n].shared.active == map[]
    ensures SharedTmp(ss[n].shared.slots[id]).Some? ==>
      multiset(ss[n].handed)[SharedTmp(ss[n].shared.slots[id]).value] == 1
  {
    var s := ss[n];
    RunInv(ss, acts, n);
    assert SlotOk(s, id);
    assert Holders(s.jobs, id) == {};
    forall h ensures h !in s.shared.active {
      assert h in s.shared.active ==> SlotOk(s, s.shared.active[h]) && Holders(s.jobs, s.shared.active[h]) == {};
    }
    if SharedTmp(s.shared.slots[id]).Some? { NoRepeats(s.handed, s.temps[id]); }
  }

  // ---------- how fetches end ----------

  /** Action `m` ends the download of slot `id`. */
  ghost predicate Downloaded(ss: seq<System>, acts: seq<Action>, m: nat, id: nat, succeeds: bool) {
    && m < |acts| && m < |ss| && acts[m].Download? && acts[m].succeeds == succeeds
    && acts[m].job in ss[m].jobs && Holds(ss[m].jobs[acts[m].job].phase, id)
  }

  /** A result is that of a download, ... */
  lemma {:induction false} ResultComes(ss: seq<System>, acts: seq<Action>, n: nat, id: nat)
    requires Run(ss, acts) && n < |ss| && id < |ss[n].shared.slots| && ss[n].shared.slots[id].result.Some?
    ensures exists m: nat :: m < n && Downloaded(ss, acts, m, id, ss[n].shared.slots[id].result.value.Ok?)
    decreases n
  {
    var s, a, ok := ss[n - 1], acts[n - 1], ss[n].shared.slots[id].result.value.Ok?;
    assert Stepped(ss, acts, n - 1);
    if id < |s.shared.slots| && s.shared.slots[id].result == ss[n].shared.slots[id].result {
      ResultComes(ss, acts, n - 1, id);
      var m: nat :| m < n - 1 && Downloaded(ss, acts, m, id, ok);
      assert Downloaded(ss, acts, m, id, ok);
    } else {
      assert Downloaded(ss, acts, n - 1, id, ok);
    }
  }

  /** ... and stays. */
  lemma {:induction false} ResultStays(ss: seq<System>, acts: seq<Action>, m: nat, n: nat, id: nat)
    requires Run(ss, acts) && m <= n < |ss| && id < |ss[m].shared.slots| && ss[m].shared.slots[id].result.Some?
    ensures id < |ss[n].shared.slots| && ss[n].shared.slots[id].result == ss[m].shared.slots[id].result
    decreases n
  {
    if m < n {
      ResultStays(ss, acts, m, n - 1, id);
      RunInv(ss, acts, n - 1);
      assert Stepped(ss, acts, n - 1);
      StepRemembers(ss[n - 1], acts[n - 1]);
    }
  }

  lemma DownloadedResult(ss: seq<System>, acts: seq<Action>, m: nat, n: nat, id: nat, succeeds: bool)
    requires Run(ss, acts) && m < n < |ss| && Downloaded(ss, acts, m, id, succeeds)
    ensures id < |ss[n].shared.slots| && ss[n].shared.slots[id].result.Some?
    ensures ss[n].shared.slots[id].result.value.Ok? == succeeds
  {
    assert Stepped(ss, acts, m);
    ResultStays(ss, acts, m + 1, n, id);
  }

  /** An outcome does not change any more, ... */
  lemma {:induction false} EndStays(ss: seq<System>, acts: seq<Action>, m: nat, n: nat, j: nat)
    requires Run(ss, acts) && m <= n < |ss| && j in ss[m].jobs && Ended(ss[m].jobs[j].phase)
    ensures j in ss[n].jobs && Ended(ss[n].jobs[j].phase)
    ensures OutcomeOf(ss[n].jobs[j].phase) == OutcomeOf(ss[m].jobs[j].phase)
    decreases n
  {
    if m < n {
      EndStays(ss, acts, m, n - 1, j);
      assert Stepped(ss, acts, n - 1);
    }
  }

  /** ... and a fetch that has copied its file ends by that. */
  lemma CopyEnds(ss: seq<System>, acts: seq<Action>, m: nat, n: nat, j: nat, succeeds: bool)
    requires Run(ss, acts) && m < n < |ss| && acts[m] == Copy(j, succeeds)
    ensures j in ss[n].jobs && Ended(ss[n].jobs[j].phase)
    ensures if succeeds then OutcomeOf(ss[n].jobs[j].phase).Got? else OutcomeOf(ss[n].jobs[j].phase) == CopyFailed
  {
    assert Stepped(ss, acts, m);
    EndStays(ss, acts, m + 1, n, j);
  }

  lemma {:induction false} EndedByCopy(ss: seq<System>, acts: seq<Action>, n: nat, j: nat)
    requires Run(ss, acts) && n < |ss| && j in ss[n].jobs && Ended(ss[n].jobs[j].phase)
    requires OutcomeOf(ss[n].jobs[j].phase) == CopyFailed || OutcomeOf(ss[n].jobs[j].phase).Got?
    ensures Copy(j, OutcomeOf(ss[n].jobs[j].phase).Got?) in acts[..n]
    decreases n
  {
    assert n > 0;
    var got := OutcomeOf(ss[n].jobs[j].phase).Got?;
    assert Stepped(ss, acts, n - 1);
    if Ended(ss[n - 1].jobs[j].phase) {
      EndedByCopy(ss, acts, n - 1, j);
      assert acts[..n] == acts[..n - 1] + [acts[n - 1]];
    } else {
      assert acts[n - 1] == Copy(j, got);
      assert acts[..n][n - 1] == Copy(j, got);
    }
  }

  /** Every fetch that has ended has ended as it should: with an error exactly if its slot's
      download failed or its own copy did, with a file of its own exactly if the copy
      succeeded, and with nothing only if another fetch has claimed the same path and version
      on the same slot. */
  lemma HowItEnded(ss: seq<System>, acts: seq<Action>, n: nat, j: nat)
    requires Run(ss, acts) && n < |ss| && j in ss[n].jobs && Ended(ss[n].jobs[j].phase)
    ensures j in ss[n].joined
    ensures
      var outcome, id := OutcomeOf(ss[n].jobs[j].phase), ss[n].joined[j];
      && (outcome == Failed <==> exists m: nat :: m < n && Downloaded(ss, acts, m, id, false))
      && (outcome == CopyFailed <==> Copy(j, false) in acts[..n])
      && (outcome.Got? <==> Copy(j, true) in acts[..n])
      && (outcome == AlreadyClaimed ==> exists k :: TakenBy(ss[n], id, ss[n].jobs[j].entry, k) && k != j)
  {
    var s := ss[n];
    RunInv(ss, acts, n);
    assert TaleOk(s, j);
    var outcome, id := OutcomeOf(s.jobs[j].phase), s.joined[j];
    if outcome == Failed { ResultComes(ss, acts, n, id); }
    if m: nat :| m < n && Downloaded(ss, acts, m, id, false) { DownloadedResult(ss, acts, m, n, id, false); }
    forall ok | Copy(j, ok) in acts[..n] ensures if ok then outcome.Got? else outcome == CopyFailed {
      var m: nat :| m < n && acts[m] == Copy(j, ok);
      CopyEnds(ss, acts, m, n, j, ok);
    }
    if outcome == CopyFailed || outcome.Got? { EndedByCopy(ss, acts, n, j); }
    if outcome == AlreadyClaimed {
      var k: nat :| k != j && ClaimedBy(s, id, TargetOf(s.jobs[j].entry), k);
      SameTarget(s.jobs[j].entry, s.jobs[k].entry);
      assert TakenBy(s, id, s.jobs[j].entry, k);
    }
  }

  /** Fetch `k` has claimed the path and version of `e` on slot `id`. */
  ghost predicate TakenBy(s: System, id: nat, e: Entry, k: nat) {
    (id, k) in s.claims && k in s.jobs && s.jobs[k].entry.path == e.path && s.jobs[k].entry.version == e.version
  }

  /** Every file handed to a fetch is its alone: no other fetch has it, and no download goes
      to it. */
  lemma OwnFiles(ss: seq<System>, acts: seq<Action>, n: nat, j: nat, x: Tmp)
    requires Run(ss, acts) && n < |ss| && j in ss[n].jobs && Owns(ss[n].jobs[j].phase, x)
    ensures forall k :: k in ss[n].jobs && Owns(ss[n].jobs[k].phase, x) ==> k == j
    ensures forall k :: k in ss[n].jobs && ss[n].jobs[k].phase.Leading? ==> ss[n].jobs[k].phase.tmp != x
    ensures x !in ss[n].handed
  {
    var s := ss[n];
    RunInv(ss, acts, n);
    assert x !in s.temps;
    forall k | k in s.jobs && s.jobs[k].phase.Leading? ensures s.jobs[k].phase.tmp != x { assert JobOk(s, k); }
  }
}
