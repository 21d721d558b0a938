/** The autoDream lock (robothor/engine/autodream.py): a Redis key with a time to live, taken with
    SET NX EX and given back by a read followed, as a separate command, by a delete. */
module DreamLock {
  import opened Sequences

  type RunId = string

  datatype Entry = Entry(owner: RunId, expiresAt: nat)

  /** The key as a command sees it at time `now`. */
  function Live(now: nat, key: Option<Entry>): Option<Entry> {
    if key.Some? && now < key.value.expiresAt then key else None
  }

  /** SET key id NX EX ttl. */
  function SetIfAbsent(now: nat, key: Option<Entry>, id: RunId, ttl: nat): (r: (Option<Entry>, bool))
    ensures r.1 <==> Live(now, key).None?
    ensures r.0 == if r.1 then Some(Entry(id, now + ttl)) else key
  {
    if Live(now, key).None? then (Some(Entry(id, now + ttl)), true) else (key, false)
  }

  predicate Owns(now: nat, key: Option<Entry>, id: RunId) {
    Live(now, key).Some? && key.value.owner == id
  }

  // ---- The commands and the functions that issue them ----

  /** The server, shared by every run; each method is one command. */
  class LockServer {
    var now: nat
    var key: Option<Entry>

    constructor ()
      ensures now == 0 && key == None
    {
      now, key := 0, None;
    }

    method Set(id: RunId, ttl: nat) returns (acquired: bool)
      modifies this`key
      ensures (key, acquired) == SetIfAbsent(now, old(key), id, ttl)
    {
      if key.Some? && now < key.value.expiresAt {
        return false;
      }
      key := Some(Entry(id, now + ttl));
      return true;
    }

    method Get() returns (owner: Option<RunId>)
      ensures owner == match Live(now, key) case None => None case Some(e) => Some(e.owner)
    {
      if key.Some? && now < key.value.expiresAt {
        return Some(key.value.owner);
      }
      return None;
    }

    method Delete()
      modifies this`key
      ensures key == None
    {
      key := None;
    }
  }

  /** How a command fares: it is answered, it never reaches the server, or it takes effect and the reply is lost. */
  datatype Delivery = Answered | Undelivered | Unheard

  /** Whatever raises lets the run through, whether the key was set or not. */
  method TryAcquireLock(server: LockServer?, delivery: Delivery, id: RunId, ttl: nat) returns (acquired: bool)
    modifies if server == null then {} else {server}
    ensures server == null || delivery != Answered ==> acquired
    ensures server != null ==> server.now == old(server.now)
    ensures server != null && delivery == Answered ==> (server.key, acquired) == SetIfAbsent(server.now, old(server.key), id, ttl)
    ensures server != null && delivery == Unheard ==> server.key == SetIfAbsent(server.now, old(server.key), id, ttl).0
    ensures server != null && delivery == Undelivered ==> server.key == old(server.key)
  {
    if server == null || delivery == Undelivered {
      return true;
    }
    acquired := server.Set(id, ttl);
    if delivery == Unheard {
      return true;
    }
  }

  /** The release when no other command and no expiry falls between its read and its delete. */
  method ReleaseLock(server: LockServer?, id: RunId)
    modifies if server == null then {} else {server}
    ensures server != null ==> server.now == old(server.now)
    ensures server != null ==>
      server.key == if Owns(server.now, old(server.key), id) then None else old(server.key)
  {
    if server == null {
      return;
    }
    var current := server.Get();
    if current == Some(id) {
      server.Delete();
    }
  }

  // ---- Runs, step by step ----

  /** A run is active from its acquire until its delete. `Checked` is the moment between the read
      that found its own id and the delete; a run that found another id, or died, has `Ended`. */
  datatype Phase = Working(since: nat) | Checked(since: nat) | Ended

  datatype System = System(now: nat, key: Option<Entry>, lastAcquire: Option<nat>, runs: map<RunId, Phase>)

  /** `AcquireOffline` is an acquire that does not reach the server, `AcquireUnheard` one whose reply is lost. A run
      may `Stop` at any moment: it died, was cancelled, or its release could not reach the server. */
  datatype Step =
    | Tick(d: nat)
    | Acquire(id: RunId)
    | AcquireOffline(id: RunId)
    | AcquireUnheard(id: RunId)
    | Check(id: RunId)
    | Delete(id: RunId)
    | Stop(id: RunId)

  const START := System(0, None, None, map[])

  predicate Active(s: System, id: RunId) {
    id in s.runs && !s.runs[id].Ended?
  }

  /** A step that is not enabled, such as a second acquire under the same run id, changes nothing. */
  function Next(s: System, step: Step, ttl: nat): System {
    match step
    case Tick(d) => s.(now := s.now + d)
    case Acquire(id) =>
      if id in s.runs then s
      else
        var (key, acquired) := SetIfAbsent(s.now, s.key, id, ttl);
        if acquired then s.(key := key, lastAcquire := Some(s.now), runs := s.runs[id := Working(s.now)])
        else s.(runs := s.runs[id := Ended])
    case AcquireOffline(id) =>
      if id in s.runs then s else s.(runs := s.runs[id := Working(s.now)])
    case AcquireUnheard(id) =>
      if id in s.runs then s
      else
        var (key, acquired) := SetIfAbsent(s.now, s.key, id, ttl);
        s.(key := key, lastAcquire := if acquired then Some(s.now) else s.lastAcquire, runs := s.runs[id := Working(s.now)])
    case Check(id) =>
      if id in s.runs && s.runs[id].Working? then
        s.(runs := s.runs[id := if Owns(s.now, s.key, id) then Checked(s.runs[id].since) else Ended])
      else s
    case Delete(id) =>
      if id in s.runs && s.runs[id].Checked? then s.(key := None, runs := s.runs[id := Ended]) else s
    case Stop(id) =>
      if id in s.runs then s.(runs := s.runs[id := Ended]) else s
  }

  function Run(s: System, steps: seq<Step>, ttl: nat): System
    decreases |steps|
  {
    if steps == [] then s else Run(Next(s, steps[0], ttl), steps[1..], ttl)
  }

  // ---- Mutual exclusion ----

  predicate Overstayed(s: System, id: RunId, ttl: nat) {
    Active(s, id) && s.now >= s.runs[id].since + ttl
  }

  predicate OnTime(s: System, ttl: nat) {
    forall id :: id in s.runs ==> !Overstayed(s, id, ttl)
  }

  /** In every state of the run, each active run is still within its time to live. */
  predicate AlwaysOnTime(s: System, steps: seq<Step>, ttl: nat)
    decreases |steps|
  {
    OnTime(s, ttl) && (steps == [] || AlwaysOnTime(Next(s, steps[0], ttl), steps[1..], ttl))
  }

  /** No run is let through without the key: every acquire is answered, or its lost reply was that it got the key. */
  predicate Keyed(s: System, step: Step) {
    match step
    case AcquireOffline(_) => false
    case AcquireUnheard(_) => Live(s.now, s.key).None?
    case _ => true
  }

  predicate AlwaysKeyed(s: System, steps: seq<Step>, ttl: nat)
    decreases |steps|
  {
    steps == [] || (Keyed(s, steps[0]) && AlwaysKeyed(Next(s, steps[0], ttl), steps[1..], ttl))
  }

  predicate AtMostOneActive(s: System) {
    forall a, b :: a in s.runs && b in s.runs && Active(s, a) && Active(s, b) ==> a == b
  }

  /** Each active run's own entry is the one on the server, with the expiry its acquire gave it. */
  predicate Holds(s: System, ttl: nat) {
    forall id :: id in s.runs && Active(s, id) ==> s.key == Some(Entry(id, s.runs[id].since + ttl))
  }

  lemma HoldsIsExclusive(s: System, ttl: nat)
    requires Holds(s, ttl)
    ensures AtMostOneActive(s)
  {
  }

  /** No step breaks the invariant as long as the state it starts from is on time. */
  lemma StepHolds(s: System, step: Step, ttl: nat)
    requires Holds(s, ttl) && OnTime(s, ttl) && Keyed(s, step)
    ensures Holds(Next(s, step, ttl), ttl)
  {
  }

  /** A delete reaches another run's entry, or an entry that has expired. */
  predicate DeletesForeign(s: System, step: Step) {
    step.Delete? && step.id in s.runs && s.runs[step.id].Checked? && !Owns(s.now, s.key, step.id)
  }

  predicate NoForeignDelete(s: System, steps: seq<Step>, ttl: nat)
    decreases |steps|
  {
    steps == [] || (!DeletesForeign(s, steps[0]) && NoForeignDelete(Next(s, steps[0], ttl), steps[1..], ttl))
  }

  /** If every run deletes within the time to live of its acquire, at most one run is ever between
      its acquire and its delete, and no release removes another run's key: for every interleaving
      of any number of runs, deaths and waits. */
  lemma {:induction false} OneRunAtATime(s: System, steps: seq<Step>, ttl: nat)
    requires Holds(s, ttl) && AlwaysOnTime(s, steps, ttl) && AlwaysKeyed(s, steps, ttl)
    ensures Holds(Run(s, steps, ttl), ttl) && AtMostOneActive(Run(s, steps, ttl))
    ensures NoForeignDelete(s, steps, ttl)
    decreases |steps|
  {
    if steps == [] {
      HoldsIsExclusive(s, ttl);
    } else {
      StepHolds(s, steps[0], ttl);
      OwnEntryIsLive(s, steps[0], ttl);
      OneRunAtATime(Next(s, steps[0], ttl), steps[1..], ttl);
    }
  }

  lemma OwnEntryIsLive(s: System, step: Step, ttl: nat)
    requires Holds(s, ttl) && OnTime(s, ttl)
    ensures !DeletesForeign(s, step)
  {
  }

  /** So from the empty server on, whatever runs come and go. */
  lemma OneRunAtATimeFromTheStart(steps: seq<Step>, ttl: nat)
    requires AlwaysOnTime(START, steps, ttl) && AlwaysKeyed(START, steps, ttl)
    ensures AtMostOneActive(Run(START, steps, ttl)) && NoForeignDelete(START, steps, ttl)
  {
    OneRunAtATime(START, steps, ttl);
  }

  /** The time limit is exactly what exclusion needs: while the invariant holds, one more acquire puts
      a second run beside an active one just when that one has overstayed. */
  lemma OverlapsExactlyWhenOverstayed(s: System, id: RunId, ttl: nat)
    requires Holds(s, ttl) && id !in s.runs && ttl > 0
    ensures AtMostOneActive(Next(s, Acquire(id), ttl)) <==> OnTime(s, ttl)
  {
    var t := Next(s, Acquire(id), ttl);
    HoldsIsExclusive(s, ttl);
    if OnTime(s, ttl) {
      StepHolds(s, Acquire(id), ttl);
      HoldsIsExclusive(t, ttl);
    } else {
      var other :| other in s.runs && Overstayed(s, other, ttl);
      assert Live(s.now, s.key) == None;
      assert Active(t, other) && Active(t, id) && other != id;
    }
  }

  // ---- Expiry, with no assumption ----

  /** Whatever key there is carries the expiry of the last acquire. */
  predicate ExpiryIsLastAcquire(s: System, ttl: nat) {
    s.key.Some? ==> s.lastAcquire.Some? && s.key.value.expiresAt == s.lastAcquire.value + ttl
  }

  lemma {:induction false} ExpiryFollowsAcquire(s: System, steps: seq<Step>, ttl: nat)
    requires ExpiryIsLastAcquire(s, ttl)
    ensures ExpiryIsLastAcquire(Run(s, steps, ttl), ttl)
    decreases |steps|
  {
    if steps != [] {
      assert ExpiryIsLastAcquire(Next(s, steps[0], ttl), ttl);
      ExpiryFollowsAcquire(Next(s, steps[0], ttl), steps[1..], ttl);
    }
  }

  /** No deadlock: over any run whatever, whoever died and however late anyone was, the key is gone
      once the time to live has passed since the last acquire, and the next run gets the lock. */
  lemma LockFreesItself(steps: seq<Step>, id: RunId, ttl: nat)
    requires ttl > 0
    ensures var s := Run(START, steps, ttl);
            s.lastAcquire.None? || s.now >= s.lastAcquire.value + ttl ==>
              && Live(s.now, s.key).None?
              && (id !in s.runs ==> Owns(s.now, Next(s, Acquire(id), ttl).key, id) && Active(Next(s, Acquire(id), ttl), id))
  {
    ExpiryFollowsAcquire(START, steps, ttl);
  }

  // ---- What the time limit is for ----

  /** The delete, which no longer looks at the owner, misses its own key exactly when the run is late. */
  lemma DeleteIsForeignIff(s: System, id: RunId, ttl: nat)
    requires Holds(s, ttl) && id in s.runs && s.runs[id].Checked?
    ensures DeletesForeign(s, Delete(id)) <==> Overstayed(s, id, ttl)
  {
    assert Active(s, id);
  }

  /** A run that read its own id before the expiry and deletes after it removes the next run's key:
      two runs that are both well within their own time are then active together. */
  lemma LateDeleteLetsTwoIn(s: System, late: RunId, b: RunId, c: RunId, ttl: nat)
    requires Holds(s, ttl) && Overstayed(s, late, ttl) && s.runs[late].Checked? && ttl > 0
    requires b !in s.runs && c !in s.runs && b != c
    ensures var s1 := Next(s, Acquire(b), ttl);
            var s2 := Next(Next(s1, Delete(late), ttl), Acquire(c), ttl);
            && DeletesForeign(s1, Delete(late)) && Owns(s1.now, s1.key, b)
            && Active(s2, b) && Active(s2, c) && !Overstayed(s2, b, ttl) && !Overstayed(s2, c, ttl)
  {
    assert Live(s.now, s.key) == None;
  }

  /** Such a state is reached by one run that is slow between its two commands. */
  lemma LateDeleteIsReachable(late: RunId, ttl: nat)
    requires ttl > 0
    ensures var s := Run(START, [Acquire(late), Tick(ttl - 1), Check(late), Tick(1)], ttl);
            Holds(s, ttl) && Overstayed(s, late, ttl) && s.runs[late].Checked?
  {
    var s1 := Next(START, Acquire(late), ttl);
    var s2 := Next(s1, Tick(ttl - 1), ttl);
    var s3 := Next(s2, Check(late), ttl);
    var s4 := Next(s3, Tick(1), ttl);
    assert s4 == System(ttl, Some(Entry(late, ttl)), Some(0), map[late := Checked(0)]);
    RunOnce(s3, Tick(1), [], ttl);
    RunOnce(s2, Check(late), [Tick(1)], ttl);
    RunOnce(s1, Tick(ttl - 1), [Check(late), Tick(1)], ttl);
    RunOnce(START, Acquire(late), [Tick(ttl - 1), Check(late), Tick(1)], ttl);
  }

  lemma RunOnce(s: System, step: Step, rest: seq<Step>, ttl: nat)
    ensures Run(s, [step] + rest, ttl) == Run(Next(s, step, ttl), rest, ttl)
  {
    assert ([step] + rest)[1..] == rest;
  }

  /** Failing open costs exclusion: one acquire that raises beside an active run suffices. */
  lemma OfflineAcquireOverlaps(s: System, id: RunId, other: RunId, ttl: nat)
    requires Active(s, other) && id !in s.runs
    ensures !AtMostOneActive(Next(s, AcquireOffline(id), ttl)) && !AtMostOneActive(Next(s, AcquireUnheard(id), ttl))
  {
    var t, u := Next(s, AcquireOffline(id), ttl), Next(s, AcquireUnheard(id), ttl);
    assert Active(t, id) && Active(t, other);
    assert Active(u, id) && Active(u, other);
  }

  /** A lost reply does harm exactly when the key was taken. */
  lemma UnheardHoldsIff(s: System, id: RunId, ttl: nat)
    requires Holds(s, ttl) && OnTime(s, ttl) && id !in s.runs && (s.key.Some? ==> s.key.value.owner in s.runs)
    ensures Holds(Next(s, AcquireUnheard(id), ttl), ttl) <==> Live(s.now, s.key).None?
  {
    var t := Next(s, AcquireUnheard(id), ttl);
    assert Active(t, id);
    if Live(s.now, s.key).None? {
      StepHolds(s, AcquireUnheard(id), ttl);
    }
  }

  // ---- The functions and the protocol agree ----

  /** The two commands of an undisturbed release do to the key what `ReleaseLock` does, and end the run. */
  lemma ReleaseIsCheckThenDelete(s: System, id: RunId, ttl: nat)
    requires id in s.runs && s.runs[id].Working?
    ensures var t := Next(Next(s, Check(id), ttl), Delete(id), ttl);
            && t.now == s.now && t.lastAcquire == s.lastAcquire && t.runs == s.runs[id := Ended]
            && t.key == if s.key.Some? && s.now < s.key.value.expiresAt && s.key.value.owner == id then None else s.key
  {
  }

  /** An answered acquire of a new run takes the key exactly when there is none or it has expired, and runs only then. */
  lemma AcquireAnswer(s: System, id: RunId, ttl: nat)
    requires id !in s.runs
    ensures var t := Next(s, Acquire(id), ttl);
            var free := s.key == None || s.now >= s.key.value.expiresAt;
            && t.now == s.now && t.runs == s.runs[id := if free then Working(s.now) else Ended]
            && t.key == (if free then Some(Entry(id, s.now + ttl)) else s.key)
            && t.lastAcquire == (if free then Some(s.now) else s.lastAcquire)
  {
  }
}
