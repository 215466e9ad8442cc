/** The lease that keeps two operators from managing one instance. */
module Lease {
  import opened Options

  /** Times and durations are in nanoseconds. */
  const SECOND := 1_000_000_000
  const LEASE_DURATION := 120 * SECOND

  type Identity = string

  /** `renew` is None when the stored text is not a time. */
  datatype LeaseSpec = LeaseSpec(holder: Identity, seconds: int, renew: Option<int>)

  datatype LeaseObject = LeaseObject(version: nat, spec: LeaseSpec)

  /** RenewTime is written with six decimals, so the nanoseconds below a microsecond are cut off. */
  function Micros(now: int): int {
    now - now % 1000
  }

  function Held(identity: Identity, now: int): LeaseSpec {
    LeaseSpec(identity, LEASE_DURATION / SECOND, Some(Micros(now)))
  }

  function HoldEnd(spec: LeaseSpec, renewed: int): int {
    renewed + if spec.seconds <= 0 then LEASE_DURATION else spec.seconds * SECOND
  }

  predicate Expired(spec: LeaseSpec, now: int) {
    match spec.renew
    case None => true
    case Some(renewed) => now > HoldEnd(spec, renewed)
  }

  /** The lease turns this operator away. */
  predicate Blocks(spec: LeaseSpec, identity: Identity, now: int) {
    spec.holder != "" && spec.holder != identity && !Expired(spec, now)
  }

  datatype SendError = Ok | Conflict | NotFound

  /** The API server's copy. Every accepted write gets a version above `revision`, which other objects advance too. */
  datatype Server = Server(lease: Option<LeaseObject>, revision: nat)

  /** POST creates: it conflicts with an existing object. */
  function Post(s: Server, spec: LeaseSpec): (Server, SendError) {
    if s.lease.Some? then (s, Conflict)
    else (Server(Some(LeaseObject(s.revision + 1, spec)), s.revision + 1), Ok)
  }

  /** PUT replaces the object it read: it conflicts when the version sent back is not the stored one. */
  function Put(s: Server, version: nat, spec: LeaseSpec): (Server, SendError) {
    if s.lease.None? then (s, NotFound)
    else if s.lease.value.version != version then (s, Conflict)
    else (Server(Some(LeaseObject(s.revision + 1, spec)), s.revision + 1), Ok)
  }

  /** The write of a claim that read `basis`: POST when nothing was there, PUT otherwise. */
  function SendHeld(s: Server, basis: Option<LeaseObject>, identity: Identity, now: int): (Server, SendError) {
    match basis
    case None => Post(s, Held(identity, now))
    case Some(lease) => Put(s, lease.version, Held(identity, now))
  }

  datatype Claim = Holds | HeldBy(holder: Identity) | Failed

  function ClaimResult(err: SendError): Claim {
    match err
    case Ok => Holds
    case Conflict => HeldBy("another operator")
    case NotFound => Failed
  }

  /** One claim in flight: the clock was read, then the lease was read. */
  datatype Phase = ClockRead(now: int) | LeaseRead(now: int, basis: Option<LeaseObject>)

  /** What a claim was answered; `size` is the length of the log at that moment. */
  datatype Answer = Answer(proc: Process, result: Claim, now: int, size: nat)

  /** What happened to the lease: an accepted write, stamped with the writer's clock reading, or a deletion. */
  datatype Entry = Wrote(id: Identity, stamp: int) | Deleted

  /** A running operator; each runs one claim at a time. */
  type Process = nat

  /** The identity a process writes into the lease: its namespace, which two processes may share. */
  type Naming = Process -> Identity

  datatype State =
    State(server: Server, clock: int, claims: map<Process, Phase>, log: seq<Entry>, answers: seq<Answer>)

  datatype Step =
    | Tick(elapsed: nat)
    | OtherWrite
    | ReadClock(proc: Process)
    | ReadLease(proc: Process)
    | Send(proc: Process, heard: bool)
    | Abandon(proc: Process)
    | Delete

  predicate Enabled(s: State, step: Step) {
    match step
    case ReadClock(p) => p !in s.claims
    case ReadLease(p) => p in s.claims && s.claims[p].ClockRead?
    case Send(p, _) => p in s.claims && s.claims[p].LeaseRead?
    case Abandon(p) => p in s.claims
    case _ => true
  }

  /** The claim of `p` is over, and this is its answer. */
  function Ended(s: State, p: Process, result: Claim): State
    requires p in s.claims
  {
    s.(claims := s.claims - {p}, answers := s.answers + [Answer(p, result, s.claims[p].now, |s.log|)])
  }

  /** One atomic step. A claim whose request or response is lost fails, though the write may have been accepted. */
  function Apply(who: Naming, s: State, step: Step): State
    requires Enabled(s, step)
  {
    match step
    case Tick(elapsed) => s.(clock := s.clock + elapsed)
    case OtherWrite => s.(server := s.server.(revision := s.server.revision + 1))
    case ReadClock(p) => s.(claims := s.claims[p := ClockRead(s.clock)])
    case ReadLease(p) =>
      var now := s.claims[p].now;
      if s.server.lease.Some? && Blocks(s.server.lease.value.spec, who(p), now)
      then Ended(s, p, HeldBy(s.server.lease.value.spec.holder))
      else s.(claims := s.claims[p := LeaseRead(now, s.server.lease)])
    case Send(p, heard) =>
      var (now, basis) := (s.claims[p].now, s.claims[p].basis);
      var (server, err) := SendHeld(s.server, basis, who(p), now);
      var t := s.(server := server, log := if err == Ok then s.log + [Wrote(who(p), now)] else s.log);
      Ended(t, p, if heard then ClaimResult(err) else Failed)
    case Abandon(p) => Ended(s, p, Failed)
    case Delete => s.(server := s.server.(lease := None), log := s.log + [Deleted])
  }

  /** Only the given processes take part. */
  predicate Within(procs: set<Process>, step: Step) {
    !step.Tick? && !step.OtherWrite? && !step.Delete? ==> step.proc in procs
  }

  ghost predicate IsStep(who: Naming, procs: set<Process>, s: State, step: Step, t: State) {
    Enabled(s, step) && Within(procs, step) && t == Apply(who, s, step)
  }

  /** `run` is the list of states passed through from `run[0]` by `steps`. */
  ghost predicate IsRun(who: Naming, procs: set<Process>, run: seq<State>, steps: seq<Step>) {
    && |run| == |steps| + 1 && Initial(run[0])
    && forall i {:trigger steps[i]} :: 0 <= i < |steps| ==> IsStep(who, procs, run[i], steps[i], run[i + 1])
  }

  /** A cluster may start with any lease, left by anyone. */
  ghost predicate Initial(s: State) {
    && (s.server.lease.Some? ==> s.server.lease.value.version <= s.server.revision)
    && s.claims == map[] && s.log == [] && s.answers == []
  }

  /** Entries `i` to `j` are writes, with no deletion in between. */
  ghost predicate Segment(log: seq<Entry>, i: nat, j: nat) {
    i <= j < |log| && forall k :: i <= k <= j ==> log[k].Wrote?
  }

  /** The time until which a write holds the instance. */
  function End(e: Entry): int
    requires e.Wrote?
  {
    Micros(e.stamp) + LEASE_DURATION
  }

  /** A later write by the same operator is not stamped earlier; one by another is stamped after the hold ended. */
  predicate Follows(a: Entry, b: Entry)
    requires a.Wrote? && b.Wrote?
  {
    if a.id == b.id then a.stamp <= b.stamp else b.stamp > End(a)
  }

  ghost predicate InOrder(log: seq<Entry>) {
    forall i: nat, j: nat :: i < j && Segment(log, i, j) ==> Follows(log[i], log[j])
  }

  ghost predicate StampsUpTo(log: seq<Entry>, id: Identity, now: int) {
    forall e :: e in log && e.Wrote? && e.id == id ==> e.stamp <= now
  }

  /** The last entry of the log accounts for the stored lease. */
  ghost predicate Recorded(s: State) {
    && (s.log != [] && s.log[|s.log| - 1].Wrote? ==>
          && s.server.lease.Some?
          && s.server.lease.value.spec == Held(s.log[|s.log| - 1].id, s.log[|s.log| - 1].stamp))
    && (s.server.lease.Some? ==> s.server.lease.value.version <= s.server.revision)
  }

  ghost predicate ClaimSound(s: State, id: Identity, claim: Phase) {
    && claim.now <= s.clock && StampsUpTo(s.log, id, claim.now)
    && (claim.LeaseRead? && claim.basis.Some? ==>
          && claim.basis.value.version <= s.server.revision
          && !Blocks(claim.basis.value.spec, id, claim.now)
          && (s.server.lease.Some? && s.server.lease.value.version == claim.basis.value.version ==>
             s.server.lease == claim.basis))
  }

  /** Every process has a name, and no two have the same. */
  ghost predicate Separate(who: Naming, procs: set<Process>) {
    && (forall p :: p in procs ==> who(p) != "")
    && forall p, q :: p in procs && q in procs && p != q ==> who(p) != who(q)
  }

  ghost predicate Inv(who: Naming, procs: set<Process>, s: State) {
    && Recorded(s) && InOrder(s.log) && s.claims.Keys <= procs
    && (forall e :: e in s.log && e.Wrote? ==> e.stamp <= s.clock && e.id != "")
    && forall p :: p in s.claims ==> ClaimSound(s, who(p), s.claims[p])
  }

  /** A write allowed by the last one in the log keeps the log in order. */
  lemma WriteKeepsOrder(log: seq<Entry>, e: Entry)
    requires InOrder(log) && e.Wrote? && StampsUpTo(log, e.id, e.stamp)
    requires log != [] && log[|log| - 1].Wrote? ==> Follows(log[|log| - 1], e)
    ensures InOrder(log + [e])
  {
    var log' := log + [e];
    forall i: nat, j: nat | i < j && Segment(log', i, j) ensures Follows(log'[i], log'[j]) {
      if j < |log| {
        assert Segment(log, i, j) by { assert forall k :: i <= k <= j ==> log'[k] == log[k]; }
      } else {
        var last := log[|log| - 1];
        assert log'[|log| - 1] == last && log'[i] == log[i] && log[i] in log;
        if i < |log| - 1 {
          assert Segment(log, i, |log| - 1) by { assert forall k :: i <= k < |log| ==> log'[k] == log[k]; }
        }
      }
    }
  }

  lemma SendKeepsClaim(who: Naming, procs: set<Process>, s: State, p: Process, heard: bool, q: Process)
    requires Separate(who, procs) && Inv(who, procs, s) && Enabled(s, Send(p, heard)) && q in s.claims && q != p
    ensures ClaimSound(Apply(who, s, Send(p, heard)), who(q), s.claims[q])
  {
    assert ClaimSound(s, who(q), s.claims[q]) && who(q) != who(p);
  }

  lemma SendKeepsInv(who: Naming, procs: set<Process>, s: State, p: Process, heard: bool)
    requires Separate(who, procs) && Inv(who, procs, s) && Enabled(s, Send(p, heard))
    ensures Inv(who, procs, Apply(who, s, Send(p, heard)))
  {
    var claim := s.claims[p];
    var s' := Apply(who, s, Send(p, heard));
    assert ClaimSound(s, who(p), claim);
    forall q | q in s'.claims ensures ClaimSound(s', who(q), s'.claims[q]) {
      SendKeepsClaim(who, procs, s, p, heard, q);
    }
    if s'.log != s.log {
      if claim.basis.None? { assert s.log == [] || s.log[|s.log| - 1].Deleted?; }
      WriteKeepsOrder(s.log, Wrote(who(p), claim.now));
    }
  }

  lemma StepKeepsInv(who: Naming, procs: set<Process>, s: State, step: Step)
    requires Separate(who, procs) && Inv(who, procs, s) && Enabled(s, step) && Within(procs, step)
    ensures Inv(who, procs, Apply(who, s, step))
  {
    if step.Send? {
      SendKeepsInv(who, procs, s, step.proc, step.heard);
    } else {
      var s' := Apply(who, s, step);
      forall p | p in s'.claims ensures ClaimSound(s', who(p), s'.claims[p]) {
        if p in s.claims { assert ClaimSound(s, who(p), s.claims[p]); }
      }
      if step.Delete? { DeletionKeepsOrder(s.log); }
    }
  }

  lemma DeletionKeepsOrder(log: seq<Entry>)
    requires InOrder(log)
    ensures InOrder(log + [Deleted])
  {
    var log' := log + [Deleted];
    forall i: nat, j: nat | i < j && Segment(log', i, j) ensures Follows(log'[i], log'[j]) {
      assert log'[j].Wrote?;
      assert Segment(log, i, j) by { assert forall k :: i <= k <= j ==> log'[k] == log[k]; }
    }
  }

  lemma {:induction false} RunKeepsInv(who: Naming, procs: set<Process>, run: seq<State>, steps: seq<Step>)
    requires Separate(who, procs) && IsRun(who, procs, run, steps)
    ensures Inv(who, procs, run[|steps|])
  {
    if steps != [] {
      var n := |steps| - 1;
      assert forall i :: 0 <= i < n ==> steps[..n][i] == steps[i];
      RunKeepsInv(who, procs, run[..n + 1], steps[..n]);
      assert IsStep(who, procs, run[n], steps[n], run[n + 1]);
      StepKeepsInv(who, procs, run[n], steps[n]);
    }
  }

  /**
   * The later of two writes by different operators, with no deletion in between, comes after the earlier hold ended.
   */
  ghost predicate Excludes(log: seq<Entry>) {
    forall i: nat, j: nat :: i < j && Segment(log, i, j) && log[i].id != log[j].id ==> log[j].stamp > End(log[i])
  }

  /** So it is for every interleaving of the processes' claims. */
  ghost predicate AlwaysExcludes(who: Naming, procs: set<Process>) {
    forall run: seq<State>, steps: seq<Step> :: IsRun(who, procs, run, steps) ==> Excludes(run[|steps|].log)
  }

  /**
   * Over every interleaving of processes with names of their own, one operator's writes come after the other's hold.
   */
  lemma MutualExclusion(who: Naming, procs: set<Process>)
    requires Separate(who, procs)
    ensures AlwaysExcludes(who, procs)
  {
    forall run: seq<State>, steps: seq<Step> | IsRun(who, procs, run, steps) ensures Excludes(run[|steps|].log) {
      RunKeepsInv(who, procs, run, steps);
    }
  }

  /** The stored time of a takeover is not before the end of the hold either. */
  lemma StoredTimes(log: seq<Entry>, i: nat, j: nat)
    requires Excludes(log) && i < j && Segment(log, i, j) && log[i].id != log[j].id
    ensures Micros(log[j].stamp) >= End(log[i])
  {
    assert End(log[i]) % 1000 == 0;
  }

  /** The instant `t` lies in the hold of a write. */
  predicate Covers(e: Entry, t: int)
    requires e.Wrote?
  {
    e.stamp <= t <= End(e)
  }

  /** No instant is held by two operators. */
  lemma OneHolder(log: seq<Entry>, i: nat, j: nat, t: int)
    requires Excludes(log) && i <= j && Segment(log, i, j) && Covers(log[i], t) && Covers(log[j], t)
    ensures log[i].id == log[j].id
  {
  }

  // ---- Answers ----

  /** The lease read and the lease stored are both absent, or have one version. */
  predicate SameVersion(stored: Option<LeaseObject>, basis: Option<LeaseObject>) {
    if basis.None? then stored.None? else stored.Some? && stored.value.version == basis.value.version
  }

  /** The claim's write is accepted: what it read, a version or nothing, is still what is stored. */
  predicate Accepted(s: State, step: Step)
    requires Enabled(s, step)
  {
    step.Send? && SameVersion(s.server.lease, s.claims[step.proc].basis)
  }

  /**
   * A step answers "holds" exactly when it hears that its write was accepted; then the lease is stored under the
   * claim's name and the log ends with its write. Only such a write, heard of or not, adds to the log.
   */
  lemma HoldsIffAccepted(who: Naming, s: State, step: Step)
    requires Enabled(s, step)
    ensures var t := Apply(who, s, step);
            && s.answers <= t.answers && |t.answers| <= |s.answers| + 1
            && ((t.answers != s.answers && t.answers[|s.answers|].result == Holds) <==>
                  Accepted(s, step) && step.heard)
            && (Accepted(s, step) ==>
                  && t.log == s.log + [Wrote(who(step.proc), s.claims[step.proc].now)] && t.server.lease.Some?
                  && t.server.lease.value.spec == Held(who(step.proc), s.claims[step.proc].now))
            && (!Accepted(s, step) && !step.Delete? ==> t.log == s.log && t.server.lease == s.server.lease)
  {
  }

  /** A claim that lost the race is answered "held by another operator" when a lease is stored, and fails otherwise. */
  lemma LostRace(who: Naming, s: State, p: Process)
    requires Enabled(s, Send(p, true)) && !Accepted(s, Send(p, true))
    ensures var t := Apply(who, s, Send(p, true));
            && t.server == s.server && t.log == s.log
            && t.answers == s.answers
               + [Answer(p, if s.server.lease.Some? then HeldBy("another operator") else Failed,
                         s.claims[p].now, |s.log|)]
  {
  }

  /**
   * A claim is turned away exactly by another named operator whose lease can be read and has not run out: for the
   * seconds it says, or two minutes when it says none. It is answered who that is.
   */
  lemma TurnedAway(who: Naming, s: State, p: Process)
    requires Enabled(s, ReadLease(p)) && s.server.lease.Some?
    ensures var (spec, now, t) := (s.server.lease.value.spec, s.claims[p].now, Apply(who, s, ReadLease(p)));
            && t.server == s.server && t.log == s.log
            && (p !in t.claims <==>
                  && spec.holder != "" && spec.holder != who(p) && spec.renew.Some?
                  && now - spec.renew.value <= if spec.seconds > 0 then spec.seconds * SECOND else 120 * SECOND)
            && (p !in t.claims ==> t.answers == s.answers + [Answer(p, HeldBy(spec.holder), now, |s.log|)])
  {
  }

  /** Whoever was told it holds the instance has its write in the log. */
  ghost predicate Told(who: Naming, log: seq<Entry>, a: Answer) {
    a.size <= |log| && (a.result == Holds ==> a.size > 0 && log[a.size - 1] == Wrote(who(a.proc), a.now))
  }

  /** All answers are true, and each "holds" is for a write after all answers before it. */
  ghost predicate Truthful(who: Naming, s: State) {
    && (forall i {:trigger s.answers[i]} :: 0 <= i < |s.answers| ==> Told(who, s.log, s.answers[i]))
    && forall i, j :: 0 <= i < j < |s.answers| && s.answers[j].result == Holds ==> s.answers[i].size < s.answers[j].size
  }

  lemma StepKeepsTruth(who: Naming, s: State, step: Step)
    requires Enabled(s, step) && Truthful(who, s)
    ensures Truthful(who, Apply(who, s, step))
  {
    HoldsIffAccepted(who, s, step);
    var t := Apply(who, s, step);
    forall i | 0 <= i < |t.answers| ensures Told(who, t.log, t.answers[i]) {
      if i < |s.answers| { assert Told(who, s.log, s.answers[i]) && t.answers[i] == s.answers[i]; }
    }
    forall i, j | 0 <= i < j < |t.answers| && t.answers[j].result == Holds
      ensures t.answers[i].size < t.answers[j].size
    {
      assert Told(who, s.log, s.answers[i]) && t.answers[i] == s.answers[i];
    }
  }

  /** Over every run, whatever the names: every answer given is true. */
  lemma {:induction false} RunIsTruthful(who: Naming, procs: set<Process>, run: seq<State>, steps: seq<Step>)
    requires IsRun(who, procs, run, steps)
    ensures Truthful(who, run[|steps|])
  {
    if steps != [] {
      var n := |steps| - 1;
      assert forall i :: 0 <= i < n ==> steps[..n][i] == steps[i];
      RunIsTruthful(who, procs, run[..n + 1], steps[..n]);
      assert IsStep(who, procs, run[n], steps[n], run[n + 1]);
      StepKeepsTruth(who, run[n], steps[n]);
    }
  }

  /** Of two operators told that they hold, with no deletion in between, the later claimed after the earlier hold. */
  ghost predicate HoldersExclude(who: Naming, s: State) {
    forall i, j {:trigger s.answers[i], s.answers[j]} :: 0 <= i < j < |s.answers| ==>
      var (a, b) := (s.answers[i], s.answers[j]);
      a.result == b.result == Holds && who(a.proc) != who(b.proc) && Undeleted(s.log, a.size, b.size) ==>
        b.now > Micros(a.now) + LEASE_DURATION
  }

  /** The log has no deletion from its entry number `from` to its entry number `to`. */
  ghost predicate Undeleted(log: seq<Entry>, from: nat, to: nat) {
    from > 0 && to > 0 && Segment(log, from - 1, to - 1)
  }

  ghost predicate HoldersAlwaysExclude(who: Naming, procs: set<Process>) {
    forall run: seq<State>, steps: seq<Step> :: IsRun(who, procs, run, steps) ==> HoldersExclude(who, run[|steps|])
  }

  lemma ToldExclusion(who: Naming, s: State)
    requires Truthful(who, s) && Excludes(s.log)
    ensures HoldersExclude(who, s)
  {
    forall i, j | 0 <= i < j < |s.answers| && s.answers[i].result == s.answers[j].result == Holds
      && who(s.answers[i].proc) != who(s.answers[j].proc) && Undeleted(s.log, s.answers[i].size, s.answers[j].size)
      ensures s.answers[j].now > Micros(s.answers[i].now) + LEASE_DURATION
    {
      var (x, y) := (s.answers[i].size - 1, s.answers[j].size - 1);
      assert Told(who, s.log, s.answers[i]) && Told(who, s.log, s.answers[j]);
      assert Segment(s.log, x, y) && s.log[x].id != s.log[y].id;
    }
  }

  /** Processes with names of their own that are told they hold exclude each other. */
  lemma HoldersExclusion(who: Naming, procs: set<Process>)
    requires Separate(who, procs)
    ensures HoldersAlwaysExclude(who, procs)
  {
    MutualExclusion(who, procs);
    forall run: seq<State>, steps: seq<Step> | IsRun(who, procs, run, steps)
      ensures HoldersExclude(who, run[|steps|])
    {
      RunIsTruthful(who, procs, run, steps);
      ToldExclusion(who, run[|steps|]);
    }
  }

  // ---- Scenarios ----

  lemma OneMore(who: Naming, procs: set<Process>, run: seq<State>, steps: seq<Step>, step: Step) returns (next: State)
    requires IsRun(who, procs, run, steps) && Enabled(run[|steps|], step) && Within(procs, step)
    ensures IsRun(who, procs, run + [next], steps + [step]) && next == Apply(who, run[|steps|], step)
  {
    next := Apply(who, run[|steps|], step);
    var (run', steps') := (run + [next], steps + [step]);
    forall i | 0 <= i < |steps'| ensures IsStep(who, procs, run'[i], steps'[i], run'[i + 1]) {
      if i < |steps| { assert IsStep(who, procs, run[i], steps[i], run[i + 1]) && steps'[i] == steps[i]; }
    }
  }

  /** A run, together with the state it has reached. */
  datatype History = History(run: seq<State>, steps: seq<Step>) {
    ghost predicate Valid(who: Naming, procs: set<Process>) {
      IsRun(who, procs, run, steps)
    }

    function Now(): State
      requires run != []
    {
      run[|run| - 1]
    }
  }

  lemma Then(who: Naming, procs: set<Process>, h: History, step: Step) returns (h': History)
    requires h.Valid(who, procs) && Enabled(h.Now(), step) && Within(procs, step)
    ensures h'.Valid(who, procs) && h'.Now() == Apply(who, h.Now(), step)
  {
    var next := OneMore(who, procs, h.run, h.steps, step);
    h' := History(h.run + [next], h.steps + [step]);
  }

  /** An empty cluster at time 0. */
  lemma Start(who: Naming, procs: set<Process>) returns (h: History)
    ensures h.Valid(who, procs) && h.Now() == State(Server(None, 0), 0, map[], [], [])
  {
    h := History([State(Server(None, 0), 0, map[], [], [])], []);
  }

  /** A claim that nothing interrupts and nothing blocks stores its hold. */
  lemma Claims(who: Naming, procs: set<Process>, h: History, p: Process) returns (h': History)
    requires h.Valid(who, procs) && p in procs && p !in h.Now().claims
    requires h.Now().server.lease.Some? ==> !Blocks(h.Now().server.lease.value.spec, who(p), h.Now().clock)
    ensures h'.Valid(who, procs)
    ensures var (s, t) := (h.Now(), h'.Now());
            && t.clock == s.clock && t.claims == s.claims && t.log == s.log + [Wrote(who(p), s.clock)]
            && t.answers == s.answers + [Answer(p, Holds, s.clock, |t.log|)]
            && t.server.lease.Some? && t.server.lease.value.spec == Held(who(p), s.clock)
  {
    h' := Then(who, procs, h, ReadClock(p));
    h' := Then(who, procs, h', ReadLease(p));
    h' := Then(who, procs, h', Send(p, true));
  }

  /** A process without a name excludes nobody: another takes the lease in the same instant. */
  lemma UnnamedExcludesNobody(who: Naming, procs: set<Process>, p: Process, q: Process)
    requires p in procs && q in procs && who(p) == "" && who(q) != ""
    ensures !AlwaysExcludes(who, procs) && !HoldersAlwaysExclude(who, procs)
  {
    var h := Start(who, procs);
    h := Claims(who, procs, h, p);
    h := Claims(who, procs, h, q);
    Broken(who, procs, h, [Wrote("", 0), Wrote(who(q), 0)], 0, 1);
  }

  /** A history whose log and answers break exclusion shows that it does not always hold. */
  lemma Broken(who: Naming, procs: set<Process>, h: History, log: seq<Entry>, i: nat, j: nat)
    requires h.Valid(who, procs) && h.Now().log == log && i < j && Segment(log, i, j)
    requires log[i].id != log[j].id && log[j].stamp <= End(log[i])
    requires |h.Now().answers| == |log| && forall k :: 0 <= k < |log| ==> IsWriter(who, h.Now().answers[k], log, k)
    ensures !AlwaysExcludes(who, procs) && !HoldersAlwaysExclude(who, procs)
  {
    var s := h.run[|h.steps|];
    assert !Excludes(s.log);
    assert IsWriter(who, s.answers[i], log, i) && IsWriter(who, s.answers[j], log, j);
    assert Undeleted(s.log, i + 1, j + 1);
    assert !HoldersExclude(who, s);
  }

  /** Answer `a` told the writer of entry `k` that it holds. */
  ghost predicate IsWriter(who: Naming, a: Answer, log: seq<Entry>, k: int) {
    0 <= k < |log| && a.result == Holds && a.size == k + 1 && log[k] == Wrote(who(a.proc), a.now)
  }

  /**
   * With a name in common, a slow claim of one process puts back the hold of the other, and a third takes over too
   * early.
   */
  lemma SharedNameBreaks(who: Naming, procs: set<Process>, p: Process, q: Process, r: Process)
    requires p in procs && q in procs && r in procs && p != q && who(p) == who(q) != "" && who(r) != who(p)
    ensures !AlwaysExcludes(who, procs) && !HoldersAlwaysExclude(who, procs)
  {
    var h := Start(who, procs);
    h := Then(who, procs, h, ReadClock(p));
    h := Then(who, procs, h, Tick(60 * SECOND));
    h := Claims(who, procs, h, q);
    h := SlowClaim(who, procs, h, p, q);
    h := Then(who, procs, h, Tick(61 * SECOND));
    h := Claims(who, procs, h, r);
    Broken(who, procs, h, [Wrote(who(p), 60 * SECOND), Wrote(who(p), 0), Wrote(who(r), 121 * SECOND)], 0, 2);
  }

  /** The claim of `p`, which read the clock long ago, renews the hold of its namesake with that old time. */
  lemma SlowClaim(who: Naming, procs: set<Process>, h: History, p: Process, q: Process) returns (h': History)
    requires h.Valid(who, procs) && p in procs && who(p) == who(q)
    requires h.Now().claims == map[p := ClockRead(0)]
    requires h.Now().server.lease.Some? && h.Now().server.lease.value.spec.holder == who(q)
    ensures h'.Valid(who, procs)
    ensures var (s, t) := (h.Now(), h'.Now());
            && t.clock == s.clock && t.claims == map[] && t.log == s.log + [Wrote(who(p), 0)]
            && t.answers == s.answers + [Answer(p, Holds, 0, |t.log|)]
            && t.server.lease.Some? && t.server.lease.value.spec == Held(who(p), 0)
  {
    h' := Then(who, procs, h, ReadLease(p));
    h' := Then(who, procs, h', Send(p, true));
  }

  /**
   * Among processes with at least two identities, exclusion always holds, of the writes and of those told that they
   * hold, exactly when each process has a name of its own.
   */
  lemma ExclusionExactly(who: Naming, procs: set<Process>, a: Process, b: Process)
    requires a in procs && b in procs && who(a) != who(b)
    ensures AlwaysExcludes(who, procs) <==> Separate(who, procs)
    ensures HoldersAlwaysExclude(who, procs) <==> Separate(who, procs)
  {
    if Separate(who, procs) {
      MutualExclusion(who, procs);
      HoldersExclusion(who, procs);
    } else if p :| p in procs && who(p) == "" {
      UnnamedExcludesNobody(who, procs, p, if who(a) == "" then b else a);
    } else {
      var p, q :| p in procs && q in procs && p != q && who(p) == who(q);
      SharedNameBreaks(who, procs, p, q, if who(a) == who(p) then b else a);
    }
  }

  /** Two operators, one process each, exclude each other exactly when both have a name. */
  lemma TwoOperators(who: Naming, a: Process, b: Process)
    requires who(a) != who(b)
    ensures AlwaysExcludes(who, {a, b}) <==> who(a) != "" && who(b) != ""
    ensures HoldersAlwaysExclude(who, {a, b}) <==> who(a) != "" && who(b) != ""
  {
    ExclusionExactly(who, {a, b}, a, b);
  }

  /** A deletion ends every hold: the next claim succeeds at once. */
  lemma DeletionEndsHolds(who: Naming, a: Process, b: Process) returns (h: History)
    requires who(a) != who(b)
    ensures h.Valid(who, {a, b}) && h.Now().log == [Wrote(who(a), 0), Deleted, Wrote(who(b), 0)]
  {
    h := Start(who, {a, b});
    h := Claims(who, {a, b}, h, a);
    h := Then(who, {a, b}, h, Delete);
    h := Claims(who, {a, b}, h, b);
  }

  /** Cutting off nanoseconds lets the stored time of a takeover equal, not exceed, the end of the hold before it. */
  lemma StoredTimesMayTouch(who: Naming, a: Process, b: Process) returns (h: History)
    requires who(a) != who(b)
    ensures h.Valid(who, {a, b}) && h.Now().log == [Wrote(who(a), 0), Wrote(who(b), LEASE_DURATION + 1)]
    ensures Micros(LEASE_DURATION + 1) == End(Wrote(who(a), 0))
  {
    h := Start(who, {a, b});
    h := Claims(who, {a, b}, h, a);
    h := Then(who, {a, b}, h, Tick(LEASE_DURATION + 1));
    h := Claims(who, {a, b}, h, b);
  }

  class ApiServer {
    var server: Server

    constructor (server: Server)
      ensures this.server == server
    {
      this.server := server;
    }

    method Get() returns (lease: Option<LeaseObject>)
      ensures lease == server.lease
    {
      lease := server.lease;
    }

    /** What others do to the server. */
    method Become(next: Server)
      modifies this
      ensures server == next
    {
      server := next;
    }

    /** Accepted exactly when what was read is still what is stored; then the hold is stored under a new version. */
    method SendLease(basis: Option<LeaseObject>, identity: Identity, now: int) returns (err: SendError)
      modifies this
      ensures err == Ok <==> SameVersion(old(server).lease, basis)
      ensures err == Ok ==>
              var next := old(server).revision + 1; server == Server(Some(LeaseObject(next, Held(identity, now))), next)
      ensures err != Ok ==> server == old(server)
      ensures err == NotFound <==> basis.Some? && old(server).lease.None?
    {
      var (next, e) := SendHeld(server, basis, identity, now);
      server, err := next, e;
    }
  }

  /**
   * One claim, in whose middle others turn the server into `meanwhile`. It is turned away by the unexpired hold it
   * reads of another named operator; otherwise it is told that it holds exactly when the lease is still as it was read.
   */
  method ClaimInstance(api: ApiServer, identity: Identity, now: int, meanwhile: Server) returns (r: Claim)
    modifies api
    ensures var (read, stored) := (old(api.server).lease, meanwhile.lease);
            if read.Some? && Blocks(read.value.spec, identity, now)
            then r == HeldBy(read.value.spec.holder) && api.server == old(api.server)
            else if SameVersion(stored, read)
            then r == Holds && api.server.lease.Some? && api.server.lease.value.spec == Held(identity, now)
                 && meanwhile.revision < api.server.lease.value.version == api.server.revision
            else r == (if stored.Some? then HeldBy("another operator") else Failed) && api.server == meanwhile
  {
    var lease := api.Get();
    if lease.Some? {
      var spec := lease.value.spec;
      if Blocks(spec, identity, now) { return HeldBy(spec.holder); }
    }
    api.Become(meanwhile);
    var err := api.SendLease(lease, identity, now);
    r := ClaimResult(err);
  }
}
