/** Any number of booking servers over one record file and one kernel lock table, interleaved
    at every access to either. */
module BookingRuns {
  import opened BookingServer

  /** `log` lists the commands that were stored, with their records. */
  datatype System = System(procs: map<Pid, Process>, locks: Locks, file: File, log: seq<(Id, Counts)>)

  datatype Event =
    | Accept(p: Pid, c: Conn)
    | GiveId(p: Pid, c: Conn, len: nat, value: int)
    | SetLock(p: Pid)
    | Show(p: Pid)
    | Eof(p: Pid, c: Conn)
    | Give(p: Pid, c: Conn, cmd: Command)
    | Store(p: Pid)
    | Release(p: Pid)

  predicate Enabled(s: System, e: Event) {
    && e.p in s.procs
    && WellFormed(s.procs[e.p])
    && var proc := s.procs[e.p];
         match e
         case Accept(_, c) => proc.pc == Idle && c !in proc.sessions
         case GiveId(_, c, _, _) => proc.pc == Idle && c in proc.sessions && proc.sessions[c] == Asking
         case SetLock(_) => proc.pc.Granted?
         case Show(_) => proc.pc.Locking?
         case Eof(_, c) => proc.pc == Idle && c in proc.sessions
         case Give(_, c, _) => proc.pc == Idle && c in proc.sessions && proc.sessions[c].Ordering?
         case Store(_) => proc.pc.Loaded?
         case Release(_) => proc.pc.Leaving?
  }

  function ViewOf(s: System, p: Pid): View
    requires p in s.procs
  {
    View(s.procs[p], s.locks, s.file)
  }

  function After(s: System, e: Event): View
    requires Enabled(s, e)
  {
    var v := ViewOf(s, e.p);
    match e
    case Accept(p, c) => Accepted(v, c)
    case GiveId(p, c, len, value) => IdGiven(v, p, c, len, value)
    case SetLock(p) => LockSet(v, p)
    case Show(p) => Shown(v)
    case Eof(p, c) => EofSeen(v, p, c)
    case Give(p, c, cmd) => CommandGiven(v, p, c, cmd)
    case Store(p) => Stored(v)
    case Release(p) => Released(v, p)
  }

  function Logged(s: System, e: Event): seq<(Id, Counts)>
    requires Enabled(s, e)
  {
    var pc := s.procs[e.p].pc;
    if e.Store? && Acceptable(Plus(pc.loaded, pc.add)) then s.log + [(pc.id, pc.add)] else s.log
  }

  function Next(s: System, e: Event): System
    requires Enabled(s, e)
  {
    var v := After(s, e);
    System(s.procs[e.p := v.proc], v.locks, v.file, Logged(s, e))
  }

  // ---------- one record in every process ----------

  predicate IsOrdering(session: Session, r: Id) {
    session.Ordering? && session.id == r
  }

  /** The connections of one process that are being served for record `r`. */
  function Orderings(sessions: map<Conn, Session>, r: Id): set<Conn> {
    set c | c in sessions && IsOrdering(sessions[c], r)
  }

  datatype Held = Nothing | Holds(lock: Lock)

  function OwnLock(locks: Locks, p: Pid, r: Id): Held {
    if (p, r) in locks then Holds(locks[(p, r)]) else Nothing
  }

  predicate LockingOn(pc: Pc, r: Id) {
    pc.Locking? && pc.id == r
  }

  /** `vis` marks the one session of the record, and the kernel lock goes with it. */
  ghost predicate WriterInv(v: View, p: Pid, r: Id)
    requires WellFormed(v.proc)
  {
    var vis, pc := v.proc.vis[r], v.proc.pc;
    && |Orderings(v.proc.sessions, r)| == (if vis && pc != Leaving(r) then 1 else 0)
    && (pc == Leaving(r) ==> vis)
    && ((pc.Granted? || pc.Locking?) && pc.id == r ==> !vis)
    && OwnLock(v.locks, p, r) == (if vis || LockingOn(pc, r) then Holds(Exclusive) else Nothing)
    && (pc.Loaded? && pc.id == r ==> pc.loaded == v.file[r])
  }

  /** `readCnt` counts the sessions of the record, and the kernel lock is held while there are any. */
  ghost predicate ReaderInv(v: View, p: Pid, r: Id)
    requires WellFormed(v.proc)
  {
    && |Orderings(v.proc.sessions, r)| == v.proc.readCnt[r]
    && OwnLock(v.locks, p, r) == (if v.proc.readCnt[r] > 0 || LockingOn(v.proc.pc, r) then Holds(Shared) else Nothing)
  }

  ghost predicate ProcInv(v: View, p: Pid, r: Id) {
    && WellFormed(v.proc)
    && (forall c | c in Orderings(v.proc.sessions, r) :: v.proc.sessions[c].shown == v.file[r])
    && (if v.proc.kind == WriteServer then WriterInv(v, p, r) else ReaderInv(v, p, r))
  }

  /** The kernel grants no incompatible locks on the record. */
  ghost predicate Compatible(locks: Locks, r: Id) {
    forall p: Pid, q: Pid | p != q && OwnLock(locks, p, r) == Holds(Exclusive) :: OwnLock(locks, q, r) == Nothing
  }

  /** The test for a lock is exact: it reports the record busy just when granting the lock would
      set two incompatible ones. */
  lemma ConflictExact(locks: Locks, p: Pid, r: Id, want: Lock)
    requires Compatible(locks, r)
    ensures Conflict(locks, p, r, want) <==> !Compatible(locks[(p, r) := want], r)
  {
    var granted := locks[(p, r) := want];
    if Conflict(locks, p, r, want) {
      var k :| k in locks && k.0 != p && k.1 == r && (want == Exclusive || locks[k] == Exclusive);
      assert OwnLock(granted, k.0, r) == Holds(locks[k]) && OwnLock(granted, p, r) == Holds(want);
    }
  }

  /** A granted lock leaves the locks on every record compatible. */
  lemma GrantKeepsCompatible(locks: Locks, p: Pid, id: Id, want: Lock, r: Id)
    requires Compatible(locks, r) && !Conflict(locks, p, id, want)
    ensures Compatible(locks[(p, id) := want], r)
  {
    var granted := locks[(p, id) := want];
    if r == id {
      ConflictExact(locks, p, id, want);
    } else {
      assert forall q: Pid :: OwnLock(granted, q, r) == OwnLock(locks, q, r);
    }
  }

  function Sum(log: seq<(Id, Counts)>, r: Id): Counts {
    if log == [] then Counts(0, 0, 0)
    else
      var last := log[|log| - 1];
      if last.0 == r then Plus(Sum(log[..|log| - 1], r), last.1) else Sum(log[..|log| - 1], r)
  }

  ghost predicate Inv(init: File, s: System, r: Id) {
    && (forall p | p in s.procs :: ProcInv(ViewOf(s, p), p, r))
    && Compatible(s.locks, r)
    && (forall p: Pid | p !in s.procs :: OwnLock(s.locks, p, r) == Nothing)
    && s.file[r] == Plus(init[r], Sum(s.log, r))
  }

  /** The two ways in which the source gives a record away: `F_SETLK` fails unnoticed because
      another process locked the record after the test; and a client of the write server that
      leaves before giving an id takes the lock of record 0 with it while it is in use. */
  predicate Bad(s: System, e: Event, r: Id)
    requires Enabled(s, e)
  {
    var proc := s.procs[e.p];
    || (e.SetLock? && proc.pc.id == r && Conflict(s.locks, e.p, r, Wanted(proc.kind)))
    || (e.Eof? && proc.kind == WriteServer && proc.sessions[e.c] == Asking && r == 0 && proc.vis[0])
  }

  // ---------- sets of sessions ----------

  lemma OrderingsClosed(sessions: map<Conn, Session>, c: Conn, r: Id)
    requires c in sessions
    ensures Orderings(Close(sessions, c), r) == Orderings(sessions, r) - {c}
    ensures |Orderings(Close(sessions, c), r)| == |Orderings(sessions, r)| - (if IsOrdering(sessions[c], r) then 1 else 0)
  {
    assert Orderings(Close(sessions, c), r) == Orderings(sessions, r) - {c};
  }

  lemma OrderingsSet(sessions: map<Conn, Session>, c: Conn, session: Session, r: Id)
    requires c in sessions ==> sessions[c] == Asking
    ensures Orderings(sessions[c := session], r) == Orderings(sessions, r) + (if IsOrdering(session, r) then {c} else {})
    ensures |Orderings(sessions[c := session], r)| == |Orderings(sessions, r)| + (if IsOrdering(session, r) then 1 else 0)
  {
    assert c !in Orderings(sessions, r);
    assert Orderings(sessions[c := session], r) == Orderings(sessions, r) + (if IsOrdering(session, r) then {c} else {});
  }

  /** A process that serves nobody for the record does not depend on its contents. */
  lemma NoLockNoSession(v: View, p: Pid, r: Id)
    requires ProcInv(v, p, r) && OwnLock(v.locks, p, r) == Nothing
    ensures Orderings(v.proc.sessions, r) == {}
    ensures v.proc.pc.Loaded? ==> v.proc.pc.id != r
  {
    if v.proc.pc.Loaded? {
      assert v.proc.pc.conn in Orderings(v.proc.sessions, r) <==> v.proc.pc.id == r;
    }
  }

  // ---------- the process that takes the step ----------

  lemma AcceptKeeps(v: View, p: Pid, c: Conn, r: Id)
    requires ProcInv(v, p, r) && c !in v.proc.sessions && v.proc.pc == Idle
    ensures ProcInv(Accepted(v, c), p, r)
  {
    OrderingsSet(v.proc.sessions, c, Asking, r);
  }

  lemma GiveIdKeeps(v: View, p: Pid, c: Conn, len: nat, value: int, r: Id)
    requires ProcInv(v, p, r) && c in v.proc.sessions && v.proc.sessions[c] == Asking && v.proc.pc == Idle
    ensures ProcInv(IdGiven(v, p, c, len, value), p, r)
  {
    OrderingsClosed(v.proc.sessions, c, r);
  }

  lemma SetLockKeeps(v: View, p: Pid, r: Id)
    requires ProcInv(v, p, r) && v.proc.pc.Granted?
    ensures ProcInv(LockSet(v, p), p, r) <==> !(v.proc.pc.id == r && Conflict(v.locks, p, r, Wanted(v.proc.kind)) && OwnLock(v.locks, p, r) == Nothing)
  {
  }

  /** A failing `F_SETLK` finds the process without a lock on the record. */
  lemma ConflictUnlocked(v: View, p: Pid, r: Id)
    requires ProcInv(v, p, r) && Compatible(v.locks, r) && v.proc.pc.Granted? && v.proc.pc.id == r
    requires Conflict(v.locks, p, r, Wanted(v.proc.kind))
    ensures OwnLock(v.locks, p, r) == Nothing
  {
    if v.proc.kind == ReadServer {
      var k :| k in v.locks && k.0 != p && k.1 == r && v.locks[k] == Exclusive;
      assert OwnLock(v.locks, k.0, r) == Holds(Exclusive);
    }
  }

  lemma EofKeeps(v: View, p: Pid, c: Conn, r: Id)
    requires ProcInv(v, p, r) && v.proc.pc == Idle && c in v.proc.sessions
    ensures ProcInv(EofSeen(v, p, c), p, r)
       <==> !(v.proc.kind == WriteServer && v.proc.sessions[c] == Asking && r == 0 && v.proc.vis[0])
  {
    var session := v.proc.sessions[c];
    if v.proc.kind == WriteServer {
      WriterLeftKeeps(v, p, c, if session.Ordering? then session.id else 0, r);
    } else if session.Ordering? {
      ReaderLeftKeeps(v, p, c, session.id, r);
    } else {
      OrderingsClosed(v.proc.sessions, c, r);
    }
  }

  lemma ShowKeeps(v: View, p: Pid, r: Id)
    requires ProcInv(v, p, r) && v.proc.pc.Locking?
    ensures ProcInv(Shown(v), p, r)
  {
    var Locking(c, id) := v.proc.pc;
    OrderingsSet(v.proc.sessions, c, Ordering(id, v.file[id]), r);
  }

  lemma ReaderLeftKeeps(v: View, p: Pid, c: Conn, id: Id, r: Id)
    requires ProcInv(v, p, r) && v.proc.kind == ReadServer && v.proc.pc == Idle
    requires c in v.proc.sessions && IsOrdering(v.proc.sessions[c], id)
    ensures ProcInv(ReaderLeft(v, p, c, id), p, r)
  {
    OrderingsClosed(v.proc.sessions, c, r);
  }

  lemma WriterLeftKeeps(v: View, p: Pid, c: Conn, id: Id, r: Id)
    requires ProcInv(v, p, r) && v.proc.kind == WriteServer && v.proc.pc == Idle
    requires c in v.proc.sessions
    requires IsOrdering(v.proc.sessions[c], id) || v.proc.sessions[c] == Asking
    ensures ProcInv(WriterLeft(v, p, c, id), p, r) <==> !(id == r && v.proc.sessions[c] == Asking && v.proc.vis[r])
  {
    OrderingsClosed(v.proc.sessions, c, r);
  }

  lemma GiveKeeps(v: View, p: Pid, c: Conn, cmd: Command, r: Id)
    requires ProcInv(v, p, r) && v.proc.pc == Idle && c in v.proc.sessions && v.proc.sessions[c].Ordering?
    ensures ProcInv(CommandGiven(v, p, c, cmd), p, r)
  {
    var id := v.proc.sessions[c].id;
    if v.proc.kind == ReadServer {
      ReaderLeftKeeps(v, p, c, id, r);
    } else {
      WriterLeftKeeps(v, p, c, id, r);
    }
  }

  lemma StoreKeeps(v: View, p: Pid, r: Id)
    requires ProcInv(v, p, r) && v.proc.pc.Loaded?
    ensures ProcInv(Stored(v), p, r)
  {
    var c := v.proc.pc.conn;
    OrderingsClosed(v.proc.sessions, c, r);
    if v.proc.pc.id == r {
      assert c in Orderings(v.proc.sessions, r);
    }
  }

  lemma ReleaseKeeps(v: View, p: Pid, r: Id)
    requires ProcInv(v, p, r) && v.proc.pc.Leaving?
    ensures ProcInv(Released(v, p), p, r)
  {
  }

  // ---------- all processes ----------

  lemma OwnStep(init: File, s: System, e: Event, r: Id)
    requires Inv(init, s, r) && Enabled(s, e)
    ensures ProcInv(After(s, e), e.p, r) <==> !Bad(s, e, r)
  {
    var v := ViewOf(s, e.p);
    match e
    case Accept(p, c) => AcceptKeeps(v, p, c, r);
    case GiveId(p, c, len, value) => GiveIdKeeps(v, p, c, len, value, r);
    case SetLock(p) =>
      SetLockKeeps(v, p, r);
      if v.proc.pc.id == r && Conflict(v.locks, p, r, Wanted(v.proc.kind)) { ConflictUnlocked(v, p, r); }
    case Show(p) => ShowKeeps(v, p, r);
    case Eof(p, c) => EofKeeps(v, p, c, r);
    case Give(p, c, cmd) => GiveKeeps(v, p, c, cmd, r);
    case Store(p) => StoreKeeps(v, p, r);
    case Release(p) => ReleaseKeeps(v, p, r);
  }

  /** A step touches no lock but the process's own, and the record only under its exclusive lock. */
  lemma StepFootprint(init: File, s: System, e: Event, r: Id)
    requires Inv(init, s, r) && Enabled(s, e)
    ensures forall q: Pid | q != e.p :: OwnLock(After(s, e).locks, q, r) == OwnLock(s.locks, q, r)
    ensures After(s, e).file[r] != s.file[r] ==> OwnLock(s.locks, e.p, r) == Holds(Exclusive)
    ensures OwnLock(After(s, e).locks, e.p, r) == Holds(Exclusive) ==>
              OwnLock(s.locks, e.p, r) == Holds(Exclusive) || (e.SetLock? && forall q: Pid | q != e.p :: OwnLock(s.locks, q, r) == Nothing)
    ensures OwnLock(After(s, e).locks, e.p, r) == Holds(Shared) ==>
              OwnLock(s.locks, e.p, r) == Holds(Shared) || (e.SetLock? && forall q: Pid | q != e.p :: OwnLock(s.locks, q, r) != Holds(Exclusive))
  {
    var v := ViewOf(s, e.p);
    if e.Store? {
      assert v.proc.pc.conn in Orderings(v.proc.sessions, v.proc.pc.id);
    }
  }

  lemma OtherKeeps(init: File, s: System, e: Event, q: Pid, r: Id)
    requires Inv(init, s, r) && Enabled(s, e) && q in s.procs && q != e.p
    ensures ProcInv(View(s.procs[q], After(s, e).locks, After(s, e).file), q, r)
  {
    StepFootprint(init, s, e, r);
    var v := ViewOf(s, q);
    if After(s, e).file[r] != s.file[r] {
      NoLockNoSession(v, q, r);
    }
  }

  lemma StillCompatible(init: File, s: System, e: Event, r: Id)
    requires Inv(init, s, r) && Enabled(s, e)
    ensures Compatible(After(s, e).locks, r)
  {
    StepFootprint(init, s, e, r);
  }

  lemma FileFollowsLog(init: File, s: System, e: Event, r: Id)
    requires Inv(init, s, r) && Enabled(s, e)
    ensures After(s, e).file[r] == Plus(init[r], Sum(Logged(s, e), r))
  {
    var v := ViewOf(s, e.p);
    if e.Store? && Acceptable(Plus(v.proc.pc.loaded, v.proc.pc.add)) {
      assert Logged(s, e)[..|s.log|] == s.log;
    }
  }

  /** From a good state, the record stays protected over a step exactly when the step is none of
      the two bad ones. */
  lemma StepExact(init: File, s: System, e: Event, r: Id)
    requires Inv(init, s, r) && Enabled(s, e)
    ensures Inv(init, Next(s, e), r) <==> !Bad(s, e, r)
  {
    var s' := Next(s, e);
    OwnStep(init, s, e, r);
    StillCompatible(init, s, e, r);
    FileFollowsLog(init, s, e, r);
    StepFootprint(init, s, e, r);
    forall q | q in s.procs && q != e.p ensures ProcInv(ViewOf(s', q), q, r) {
      OtherKeeps(init, s, e, q, r);
    }
    assert ViewOf(s', e.p) == After(s, e);
  }

  // ---------- whole runs ----------

  /** Every process has just opened the record file. */
  function Start(kinds: map<Pid, Kind>, init: File): System {
    System(map p | p in kinds :: Process(kinds[p], map[], seq(RECORDS, _ => false), seq(RECORDS, _ => 0), Idle),
           map[], init, [])
  }

  predicate Legal(s: System, es: seq<Event>)
    decreases |es|
  {
    es == [] || (Enabled(s, es[0]) && Legal(Next(s, es[0]), es[1..]))
  }

  function Run(s: System, es: seq<Event>): System
    requires Legal(s, es)
    decreases |es|
  {
    if es == [] then s else Run(Next(s, es[0]), es[1..])
  }

  /** No step of the run is bad for the record. */
  predicate Protected(s: System, es: seq<Event>, r: Id)
    requires Legal(s, es)
    decreases |es|
  {
    es == [] || (!Bad(s, es[0], r) && Protected(Next(s, es[0]), es[1..], r))
  }

  /** The record is in order in every state of the run. */
  ghost predicate AlwaysInv(init: File, s: System, es: seq<Event>, r: Id)
    requires Legal(s, es)
    decreases |es|
  {
    Inv(init, s, r) && (es == [] || AlwaysInv(init, Next(s, es[0]), es[1..], r))
  }

  lemma StartInv(kinds: map<Pid, Kind>, init: File, r: Id)
    ensures Inv(init, Start(kinds, init), r)
  {
    var s := Start(kinds, init);
    forall p | p in s.procs ensures ProcInv(ViewOf(s, p), p, r) {
      assert Orderings(s.procs[p].sessions, r) == {};
    }
  }

  lemma {:induction false} RunExactFrom(init: File, s: System, es: seq<Event>, r: Id)
    requires Legal(s, es) && Inv(init, s, r)
    ensures Protected(s, es, r) <==> AlwaysInv(init, s, es, r)
    ensures Protected(s, es, r) ==> Inv(init, Run(s, es), r)
    decreases |es|
  {
    if es != [] {
      StepExact(init, s, es[0], r);
      if !Bad(s, es[0], r) {
        RunExactFrom(init, Next(s, es[0]), es[1..], r);
      }
    }
  }

  /** Over a whole run, the record is in order throughout exactly when no step is bad for it. */
  lemma RunExact(kinds: map<Pid, Kind>, init: File, es: seq<Event>, r: Id)
    requires Legal(Start(kinds, init), es)
    ensures Protected(Start(kinds, init), es, r) <==> AlwaysInv(init, Start(kinds, init), es, r)
  {
    StartInv(kinds, init, r);
    RunExactFrom(init, Start(kinds, init), es, r);
  }

  /** After a run without a bad step: a writer's session of the record excludes every other
      session in any process, and its own lock is exclusive; readers all hold shared locks. */
  lemma Exclusion(kinds: map<Pid, Kind>, init: File, es: seq<Event>, r: Id)
    requires Legal(Start(kinds, init), es) && Protected(Start(kinds, init), es, r)
    ensures var s := Run(Start(kinds, init), es);
      forall p, c, q, d | p in s.procs && c in Orderings(s.procs[p].sessions, r) && s.procs[p].kind == WriteServer
                       && q in s.procs && d in Orderings(s.procs[q].sessions, r) ::
        p == q && c == d
    ensures var s := Run(Start(kinds, init), es);
      forall p, c | p in s.procs && c in Orderings(s.procs[p].sessions, r) ::
        OwnLock(s.locks, p, r) == Holds(Wanted(s.procs[p].kind))
  {
    StartInv(kinds, init, r);
    RunExactFrom(init, Start(kinds, init), es, r);
    var s := Run(Start(kinds, init), es);
    forall p, c | p in s.procs && c in Orderings(s.procs[p].sessions, r)
      ensures OwnLock(s.locks, p, r) == Holds(Wanted(s.procs[p].kind))
    {
      SessionHoldsLock(ViewOf(s, p), p, c, r);
    }
    forall p, c, q, d | p in s.procs && c in Orderings(s.procs[p].sessions, r) && s.procs[p].kind == WriteServer
                     && q in s.procs && d in Orderings(s.procs[q].sessions, r)
      ensures p == q && c == d
    {
      SessionHoldsLock(ViewOf(s, p), p, c, r);
      SessionHoldsLock(ViewOf(s, q), q, d, r);
      if p == q { OnlyOne(Orderings(s.procs[p].sessions, r), c, d); }
    }
  }

  lemma OnlyOne(cs: set<Conn>, c: Conn, d: Conn)
    requires c in cs && d in cs && |cs| <= 1
    ensures c == d
  {
    assert |cs - {c}| == 0;
    assert d !in cs - {c};
  }

  lemma SessionHoldsLock(v: View, p: Pid, c: Conn, r: Id)
    requires ProcInv(v, p, r) && c in Orderings(v.proc.sessions, r)
    ensures OwnLock(v.locks, p, r) == Holds(Wanted(v.proc.kind))
    ensures v.proc.kind == WriteServer ==> |Orderings(v.proc.sessions, r)| <= 1
  {
    assert |Orderings(v.proc.sessions, r)| > 0;
  }

  /** After a run without a bad step: every session still sees the record it was shown, a
      command about to be stored was computed from the record as it is, and the record is its
      initial value plus all commands ever stored. */
  lemma NoLostUpdate(kinds: map<Pid, Kind>, init: File, es: seq<Event>, r: Id)
    requires Legal(Start(kinds, init), es) && Protected(Start(kinds, init), es, r)
    ensures var s := Run(Start(kinds, init), es);
      && s.file[r] == Plus(init[r], Sum(s.log, r))
      && (forall p, c | p in s.procs && c in Orderings(s.procs[p].sessions, r) :: s.procs[p].sessions[c].shown == s.file[r])
      && (forall p | p in s.procs && s.procs[p].pc.Loaded? && s.procs[p].pc.id == r :: s.procs[p].pc.loaded == s.file[r])
  {
    StartInv(kinds, init, r);
    RunExactFrom(init, Start(kinds, init), es, r);
    var s := Run(Start(kinds, init), es);
    forall p | p in s.procs && s.procs[p].pc.Loaded? && s.procs[p].pc.id == r
      ensures s.procs[p].pc.loaded == s.file[r]
    {
      assert ProcInv(ViewOf(s, p), p, r);
    }
  }

  /** A test that finds the record free makes the lock that follows it at once a good step. */
  lemma LockRightAfterTest(s: System, p: Pid, c: Conn, len: nat, value: int, r: Id)
    requires Enabled(s, GiveId(p, c, len, value))
    requires Next(s, GiveId(p, c, len, value)).procs[p].pc.Granted?
    ensures Enabled(Next(s, GiveId(p, c, len, value)), SetLock(p))
    ensures !Bad(Next(s, GiveId(p, c, len, value)), SetLock(p), r)
  {
  }

  // ---------- runs in which nothing comes between test and lock ----------

  ghost predicate NoneGranted(s: System) {
    forall p | p in s.procs :: !s.procs[p].pc.Granted?
  }

  /** A test that finds a record free is followed by the lock at once, if by anything. */
  predicate Uninterrupted(s: System, es: seq<Event>)
    requires Legal(s, es)
    decreases |es|
  {
    es == []
    || (&& (es[0].GiveId? && Next(s, es[0]).procs[es[0].p].pc.Granted? && |es| > 1 ==> es[1] == SetLock(es[0].p))
        && Uninterrupted(Next(s, es[0]), es[1..]))
  }

  /** A client of a write server hangs up before it has given an id. */
  predicate Unasked(s: System, e: Event)
    requires Enabled(s, e)
  {
    e.Eof? && s.procs[e.p].kind == WriteServer && s.procs[e.p].sessions[e.c] == Asking
  }

  predicate AllAsked(s: System, es: seq<Event>)
    requires Legal(s, es)
    decreases |es|
  {
    es == [] || (!Unasked(s, es[0]) && AllAsked(Next(s, es[0]), es[1..]))
  }

  /** Records 1 to 19 are protected over every run without such an interruption, and record 0
      over those in which every client of a write server gives an id before it leaves. */
  lemma {:induction false} UninterruptedProtects(s: System, es: seq<Event>, r: Id)
    requires Legal(s, es) && NoneGranted(s) && Uninterrupted(s, es)
    requires r == 0 ==> AllAsked(s, es)
    ensures Protected(s, es, r)
    decreases |es|
  {
    if es != [] {
      var e, s' := es[0], Next(s, es[0]);
      if s'.procs[e.p].pc.Granted? {
        if |es| > 1 {
          LockFollows(s, e, r);
          assert es[1..][0] == SetLock(e.p) && es[1..][1..] == es[2..];
          UninterruptedProtects(Next(s', SetLock(e.p)), es[2..], r);
        }
      } else {
        UninterruptedProtects(s', es[1..], r);
      }
    }
  }

  /** Only an id line makes a process go for a lock, and then the lock is good. */
  lemma LockFollows(s: System, e: Event, r: Id)
    requires Enabled(s, e) && NoneGranted(s) && Next(s, e).procs[e.p].pc.Granted?
    ensures e.GiveId? && Enabled(Next(s, e), SetLock(e.p))
    ensures !Bad(Next(s, e), SetLock(e.p), r) && NoneGranted(Next(Next(s, e), SetLock(e.p)))
  {
    LockRightAfterTest(s, e.p, e.c, e.len, e.value, r);
  }

  /** The servers as a client meets them when no other comes between test and lock: writers
      exclude everybody, over every run for records 1 to 19. */
  lemma ExclusionUninterrupted(kinds: map<Pid, Kind>, init: File, es: seq<Event>, r: Id)
    requires Legal(Start(kinds, init), es) && Uninterrupted(Start(kinds, init), es)
    requires r == 0 ==> AllAsked(Start(kinds, init), es)
    ensures AlwaysInv(init, Start(kinds, init), es, r)
    ensures var s := Run(Start(kinds, init), es);
      forall p, c, q, d | p in s.procs && c in Orderings(s.procs[p].sessions, r) && s.procs[p].kind == WriteServer
                       && q in s.procs && d in Orderings(s.procs[q].sessions, r) ::
        p == q && c == d
    ensures Run(Start(kinds, init), es).file[r] == Plus(init[r], Sum(Run(Start(kinds, init), es).log, r))
  {
    UninterruptedProtects(Start(kinds, init), es, r);
    RunExact(kinds, init, es, r);
    Exclusion(kinds, init, es, r);
    NoLostUpdate(kinds, init, es, r);
  }

  // ---------- what holds over every run, bad steps included ----------

  ghost predicate AllWellFormed(s: System) {
    forall p | p in s.procs :: WellFormed(s.procs[p])
  }

  ghost predicate AllAcceptable(file: File) {
    forall r: Id :: Acceptable(file[r])
  }

  /** Whatever happens to the locks, no count goes below 0 and no total above the limit. */
  lemma {:induction false} BoundsHold(s: System, es: seq<Event>)
    requires Legal(s, es) && AllAcceptable(s.file)
    ensures AllAcceptable(Run(s, es).file)
    ensures forall r: Id :: var n := Run(s, es).file[r];
      n.food >= 0 && n.concert >= 0 && n.electronics >= 0 && n.food + n.concert + n.electronics <= 15
    decreases |es|
  {
    if es != [] {
      BoundsHold(Next(s, es[0]), es[1..]);
    }
  }

  lemma {:induction false} WellFormedFrom(s: System, es: seq<Event>)
    requires Legal(s, es) && AllWellFormed(s)
    ensures AllWellFormed(Run(s, es))
    decreases |es|
  {
    if es != [] {
      WellFormedFrom(Next(s, es[0]), es[1..]);
    }
  }

  /** Every process of every run is well formed, so that `Enabled`, which asks for it, keeps back
      no event for that reason: an idle process takes whatever its clients do, and one that is not
      idle can go on. */
  lemma ProcessesStayWellFormed(kinds: map<Pid, Kind>, init: File, es: seq<Event>, s: System, p: Pid, c: Conn)
    requires Legal(Start(kinds, init), es) && s == Run(Start(kinds, init), es) && p in s.procs
    ensures WellFormed(s.procs[p])
    ensures s.procs[p].pc == Idle && c !in s.procs[p].sessions ==> Enabled(s, Accept(p, c))
    ensures s.procs[p].pc == Idle && c in s.procs[p].sessions ==>
      Enabled(s, Eof(p, c))
      && if s.procs[p].sessions[c] == Asking then forall len: nat, value :: Enabled(s, GiveId(p, c, len, value))
         else forall cmd :: Enabled(s, Give(p, c, cmd))
    ensures s.procs[p].pc != Idle ==> Enabled(s, SetLock(p)) || Enabled(s, Show(p)) || Enabled(s, Store(p)) || Enabled(s, Release(p))
  {
    WellFormedFrom(Start(kinds, init), es);
  }
}
