/** What the booking servers do for their clients: when an id is granted, what a line changes, and
    which connections close. */
module BookingService {
  import opened BookingServer
  import opened BookingRuns

  // ---------- when an id is granted ----------

  /** Away from the moment between lock and show, a process holds its lock on a record just while
      it serves it or is about to release it. */
  lemma HoldsWhileServing(v: View, p: Pid, r: Id)
    requires ProcInv(v, p, r) && !LockingOn(v.proc.pc, r)
    ensures OwnLock(v.locks, p, r) == Nothing <==> Orderings(v.proc.sessions, r) == {} && v.proc.pc != Leaving(r)
    ensures OwnLock(v.locks, p, r) in {Nothing, Holds(if v.proc.kind == ReadServer then Shared else Exclusive)}
  {
    if |Orderings(v.proc.sessions, r)| == 0 { assert Orderings(v.proc.sessions, r) == {}; }
  }

  /** A lock that is in the way belongs to some process. */
  lemma ConflictHeld(init: File, s: System, p: Pid, id: Id, want: Lock)
    requires Inv(init, s, id)
    ensures Conflict(s.locks, p, id, want) <==>
      exists q :: q in s.procs && q != p && OwnLock(s.locks, q, id) != Nothing
               && (want == Exclusive || OwnLock(s.locks, q, id) == Holds(Exclusive))
  {
    if Conflict(s.locks, p, id, want) {
      var k :| k in s.locks && k.0 != p && k.1 == id && (want == Exclusive || s.locks[k] == Exclusive);
      assert OwnLock(s.locks, k.0, id) == Holds(s.locks[k]);
    }
    if q :| q in s.procs && q != p && OwnLock(s.locks, q, id) != Nothing
            && (want == Exclusive || OwnLock(s.locks, q, id) == Holds(Exclusive)) {
      assert (q, id) in s.locks;
    }
  }

  lemma VisWhileServing(v: View, p: Pid, r: Id)
    requires ProcInv(v, p, r) && v.proc.kind == WriteServer && v.proc.pc == Idle
    ensures v.proc.vis[r] <==> Orderings(v.proc.sessions, r) != {}
  {
    if |Orderings(v.proc.sessions, r)| == 0 { assert Orderings(v.proc.sessions, r) == {}; }
  }

  /** In good order and with no process between lock and show: a read server grants a record unless
      some write server serves it or is about to release it, a write server unless any server is. */
  lemma GrantExact(init: File, s: System, p: Pid, c: Conn, id: Id)
    requires Inv(init, s, id) && Enabled(s, GiveId(p, c, 6, 902001 + id))
    requires forall q | q in s.procs :: !LockingOn(s.procs[q].pc, id)
    ensures Next(s, GiveId(p, c, 6, 902001 + id)).procs[p].pc == Granted(c, id) <==>
      forall q | q in s.procs && (s.procs[p].kind == ReadServer ==> s.procs[q].kind == WriteServer) ::
        Orderings(s.procs[q].sessions, id) == {} && s.procs[q].pc != Leaving(id)
  {
    var want := if s.procs[p].kind == ReadServer then Shared else Exclusive;
    ConflictHeld(init, s, p, id, want);
    forall q | q in s.procs
      ensures OwnLock(s.locks, q, id) == Nothing <==> Orderings(s.procs[q].sessions, id) == {} && s.procs[q].pc != Leaving(id)
      ensures OwnLock(s.locks, q, id) in {Nothing, Holds(if s.procs[q].kind == ReadServer then Shared else Exclusive)}
    {
      HoldsWhileServing(ViewOf(s, q), q, id);
    }
    if s.procs[p].kind == WriteServer {
      VisWhileServing(ViewOf(s, p), p, id);
    }
  }

  /** An id line either goes on to the lock, or closes its connection and changes nothing else; and
      it goes on only with six characters that make a number from 902001 to 902020. */
  lemma RefusalCloses(s: System, p: Pid, c: Conn, len: nat, value: int)
    requires Enabled(s, GiveId(p, c, len, value))
    ensures var s' := Next(s, GiveId(p, c, len, value)); var proc := s.procs[p];
      || (s' == s.(procs := s.procs[p := proc.(sessions := proc.sessions - {c})]))
      || (len == 6 && 902001 <= value <= 902020 && s' == s.(procs := s.procs[p := proc.(pc := Granted(c, value - 902001))]))
  {
  }

  /** What is granted is served: the connection gets the record as it is in the file. */
  lemma GrantServes(s: System, p: Pid)
    requires Enabled(s, SetLock(p))
    ensures Enabled(Next(s, SetLock(p)), Show(p))
    ensures var s' := Next(Next(s, SetLock(p)), Show(p)); var Granted(c, id) := s.procs[p].pc;
      && s'.file == s.file && s'.log == s.log && s'.procs[p].pc == Idle
      && s'.procs[p].sessions == s.procs[p].sessions[c := Ordering(id, s.file[id])]
      && forall q | q in s.procs && q != p :: s'.procs[q] == s.procs[q]
  {
  }

  /** Over every run that is good for the record, for any number of servers. */
  lemma GrantedOnRuns(kinds: map<Pid, Kind>, init: File, es: seq<Event>, s: System, p: Pid, c: Conn, id: Id)
    requires Legal(Start(kinds, init), es) && Protected(Start(kinds, init), es, id) && s == Run(Start(kinds, init), es)
    requires Enabled(s, GiveId(p, c, 6, 902001 + id)) && forall q | q in s.procs :: !LockingOn(s.procs[q].pc, id)
    ensures Next(s, GiveId(p, c, 6, 902001 + id)).procs[p].pc == Granted(c, id) <==>
      forall q | q in s.procs && (s.procs[p].kind == ReadServer ==> s.procs[q].kind == WriteServer) ::
        Orderings(s.procs[q].sessions, id) == {} && s.procs[q].pc != Leaving(id)
  {
    StartInv(kinds, init, id);
    RunExactFrom(init, Start(kinds, init), es, id);
    GrantExact(init, s, p, c, id);
  }

  // ---------- what a line changes ----------

  /** A reader leaves on Exit, whereupon the lock stays just while others of its server read the
      record; any other line changes nothing. */
  lemma ReaderLine(init: File, s: System, p: Pid, c: Conn, cmd: Command, id: Id)
    requires Inv(init, s, id) && Enabled(s, Give(p, c, cmd)) && s.procs[p].kind == ReadServer && s.procs[p].sessions[c].id == id
    ensures cmd != Exit ==> Next(s, Give(p, c, cmd)) == s
    ensures cmd == Exit ==>
      var s' := Next(s, Give(p, c, cmd));
      && s'.procs[p].sessions == s.procs[p].sessions - {c} && s'.file == s.file
      && ((p, id) in s'.locks <==> exists d :: d != c && d in s.procs[p].sessions && IsOrdering(s.procs[p].sessions[d], id))
  {
    if cmd != Exit {
      assert s.procs[p := s.procs[p]] == s.procs;
    } else {
      var s' := Next(s, Give(p, c, cmd));
      GiveKeeps(ViewOf(s, p), p, c, cmd, id);
      assert ViewOf(s', p) == After(s, Give(p, c, cmd));
      HoldsWhileServing(ViewOf(s', p), p, id);
      assert forall d :: d in Orderings(s'.procs[p].sessions, id) <==>
        d != c && d in s.procs[p].sessions && IsOrdering(s.procs[p].sessions[d], id);
    }
  }

  /** A writer's unreadable line, or its order once stored and released, ends its session and gives
      the record back; the order changes the record if no count gets below 0 and the total not
      above 15. */
  lemma WriterLine(s: System, p: Pid, c: Conn, cmd: Command)
    requires Enabled(s, Give(p, c, cmd)) && s.procs[p].kind == WriteServer
    ensures cmd.Order? ==>
      && Enabled(Next(s, Give(p, c, cmd)), Store(p))
      && Enabled(Next(Next(s, Give(p, c, cmd)), Store(p)), Release(p))
    ensures var id := s.procs[p].sessions[c].id; var was := s.file[id];
      var s1 := Next(s, Give(p, c, cmd));
      var s' := if cmd.Order? then Next(Next(s1, Store(p)), Release(p)) else s1;
      && s'.procs[p].sessions == s.procs[p].sessions - {c} && s'.procs[p].pc == Idle
      && (p, id) !in s'.locks && !s'.procs[p].vis[id]
      && (forall r: Id | r != id :: s'.file[r] == s.file[r])
      && s'.file[id] == if cmd.Order?
                           && was.food + cmd.add.food >= 0 && was.concert + cmd.add.concert >= 0
                           && was.electronics + cmd.add.electronics >= 0
                           && was.food + cmd.add.food + was.concert + cmd.add.concert + was.electronics + cmd.add.electronics <= 15
                        then Counts(was.food + cmd.add.food, was.concert + cmd.add.concert, was.electronics + cmd.add.electronics)
                        else was
  {
    if cmd.Order? {
      StoreAndRelease(s, p, c, cmd.add);
    }
  }

  lemma StoreAndRelease(s: System, p: Pid, c: Conn, add: Counts)
    requires Enabled(s, Give(p, c, Order(add))) && s.procs[p].kind == WriteServer
    ensures var s1 := Next(s, Give(p, c, Order(add)));
      && Enabled(s1, Store(p)) && Enabled(Next(s1, Store(p)), Release(p))
      && var s' := Next(Next(s1, Store(p)), Release(p)); var id := s.procs[p].sessions[c].id; var n := Plus(s.file[id], add);
         && s'.procs[p].sessions == s.procs[p].sessions - {c} && s'.procs[p].pc == Idle
         && (p, id) !in s'.locks && !s'.procs[p].vis[id]
         && s'.file == if Acceptable(n) then s.file[id := n] else s.file
  {
  }

  /** End of file closes the connection, in every state, and stores nothing. */
  lemma EofCloses(s: System, p: Pid, c: Conn)
    requires Enabled(s, Eof(p, c))
    ensures var s' := Next(s, Eof(p, c));
      && s'.procs[p].sessions == s.procs[p].sessions - {c} && s'.file == s.file && s'.log == s.log
      && forall q | q in s.procs && q != p :: s'.procs[q] == s.procs[q]
  {
  }
}
