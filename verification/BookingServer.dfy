/** One booking server process: what each stretch of its event loop between two uses of the
    shared record file or lock table does. */
module BookingServer {

  const RECORDS: nat := 20
  const FIRST_ID: int := 902001
  const MAX_BOOKED: int := 15

  type Pid = nat
  type Conn = nat
  type Id = i: nat | i < RECORDS

  /** The booking counts of one record. */
  datatype Counts = Counts(food: int, concert: int, electronics: int)

  function Plus(a: Counts, b: Counts): Counts {
    Counts(a.food + b.food, a.concert + b.concert, a.electronics + b.electronics)
  }

  /** What the write server checks before it stores a record. */
  predicate Acceptable(c: Counts) {
    c.food + c.concert + c.electronics <= MAX_BOOKED && c.food >= 0 && c.concert >= 0 && c.electronics >= 0
  }

  datatype Kind = ReadServer | WriteServer

  /** A connection: READ_ID, or READ_OPR with its id and the record that was shown for it. */
  datatype Session = Asking | Ordering(id: Id, shown: Counts)

  /** Where the process is inside the handling of one event. */
  datatype Pc =
    | Idle
    | Granted(conn: Conn, id: Id)                              // F_GETLK found nothing, F_SETLK is next
    | Locking(conn: Conn, id: Id)                              // F_SETLK was called, the record is read next
    | Loaded(conn: Conn, id: Id, loaded: Counts, add: Counts)  // the record was read for a command
    | Leaving(id: Id)                                          // the session is closed, F_UNLCK is next

  datatype Process = Process(kind: Kind, sessions: map<Conn, Session>, vis: seq<bool>, readCnt: seq<int>, pc: Pc)

  datatype Lock = Shared | Exclusive

  /** The kernel's lock table: one lock per process and record. */
  type Locks = map<(Pid, Id), Lock>

  type File = f: seq<Counts> | |f| == RECORDS witness seq(RECORDS, _ => Counts(0, 0, 0))

  /** What one process sees: itself, the lock table and the file. */
  datatype View = View(proc: Process, locks: Locks, file: File)

  predicate WellFormed(proc: Process) {
    && |proc.vis| == RECORDS && |proc.readCnt| == RECORDS
    && (match proc.pc
        case Idle => true
        case Granted(c, _) => c in proc.sessions && proc.sessions[c] == Asking
        case Locking(c, _) => c in proc.sessions && proc.sessions[c] == Asking
        case Loaded(c, id, _, _) => c in proc.sessions && proc.sessions[c].Ordering? && proc.sessions[c].id == id && proc.kind == WriteServer
        case Leaving(_) => proc.kind == WriteServer)
  }

  // ---------- record locks ----------

  /** `F_GETLK`: another process holds a lock that is incompatible with the wanted one. */
  predicate Conflict(locks: Locks, pid: Pid, id: Id, want: Lock) {
    exists k | k in locks :: k.0 != pid && k.1 == id && (want == Exclusive || locks[k] == Exclusive)
  }

  function Wanted(kind: Kind): Lock {
    if kind == ReadServer then Shared else Exclusive
  }

  function Unlocked(locks: Locks, pid: Pid, id: Id): Locks {
    locks - {(pid, id)}
  }

  function Close(sessions: map<Conn, Session>, c: Conn): map<Conn, Session> {
    sessions - {c}
  }

  // ---------- the stretches of the event loop ----------

  function Accepted(v: View, c: Conn): View {
    v.(proc := v.proc.(sessions := v.proc.sessions[c := Asking]))
  }

  /** The id request, up to the answer of `F_GETLK`; a bad or locked id closes the connection.
      `len` and `value` are the length of the line and what `atoi` makes of it. */
  function IdGiven(v: View, pid: Pid, c: Conn, len: nat, value: int): View
    requires WellFormed(v.proc)
  {
    var id := value - FIRST_ID;
    if len != 6 || id < 0 || id >= RECORDS then v.(proc := v.proc.(sessions := Close(v.proc.sessions, c)))
    else if (v.proc.kind == WriteServer && v.proc.vis[id]) || Conflict(v.locks, pid, id, Wanted(v.proc.kind)) then
      v.(proc := v.proc.(sessions := Close(v.proc.sessions, c)))
    else v.(proc := v.proc.(pc := Granted(c, id)))
  }

  /** `F_SETLK`, whose failure the source does not look at. */
  function LockSet(v: View, pid: Pid): View
    requires v.proc.pc.Granted?
  {
    var id, want := v.proc.pc.id, Wanted(v.proc.kind);
    View(v.proc.(pc := Locking(v.proc.pc.conn, id)),
         if Conflict(v.locks, pid, id, want) then v.locks else v.locks[(pid, id) := want],
         v.file)
  }

  /** The session is entered in `vis` or `readCnt`, and the record is read and shown. */
  function Shown(v: View): View
    requires WellFormed(v.proc) && v.proc.pc.Locking?
  {
    var Locking(c, id) := v.proc.pc;
    var proc := v.proc.(sessions := v.proc.sessions[c := Ordering(id, v.file[id])], pc := Idle);
    v.(proc := if proc.kind == WriteServer then proc.(vis := proc.vis[id := true])
               else proc.(readCnt := proc.readCnt[id := proc.readCnt[id] + 1]))
  }

  /** A reader's session ends: the last one of its record gives the lock back. */
  function ReaderLeft(v: View, pid: Pid, c: Conn, id: Id): View
    requires WellFormed(v.proc)
  {
    var left := v.proc.readCnt[id] - 1;
    View(v.proc.(sessions := Close(v.proc.sessions, c), readCnt := v.proc.readCnt[id := left]),
         if left == 0 then Unlocked(v.locks, pid, id) else v.locks,
         v.file)
  }

  /** A writer's session ends without a pending write. */
  function WriterLeft(v: View, pid: Pid, c: Conn, id: Id): View
    requires WellFormed(v.proc)
  {
    View(v.proc.(sessions := Close(v.proc.sessions, c), vis := v.proc.vis[id := false]), Unlocked(v.locks, pid, id), v.file)
  }

  /** End of file from a client. The write server releases the connection's id whatever state
      it is in, and that id is 0 as long as none was given. */
  function EofSeen(v: View, pid: Pid, c: Conn): View
    requires WellFormed(v.proc) && c in v.proc.sessions
  {
    var session := v.proc.sessions[c];
    if v.proc.kind == WriteServer then WriterLeft(v, pid, c, if session.Ordering? then session.id else 0)
    else if session.Ordering? then ReaderLeft(v, pid, c, session.id)
    else v.(proc := v.proc.(sessions := Close(v.proc.sessions, c)))
  }

  datatype Command = Exit | Unreadable | Order(add: Counts)

  /** A line in state READ_OPR. A reader can only leave; for a writer the line was parsed, and a
      readable command gets as far as reading the record. */
  function CommandGiven(v: View, pid: Pid, c: Conn, cmd: Command): View
    requires WellFormed(v.proc) && c in v.proc.sessions && v.proc.sessions[c].Ordering?
  {
    var id := v.proc.sessions[c].id;
    if v.proc.kind == ReadServer then (if cmd == Exit then ReaderLeft(v, pid, c, id) else v)
    else if cmd.Order? then v.(proc := v.proc.(pc := Loaded(c, id, v.file[id], cmd.add)))
    else WriterLeft(v, pid, c, id)
  }

  /** The new counts are checked and, if acceptable, stored; the connection closes either way. */
  function Stored(v: View): View
    requires WellFormed(v.proc) && v.proc.pc.Loaded?
  {
    var Loaded(c, id, loaded, add) := v.proc.pc;
    View(v.proc.(sessions := Close(v.proc.sessions, c), pc := Leaving(id)),
         v.locks,
         if Acceptable(Plus(loaded, add)) then v.file[id := Plus(loaded, add)] else v.file)
  }

  function Released(v: View, pid: Pid): View
    requires WellFormed(v.proc) && v.proc.pc.Leaving?
  {
    var id := v.proc.pc.id;
    View(v.proc.(pc := Idle, vis := v.proc.vis[id := false]), Unlocked(v.locks, pid, id), v.file)
  }
}
