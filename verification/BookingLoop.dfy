/** The event handlers of the server's main loop, on its own tables and the shared kernel. */
module BookingLoop {
  import opened BookingServer
  import opened BookingRuns
  import opened BookingCommand

  /** The lock table and the record file, shared by all processes. */
  class Kernel {
    var locks: Locks
    var file: File

    constructor (file: File)
      ensures this.file == file && locks == map[]
    {
      this.file, locks := file, map[];
    }

    /** `test`: `F_GETLK`; in a table without incompatible locks the record is busy just when
        granting the lock would set two of them. */
    method Test(pid: Pid, id: Id, want: Lock) returns (busy: bool)
      ensures busy == Conflict(locks, pid, id, want)
      ensures Compatible(locks, id) ==> (busy <==> !Compatible(locks[(pid, id) := want], id))
    {
      if Compatible(locks, id) { ConflictExact(locks, pid, id, want); }
      busy := Conflict(locks, pid, id, want);
    }

    /** `lock` with `F_SETLK`, whose result the source drops: locks on every record stay compatible. */
    method SetLk(pid: Pid, id: Id, want: Lock)
      modifies this`locks
      ensures locks == if Conflict(old(locks), pid, id, want) then old(locks) else old(locks)[(pid, id) := want]
      ensures forall r: Id | old(Compatible(locks, r)) :: Compatible(locks, r)
    {
      if !Conflict(locks, pid, id, want) {
        forall r: Id | Compatible(locks, r) ensures Compatible(locks[(pid, id) := want], r) {
          GrantKeepsCompatible(locks, pid, id, want, r);
        }
        locks := locks[(pid, id) := want];
      }
    }

    method Unlock(pid: Pid, id: Id)
      modifies this`locks
      ensures locks == Unlocked(old(locks), pid, id)
    {
      locks := locks - {(pid, id)};
    }
  }

  /** What `get3Num` makes of a line. */
  ghost function CommandOf(line: string): Command {
    if line != [] && Readable(Fields(line)) then
      Order(Counts(Parsed(Fields(line), 0), Parsed(Fields(line), 1), Parsed(Fields(line), 2)))
    else Unreadable
  }

  /** The first number of a line is for food, the second for concerts, the third for electronics. */
  lemma OrderOf(food: int, concert: int, electronics: int)
    ensures CommandOf(BookingCommand.Show(food) + " " + BookingCommand.Show(concert) + " " + BookingCommand.Show(electronics)) == Order(Counts(food, concert, electronics))
  {
    ReadsBack(food, concert, electronics);
  }

  class Server {
    const pid: Pid
    const kind: Kind
    const kernel: Kernel
    const vis: array<bool>
    const readCnt: array<int>
    var sessions: map<Conn, Session>

    constructor (pid: Pid, kind: Kind, kernel: Kernel)
      ensures Valid() && this.kernel == kernel && this.pid == pid && this.kind == kind
      ensures Value() == View(Process(kind, map[], seq(RECORDS, _ => false), seq(RECORDS, _ => 0), Idle), kernel.locks, kernel.file)
    {
      this.pid, this.kind, this.kernel := pid, kind, kernel;
      vis := new bool[RECORDS](_ => false);
      readCnt := new int[RECORDS](_ => 0);
      sessions := map[];
      new;
      assert vis[..] == seq(RECORDS, _ => false) && readCnt[..] == seq(RECORDS, _ => 0);
    }

    predicate Valid()
      reads this
    {
      vis.Length == RECORDS && readCnt.Length == RECORDS
    }

    /** Between two events. */
    ghost function Value(): View
      reads this, vis, readCnt, kernel
    {
      View(Process(kind, sessions, vis[..], readCnt[..], Idle), kernel.locks, kernel.file)
    }

    /** `reqClose` */
    method ReqClose(c: Conn)
      modifies this`sessions
      ensures sessions == Close(old(sessions), c)
    {
      sessions := sessions - {c};
    }

    method NewConnection(c: Conn)
      requires Valid()
      modifies this`sessions
      ensures Value() == Accepted(old(Value()), c)
    {
      sessions := sessions[c := Asking];
    }

    /** `if (--readCnt[id] == 0)` unlock. */
    method ReaderDone(id: Id)
      requires Valid()
      modifies readCnt, kernel`locks
      ensures readCnt[..] == old(readCnt[..])[id := old(readCnt[id]) - 1]
      ensures kernel.locks == if old(readCnt[id]) == 1 then Unlocked(old(kernel.locks), pid, id) else old(kernel.locks)
    {
      readCnt[id] := readCnt[id] - 1;
      if readCnt[id] == 0 {
        kernel.Unlock(pid, id);
      }
    }

    method WriterDone(id: Id)
      requires Valid()
      modifies vis, kernel`locks
      ensures vis[..] == old(vis[..])[id := false] && kernel.locks == Unlocked(old(kernel.locks), pid, id)
    {
      kernel.Unlock(pid, id);
      vis[id] := false;
    }

    method HandleEof(c: Conn)
      requires Valid() && c in sessions
      modifies this`sessions, vis, readCnt, kernel`locks
      ensures Valid() && Value() == EofSeen(old(Value()), pid, c)
    {
      var id: Id := if sessions[c].Ordering? then sessions[c].id else 0;
      if kind == ReadServer {
        if sessions[c].Ordering? {
          ReaderDone(id);
        }
      } else {
        WriterDone(id);
      }
      ReqClose(c);
    }

    /** An id line: test, lock and show follow each other without a pause in this process. */
    method HandleId(c: Conn, len: nat, value: int)
      requires Valid() && c in sessions && sessions[c] == Asking
      modifies this`sessions, vis, readCnt, kernel`locks
      ensures Valid()
      ensures Value() == var v := IdGiven(old(Value()), pid, c, len, value); if v.proc.pc.Granted? then Shown(LockSet(v, pid)) else v
    {
      if len != 6 {
        ReqClose(c);
        return;
      }
      var id := value - FIRST_ID;
      if id >= RECORDS || id < 0 {
        ReqClose(c);
        return;
      }
      var want := if kind == ReadServer then Shared else Exclusive;
      var busy := kernel.Test(pid, id, want);
      if (kind == WriteServer && vis[id]) || busy {
        ReqClose(c);
        return;
      }
      kernel.SetLk(pid, id, want);
      if kind == ReadServer {
        readCnt[id] := readCnt[id] + 1;
      } else {
        vis[id] := true;
      }
      sessions := sessions[c := Ordering(id, kernel.file[id])];
    }

    /** A line for the read server. */
    method HandleReaderLine(c: Conn, exit: bool)
      requires Valid() && kind == ReadServer && c in sessions && sessions[c].Ordering?
      modifies this`sessions, readCnt, kernel`locks
      ensures Valid() && Value() == CommandGiven(old(Value()), pid, c, if exit then Exit else Unreadable)
    {
      if exit {
        var id := sessions[c].id;
        ReqClose(c);
        ReaderDone(id);
      }
    }

    /** A booking line for the write server: parse, read, check, store and release in one go.
        `defined` is false when parsing would touch memory out of bounds. */
    method HandleBooking(c: Conn, line: string) returns (defined: bool)
      requires Valid() && kind == WriteServer && c in sessions && sessions[c].Ordering?
      modifies this`sessions, vis, kernel
      ensures Valid()
      ensures defined <==> !Strays(line)
      ensures defined ==>
        Value() == var v := CommandGiven(old(Value()), pid, c, CommandOf(line)); if v.proc.pc.Loaded? then Released(Stored(v), pid) else v
    {
      var id := sessions[c].id;
      var r := Get3Num(line);
      defined := r != OutOfBounds;
      match r
      case OutOfBounds =>
      case Rejected =>
        ReqClose(c);
        WriterDone(id);
      case Numbers(opr) =>
        Update(id, opr);
        ReqClose(c);
        WriterDone(id);
    }

    /** Read the record, add the order, and write it back unless it breaks a limit. */
    method Update(id: Id, opr: seq<int>)
      requires |opr| == 3
      modifies kernel`file
      ensures var updated := Plus(old(kernel.file[id]), Counts(opr[0], opr[1], opr[2]));
        kernel.file == if updated.food >= 0 && updated.concert >= 0 && updated.electronics >= 0
                          && updated.food + updated.concert + updated.electronics <= 15
                       then old(kernel.file)[id := updated] else old(kernel.file)
    {
      var cur := kernel.file[id];
      var updated := Counts(cur.food + opr[0], cur.concert + opr[1], cur.electronics + opr[2]);
      if updated.food + updated.concert + updated.electronics > MAX_BOOKED {
        // more than the limit: nothing is stored
      } else if updated.food < 0 || updated.concert < 0 || updated.electronics < 0 {
        // a negative count: nothing is stored
      } else {
        kernel.file := kernel.file[id := updated];
      }
    }
  }
}
