/** The tournament never gets stuck, always ends, and always names the bracket's champion. */
module TournamentProgress {
  import opened Battle
  import opened Bracket
  import opened Tournament
  import opened TournamentRuns

  // ---------- losers on their way and re-entries waiting for them ----------

  /** A message that will send its receiver through the FIFO of re-entry `k`. */
  predicate SendsTo(f: Feed, m: Status, k: nat) {
    UpperFeed(f) && m.hp <= 0 && Upper(m.battle) && Lose(m.battle) == k
  }

  /** Losers below this node that are still to be pushed to `k`: of battles not over yet, of
      messages on their way down, and of players at the FIFO. */
  function Owed(n: Node, k: nat): nat {
    match n
    case Player(_, _, _, pc) => if pc == Reentering(k) then 1 else 0
    case Battle(b, l, r, _, _, pc) =>
      LinkOwed(l, k) + LinkOwed(r, k) + (if (pc == Reading0 || pc == Reading1) && Upper(b) && Lose(b) == k then 1 else 0)
  }

  function LinkOwed(l: Link, k: nat): nat {
    Owed(l.child, k) + (if l.down.Full? && SendsTo(FeedOf(l.child), l.down.s, k) then 1 else 0)
  }

  /** Re-entries `k` below this node that still wait for their loser. */
  function Openings(n: Node, k: nat): nat {
    match n
    case Player(slot, _, _, pc) => if pc == Opening && slot == k then 1 else 0
    case Battle(_, l, r, _, _, _) => Openings(l.child, k) + Openings(r.child, k)
  }

  lemma UpperBelow(b: nat)
    requires b < BATTLES && b != A
    ensures (Upper(b) <==> UpperFeed(Left(b))) && (Upper(b) <==> UpperFeed(Right(b)))
  {
  }

  /** A step pays off a loser exactly by a push, and takes one over with its last message. */
  ghost predicate Balanced(n: Node, act: Action, n': Node, k: nat) {
    && Owed(n', k) + (if act.Pushes? && act.k == k then 1 else 0)
       == Owed(n, k) + (if act.Receives? && SendsTo(FeedOf(n), act.s, k) then 1 else 0)
    && Openings(n', k) + (if act.Pulls? && act.k == k then 1 else 0) == Openings(n, k)
  }

  lemma PlayerBalanced(init: seq<Status>, n: Node, act: Action, n': Node, k: nat)
    requires Players(init) && n.Player? && NodeOk(init, n) && PlayerStep(n, act, n') && Rely(init, n, act)
    ensures Balanced(n, act, n', k)
  {
  }

  /** A settled battle sends its loser, and only its loser, towards the battle's re-entry. */
  lemma LoserSent(init: seq<Status>, b: nat, k: nat)
    requires Players(init) && b < BATTLES
    ensures var d := Result(init, b);
      One(SendsTo(Left(b), d.p, k)) + One(SendsTo(Right(b), d.q, k)) == One(Upper(b) && Lose(b) == k)
  {
    FinishOk(init, b);
    if b != A { UpperBelow(b); }
  }

  lemma FightPipes(init: seq<Status>, n: Node)
    requires Players(init) && n.Battle? && NodeOk(init, n) && n.pc == Reading1 && n.r.up.Full?
    ensures n.l.down == Empty && n.r.down == Empty && Contest(init, n.b, n.p0, n.r.up.s)
  {
  }

  lemma FightBalanced(init: seq<Status>, n: Node, n': Node, k: nat)
    requires Players(init) && n.Battle? && NodeOk(init, n) && n.pc == Reading1 && OwnStep(n, Tau, n')
    ensures Balanced(n, Tau, n', k)
  {
    FightPipes(init, n);
    var d := Round(n.p0, n.r.up.s, n.b, Field(n.b));
    RoundOk(init, n.b, n.p0, n.r.up.s);
    assert LinkOwed(n'.l, k) == LinkOwed(n.l, k) + One(SendsTo(Left(n.b), d.p, k));
    assert LinkOwed(n'.r, k) == LinkOwed(n.r, k) + One(SendsTo(Right(n.b), d.q, k));
    if d.remain != -1 {
      LoserSent(init, n.b, k);
    }
  }

  lemma RelayBalanced(init: seq<Status>, n: Node, m: Status, n': Node, k: nat)
    requires Players(init) && n.Battle? && NodeOk(init, n) && n.pc.RelayDown? && OwnStep(n, Receives(m), n')
    ensures Balanced(n, Receives(m), n', k)
  {
    UpperBelow(n.b);
    var w := Winning(n, n.pc.remain);
    assert w.down == Empty;
    assert LinkOwed(w.(down := Full(m)), k) == LinkOwed(w, k) + One(SendsTo(FeedOf(w.child), m, k));
  }

  lemma OwnBalanced(init: seq<Status>, n: Node, act: Action, n': Node, k: nat)
    requires Players(init) && n.Battle? && NodeOk(init, n) && OwnStep(n, act, n')
    ensures Balanced(n, act, n', k)
  {
    if n.pc == Reading1 {
      FightBalanced(init, n, n', k);
    } else if n.pc.RelayDown? {
      RelayBalanced(init, n, act.s, n', k);
    } else {
      QuietBalanced(n, act, n', k);
    }
  }

  lemma QuietBalanced(n: Node, act: Action, n': Node, k: nat)
    requires n.Battle? && OwnStep(n, act, n') && n.pc != Reading1 && !n.pc.RelayDown?
    ensures Balanced(n, act, n', k)
  {
  }

  lemma {:induction false} NodeBalanced(init: seq<Status>, n: Node, act: Action, n': Node, k: nat)
    requires Players(init) && NodeOk(init, n) && NodeStep(n, act, n') && Rely(init, n, act)
    ensures Balanced(n, act, n', k)
    decreases n, 1
  {
    if n.Player? {
      PlayerBalanced(init, n, act, n', k);
    } else if OwnStep(n, act, n') {
      OwnBalanced(init, n, act, n', k);
    } else if n'.Battle? && n' == n.(l := n'.l) && LinkStep(n.l, act, n'.l) {
      LinkBalanced(init, n.l, act, n'.l, k);
    } else {
      LinkBalanced(init, n.r, act, n'.r, k);
    }
  }

  lemma {:induction false} LinkBalanced(init: seq<Status>, l: Link, act: Action, l': Link, k: nat)
    requires Players(init) && LinkOk(init, l) && ValidFeed(FeedOf(l.child)) && LinkStep(l, act, l')
    requires act.Pulls? ==> 8 <= act.k <= 14 && act.s == Entrant(init, Slot(act.k))
    ensures LinkOwed(l', k) + (if act.Pushes? && act.k == k then 1 else 0) == LinkOwed(l, k)
    ensures Openings(l'.child, k) + (if act.Pulls? && act.k == k then 1 else 0) == Openings(l.child, k)
    ensures !act.Sends? && !act.Receives?
    decreases l, 0
  {
    var inner := LinkStepBehind(l, act, l');
    NodeBalanced(init, l.child, inner, l'.child, k);
    NodeKeeps(init, l.child, inner, l'.child);
  }

  /** The lower bracket owes nobody, and nobody re-enters the upper one. */
  lemma {:induction false} OneSided(init: seq<Status>, n: Node, k: nat)
    requires Players(init) && NodeOk(init, n) && FeedOf(n) != Winner(A)
    ensures !UpperFeed(FeedOf(n)) ==> Owed(n, k) == 0
    ensures UpperFeed(FeedOf(n)) ==> Openings(n, k) == 0
  {
    if n.Battle? {
      UpperBelow(n.b);
      OneSided(init, n.l.child, k);
      OneSided(init, n.r.child, k);
    }
  }

  // ---------- what can move ----------

  ghost predicate CanTau(n: Node) {
    exists n' :: NodeStep(n, Tau, n')
  }

  ghost predicate CanSend(n: Node) {
    exists s, n' :: NodeStep(n, Sends(s), n')
  }

  ghost predicate CanReceive(n: Node, s: Status) {
    exists n' :: NodeStep(n, Receives(s), n')
  }

  ghost predicate CanPush(n: Node) {
    exists k, s, n' :: NodeStep(n, Pushes(k, s), n')
  }

  /** A move of a child is a move of its battle. */
  lemma ChildMoves(n: Node, left: bool, act: Action, k': Link)
    requires n.Battle? && LinkStep(if left then n.l else n.r, act, k')
    ensures exists n' :: NodeStep(n, act, n')
  {
    if left {
      assert NodeStep(n, act, Node.Battle(n.b, k', n.r, n.p0, n.p1, n.pc));
    } else {
      assert NodeStep(n, act, Node.Battle(n.b, n.l, k', n.p0, n.p1, n.pc));
    }
  }

  lemma LinkTau(k: Link)
    requires CanTau(k.child)
    ensures exists k' :: LinkStep(k, Tau, k')
  {
    var c :| NodeStep(k.child, Tau, c);
    assert LinkStep(k, Tau, k.(child := c));
  }

  lemma LinkSend(k: Link)
    requires CanSend(k.child) && k.up == Empty
    ensures exists k' :: LinkStep(k, Tau, k')
  {
    var s, c :| NodeStep(k.child, Sends(s), c);
    assert LinkStep(k, Tau, Link(c, Full(s), k.down));
  }

  lemma LinkReceive(k: Link)
    requires k.down.Full? && CanReceive(k.child, k.down.s)
    ensures exists k' :: LinkStep(k, Tau, k')
  {
    var c :| NodeStep(k.child, Receives(k.down.s), c);
    assert LinkStep(k, Tau, Link(c, k.up, Empty));
  }

  lemma LinkPush(k: Link) returns (slot: nat, s: Status, k': Link)
    requires CanPush(k.child)
    ensures LinkStep(k, Pushes(slot, s), k')
  {
    var i, t, c :| NodeStep(k.child, Pushes(i, t), c);
    slot, s, k' := i, t, k.(child := c);
  }

  /** A node answers what it is waiting for. */
  lemma ReceivesWhenWaiting(init: seq<Status>, n: Node, s: Status)
    requires |init| == 8 && ModeOf(init, n).Waiting?
    ensures CanReceive(n, s)
  {
    if n.Player? {
      assert NodeStep(n, Receives(s), Answered(n.slot, n.origin, s));
    } else {
      var remain := n.pc.remain;
      var h := Hold(WithWinning(n, remain, Winning(n, remain).(down := Full(s))), remain, s);
      var n' := h.(pc := if Final(s) then AwaitLast(remain) else RelayUp(remain));
      assert OwnStep(n, Receives(s), n');
      assert NodeStep(n, Receives(s), n');
    }
  }

  /** What a link can do, by what its battle sees of it. */
  ghost predicate LinkLive(init: seq<Status>, k: Link)
    requires |init| == 8
  {
    var tau := exists k' :: LinkStep(k, Tau, k');
    match LinkModeOf(init, k)
    case LPending => tau || CanPush(k.child) || exists i :: Openings(k.child, i) > 0
    case LOffer(_) => tau || k.up.Full?
    case LClosing => tau
    case LDone => tau || CanPush(k.child) || Gone(k.child)
    case _ => true
  }

  ghost predicate NodeLive(init: seq<Status>, n: Node)
    requires |init| == 8
  {
    match ModeOf(init, n)
    case Pending => CanTau(n) || CanPush(n) || (exists i :: Openings(n, i) > 0) || Gone(n)
    case Offering(_) => CanTau(n) || CanSend(n)
    case Waiting(_) => true
    case Done => CanTau(n) || CanPush(n) || Gone(n)
  }

  lemma LinkOfLive(init: seq<Status>, k: Link)
    requires Players(init) && LinkOk(init, k) && NodeLive(init, k.child)
    ensures LinkLive(init, k)
  {
    if CanTau(k.child) { LinkTau(k); }
    if CanSend(k.child) && k.up == Empty { LinkSend(k); }
    if k.down.Full? && ModeOf(init, k.child).Waiting? {
      ReceivesWhenWaiting(init, k.child, k.down.s);
      LinkReceive(k);
    }
  }

  /** A live link keeps its battle going. */
  lemma LinkMoves(init: seq<Status>, n: Node, left: bool)
    requires Players(init) && n.Battle? && LinkLive(init, if left then n.l else n.r)
    ensures var k := if left then n.l else n.r; var m := LinkModeOf(init, k);
      && (m == LPending ==> CanTau(n) || CanPush(n) || exists i :: Openings(n, i) > 0)
      && (m.LOffer? ==> CanTau(n) || k.up.Full?)
      && (m == LClosing ==> CanTau(n))
      && (m == LDone ==> CanTau(n) || CanPush(n) || Gone(k.child))
  {
    var k := if left then n.l else n.r;
    if exists k' :: LinkStep(k, Tau, k') {
      var k' :| LinkStep(k, Tau, k');
      ChildMoves(n, left, Tau, k');
    } else if CanPush(k.child) {
      var slot, s, k' := LinkPush(k);
      ChildMoves(n, left, Pushes(slot, s), k');
    } else if exists i :: Openings(k.child, i) > 0 {
      var i :| Openings(k.child, i) > 0;
      assert Openings(n, i) > 0;
    }
  }

  /** The battle process moves as soon as its links give it reason to. */
  lemma OwnMoves(init: seq<Status>, n: Node)
    requires Players(init) && n.Battle? && NodeOk(init, n)
    ensures n.pc == Reading0 && n.l.up.Full? ==> CanTau(n)
    ensures n.pc == Reading1 && n.r.up.Full? ==> CanTau(n)
    ensures n.pc.AwaitOne? && (Gone(n.l.child) || Gone(n.r.child)) ==> CanTau(n)
    ensures n.pc.AwaitLast? && Gone(n.l.child) && Gone(n.r.child) ==> CanTau(n)
    ensures n.pc.RelayUp? && Winning(n, n.pc.remain).up.Full? ==> CanSend(n)
  {
    match n.pc
    case Reading0 =>
      if n.l.up.Full? {
        assert NodeStep(n, Tau, n.(l := n.l.(up := Empty), p0 := n.l.up.s, pc := Reading1));
      }
    case Reading1 =>
      if n.r.up.Full? {
        var d := Round(n.p0, n.r.up.s, n.b, Field(n.b));
        assert NodeStep(n, Tau, Node.Battle(n.b, n.l.(down := Full(d.p)), n.r.(up := Empty, down := Full(d.q)), d.p, d.q,
                                            if d.p.ended then AwaitOne(d.remain) else Reading0));
      }
    case AwaitOne(remain) =>
      if Gone(n.l.child) || Gone(n.r.child) {
        assert NodeStep(n, Tau, n.(pc := if n.b == A then AwaitLast(remain) else RelayUp(remain)));
      }
    case RelayUp(remain) =>
      var k := Winning(n, remain);
      if k.up.Full? {
        var h := Hold(WithWinning(n, remain, k.(up := Empty)), remain, k.up.s);
        assert NodeStep(n, Sends(k.up.s), h.(pc := RelayDown(remain)));
      }
    case AwaitLast(_) =>
      if Gone(n.l.child) && Gone(n.r.child) {
        assert NodeStep(n, Tau, n.(pc := Finished));
      }
    case _ =>
  }

  lemma PlayerLive(init: seq<Status>, n: Node)
    requires Players(init) && n.Player? && NodeOk(init, n)
    ensures NodeLive(init, n)
  {
    match n.playerPc
    case Opening => assert Openings(n, n.slot) > 0;
    case Sending => assert NodeStep(n, Sends(n.p), n.(playerPc := Receiving));
    case Reentering(k) => assert NodeStep(n, Pushes(k, n.p), n.(playerPc := Exited));
    case _ =>
  }

  lemma BattleLive(init: seq<Status>, n: Node)
    requires Players(init) && n.Battle? && NodeOk(init, n)
    requires LinkLive(init, n.l) && LinkLive(init, n.r)
    ensures NodeLive(init, n)
  {
    LinkMoves(init, n, true);
    LinkMoves(init, n, false);
    OwnMoves(init, n);
    GoneIsDone(init, n.l);
    GoneIsDone(init, n.r);
  }

  /** Every process of the tree can go on, has exited, or waits for its parent or for a loser. */
  lemma {:induction false} AllLive(init: seq<Status>, n: Node)
    requires Players(init) && NodeOk(init, n)
    ensures NodeLive(init, n)
  {
    if n.Player? {
      PlayerLive(init, n);
    } else {
      AllLive(init, n.l.child);
      AllLive(init, n.r.child);
      LinkOfLive(init, n.l);
      LinkOfLive(init, n.r);
      BattleLive(init, n);
    }
  }

  /** Where a loser is owed, something moves. */
  lemma {:induction false} OwedLive(init: seq<Status>, n: Node, k: nat)
    requires Players(init) && NodeOk(init, n) && Owed(n, k) > 0
    requires forall i :: Openings(n, i) == 0
    ensures CanTau(n) || CanSend(n) || CanPush(n)
  {
    if n.Player? {
      PlayerLive(init, n);
    } else {
      forall i ensures Openings(n.l.child, i) == 0 && Openings(n.r.child, i) == 0 {
        assert Openings(n, i) == 0;
      }
      if LinkOwed(n.l, k) > 0 {
        LinkOwedLive(init, n.l, k);
        LinkActs(init, n, true);
      } else if LinkOwed(n.r, k) > 0 {
        LinkOwedLive(init, n.r, k);
        LinkActs(init, n, false);
      } else {
        AllLive(init, n);
      }
    }
  }

  lemma {:induction false} LinkOwedLive(init: seq<Status>, l: Link, k: nat)
    requires Players(init) && LinkOk(init, l) && LinkOwed(l, k) > 0
    requires forall i :: Openings(l.child, i) == 0
    ensures (exists l' :: LinkStep(l, Tau, l')) || CanPush(l.child)
  {
    if Owed(l.child, k) > 0 {
      OwedLive(init, l.child, k);
      if CanTau(l.child) {
        LinkTau(l);
      } else if CanSend(l.child) {
        SendsWhenOffering(init, l.child);
        LinkSend(l);
      }
    } else {
      ReceivesWhenWaiting(init, l.child, l.down.s);
      LinkReceive(l);
    }
  }

  lemma SendsWhenOffering(init: seq<Status>, n: Node)
    requires Players(init) && NodeOk(init, n) && CanSend(n)
    ensures ModeOf(init, n).Offering?
  {
    var s, n' :| NodeStep(n, Sends(s), n');
    NodeKeeps(init, n, Sends(s), n');
  }

  lemma LinkActs(init: seq<Status>, n: Node, left: bool)
    requires n.Battle?
    requires var k := if left then n.l else n.r; (exists k' :: LinkStep(k, Tau, k')) || CanPush(k.child)
    ensures CanTau(n) || CanPush(n)
  {
    var k := if left then n.l else n.r;
    if exists k' :: LinkStep(k, Tau, k') {
      var k' :| LinkStep(k, Tau, k');
      ChildMoves(n, left, Tau, k');
    } else {
      var slot, s, k' := LinkPush(k);
      ChildMoves(n, left, Pushes(slot, s), k');
    }
  }

  // ---------- the whole system ----------

  /** Every re-entry that waits is owed exactly one loser, and no other is owed any. */
  ghost predicate Matched(n: Node) {
    forall k: nat | 8 <= k <= 14 :: Owed(n, k) == Openings(n, k) <= 1
  }

  ghost predicate SystemOk(init: seq<Status>, n: Node)
    requires Players(init)
  {
    NodeOk(init, n) && FeedOf(n) == Winner(A) && Matched(n) && OnlyReentries(n)
  }

  /** Only re-entries 8 to 14 ever wait for a loser. */
  ghost predicate OnlyReentries(n: Node) {
    forall i :: Openings(n, i) > 0 ==> 8 <= i <= 14
  }

  lemma FinalSides()
    ensures forall b: nat | b == A :: UpperFeed(Left(b)) && !UpperFeed(Right(b)) && Right(b) != Winner(A)
  {
  }

  /** At the root, what is owed is owed on the left, and what is open is open on the right. */
  lemma RootSides(init: seq<Status>, n: Node, k: nat)
    requires Players(init) && NodeOk(init, n) && FeedOf(n) == Winner(A)
    ensures n.Battle? && Owed(n.r.child, k) == 0 && Openings(n.l.child, k) == 0
    ensures Openings(n, k) == Openings(n.r.child, k)
  {
    FinalSides();
    OneSided(init, n.l.child, k);
    OneSided(init, n.r.child, k);
  }

  /** A waiting re-entry takes whatever comes. */
  lemma {:induction false} OpensForAny(n: Node, k: nat, s: Status) returns (n': Node)
    requires Openings(n, k) > 0
    ensures NodeStep(n, Pulls(k, s), n')
  {
    match n
    case Player(slot, _, origin, _) =>
      n' := LoopHead(slot, s, s.hp);
    case Battle(b, l, r, p0, p1, pc) =>
      if Openings(l.child, k) > 0 {
        var c := OpensForAny(l.child, k, s);
        assert LinkStep(l, Pulls(k, s), l.(child := c));
        n' := Node.Battle(b, l.(child := c), r, p0, p1, pc);
      } else {
        var c := OpensForAny(r.child, k, s);
        assert LinkStep(r, Pulls(k, s), r.(child := c));
        n' := Node.Battle(b, l, r.(child := c), p0, p1, pc);
      }
  }

  /** A loser at its FIFO finds its re-entry waiting, on the other side of the final. */
  lemma PushMeetsPull(init: seq<Status>, n: Node)
    requires Players(init) && SystemOk(init, n) && CanPush(n)
    ensures exists n' :: Step(n, n')
  {
    var k, s, m :| NodeStep(n, Pushes(k, s), m);
    NodeKeeps(init, n, Pushes(k, s), m);
    NodeBalanced(init, n, Pushes(k, s), m, k);
    RootSides(init, n, k);
    assert Owed(n, k) > 0;
    if m.Battle? && m == n.(r := m.r) && LinkStep(n.r, Pushes(k, s), m.r) && !LinkStep(n.l, Pushes(k, s), m.l) {
      LinkBalanced(init, n.r, Pushes(k, s), m.r, k);
      RightDownOwesNone(init, n, k);
    }
    var c := OpensForAny(n.r.child, k, s);
    var r' := n.r.(child := c);
    assert LinkStep(n.r, Pulls(k, s), r');
    assert Step(n, Node.Battle(n.b, m.l, r', n.p0, n.p1, n.pc));
  }

  lemma RightDownOwesNone(init: seq<Status>, n: Node, k: nat)
    requires Players(init) && NodeOk(init, n) && FeedOf(n) == Winner(A)
    ensures LinkOwed(n.r, k) == 0
  {
    RootSides(init, n, k);
    FinalSides();
  }

  /** A re-entry that waits is owed a loser on the other side of the final, where something moves. */
  lemma OpeningsMove(init: seq<Status>, n: Node, i: nat)
    requires Players(init) && SystemOk(init, n) && Openings(n, i) > 0
    ensures CanTau(n) || CanPush(n)
  {
    assert Owed(n, i) > 0;
    RootSides(init, n, i);
    RightDownOwesNone(init, n, i);
    forall j ensures Openings(n.l.child, j) == 0 {
      RootSides(init, n, j);
    }
    LinkOwedLive(init, n.l, i);
    LinkActs(init, n, true);
  }

  lemma SystemMoves(init: seq<Status>, n: Node)
    requires Players(init) && SystemOk(init, n) && n.pc != Finished
    ensures CanTau(n) || CanPush(n)
  {
    AllLive(init, n);
    if exists i :: Openings(n, i) > 0 {
      var i :| Openings(n, i) > 0;
      OpeningsMove(init, n, i);
    }
  }

  /** Until the final has finished, some process can always move. */
  lemma NeverStuck(init: seq<Status>, n: Node)
    requires Players(init) && SystemOk(init, n) && n.pc != Finished
    ensures exists n' :: Step(n, n')
  {
    SystemMoves(init, n);
    if CanTau(n) {
      var n' :| NodeStep(n, Tau, n');
      assert Step(n, n');
    } else {
      PushMeetsPull(init, n);
    }
  }

  // ---------- every re-entry is served ----------

  /** No re-entry waits below a process that has come to offer a winner, or beyond. */
  lemma {:induction false} NoOpenings(init: seq<Status>, n: Node, k: nat)
    requires Players(init) && NodeOk(init, n) && ModeOf(init, n) != Pending
    ensures Openings(n, k) == 0
    decreases n, 1
  {
    if n.Battle? {
      LinkNoOpenings(init, n.l, k);
      LinkNoOpenings(init, n.r, k);
    }
  }

  lemma {:induction false} LinkNoOpenings(init: seq<Status>, l: Link, k: nat)
    requires Players(init) && LinkOk(init, l) && LinkModeOf(init, l) != LPending
    ensures Openings(l.child, k) == 0
    decreases l, 0
  {
    NoOpenings(init, l.child, k);
  }

  /** When the final's process has exited, every re-entry has got its loser, and none is on the way. */
  lemma AllServed(init: seq<Status>, n: Node, k: nat)
    requires Players(init) && SystemOk(init, n) && n.pc == Finished && 8 <= k <= 14
    ensures Openings(n, k) == 0 && Owed(n, k) == 0
  {
    LinkNoOpenings(init, n.l, k);
    LinkNoOpenings(init, n.r, k);
  }

  lemma StepKeeps(init: seq<Status>, n: Node, n': Node)
    requires Players(init) && SystemOk(init, n) && Step(n, n')
    ensures SystemOk(init, n')
  {
    if NodeStep(n, Tau, n') {
      NodeKeeps(init, n, Tau, n');
      forall k: nat ensures Owed(n', k) == Owed(n, k) && Openings(n', k) == Openings(n, k) {
        NodeBalanced(init, n, Tau, n', k);
      }
    } else {
      var k, s :| LinkStep(n.l, Pushes(k, s), n'.l) && LinkStep(n.r, Pulls(k, s), n'.r);
      MeetingKeeps(init, n, k, s, n');
    }
  }

  lemma MeetingKeeps(init: seq<Status>, n: Node, k: nat, s: Status, n': Node)
    requires Players(init) && SystemOk(init, n) && n.Battle? && n'.Battle? && n' == n.(l := n'.l, r := n'.r)
    requires LinkStep(n.l, Pushes(k, s), n'.l) && LinkStep(n.r, Pulls(k, s), n'.r)
    ensures SystemOk(init, n')
  {
    LinkStepKeeps(init, n.l, Pushes(k, s), n'.l);
    LinkStepKeeps(init, n.r, Pulls(k, s), n'.r);
    var m := n.(l := n'.l);
    LeftMoves(init, n, m);
    RightMoves(init, m, n');
    forall i: nat
      ensures Owed(n', i) + One(i == k) == Owed(n, i) && Openings(n', i) + One(i == k) == Openings(n, i)
    {
      LinkBalanced(init, n.l, Pushes(k, s), n'.l, i);
      LinkBalanced(init, n.r, Pulls(k, s), n'.r, i);
    }
  }
}
