/** What every step of the tournament keeps, in every interleaving of its processes: each
    message is the one the bracket prescribes, and every re-entry gets its own loser. */
module TournamentRuns {
  import opened Battle
  import opened Bracket
  import opened Tournament

  /** The processes as they are started, from the root down. */
  function Launch(init: seq<Status>, f: Feed): Node
    requires |init| == 8 && ValidFeed(f)
    decreases FeedRank(f)
  {
    match f
    case Slot(n) => if n <= 7 then Player(n, init[n], init[n].hp, Sending) else Player(n, init[0], 0, Opening)
    case Winner(b) =>
      Node.Battle(b, Link(Launch(init, Left(b)), Empty, Empty), Link(Launch(init, Right(b)), Empty, Empty), init[0], init[0], Reading0)
  }

  // ---------- the invariant ----------

  predicate UpperFeed(f: Feed) {
    match f case Winner(b) => Upper(b) case Slot(n) => n <= 7
  }

  /** The battle that is still to be fought between these two ends as the bracket says. */
  ghost predicate Contest(init: seq<Status>, b: nat, x: Status, y: Status)
    requires Players(init) && b < BATTLES
  {
    InGame(init, x) && InGame(init, y) && Fought(x, y, b, Field(b)) == Result(init, b)
  }

  /** A message on its way down: a loser's last one is the result of its battle, and only the
      upper battles and the final send one to those who have not lost before. */
  ghost predicate MessageOk(init: seq<Status>, f: Feed, m: Status)
    requires Players(init)
  {
    && 0 <= m.id < 8 && m.battle < BATTLES
    && if m.hp <= 0 then m == LoserOf(Result(init, m.battle)) && (UpperFeed(f) ==> Upper(m.battle) || m.battle == A)
       else m.hp <= init[m.id].hp && m.atk > 0
  }

  predicate Open(m: LinkMode) {
    m.LPending? || m.LOffer?
  }

  predicate Closed(m: LinkMode) {
    m.LClosing? || m.LDone?
  }

  /** What an open link brings to the battle above it. */
  ghost function Content(init: seq<Status>, k: Link): Status
    requires Players(init) && ValidFeed(FeedOf(k.child))
  {
    var m := LinkModeOf(init, k);
    if m.LOffer? then m.v else Entrant(init, FeedOf(k.child))
  }

  ghost predicate PlayerOk(init: seq<Status>, n: Node)
    requires Players(init) && n.Player?
  {
    && n.slot <= 14
    && match n.playerPc
       case Opening => n.slot >= 8
       case Reentering(k) => n.slot <= 7 && 8 <= k <= 14 && n.p == Entrant(init, Slot(k))
       case Exited => true
       case _ => InGame(init, n.p) && n.origin == init[n.p.id].hp
  }

  ghost predicate LinkOk(init: seq<Status>, k: Link)
    requires Players(init)
  {
    && NodeOk(init, k.child)
    && FeedOf(k.child) != Winner(A)
    && LinkModeOf(init, k) != LBroken
    && (k.down.Full? ==> MessageOk(init, FeedOf(k.child), k.down.s) && ModeOf(init, k.child).v.id == k.down.s.id)
  }

  /** The battle process itself, by where it is. */
  ghost predicate PhaseOk(init: seq<Status>, n: Node)
    requires Players(init) && n.Battle? && n.b < BATTLES
    requires ValidFeed(FeedOf(n.l.child)) && ValidFeed(FeedOf(n.r.child))
  {
    var lm, rm := LinkModeOf(init, n.l), LinkModeOf(init, n.r);
    match n.pc
    case Reading0 => Open(lm) && Open(rm) && Contest(init, n.b, Content(init, n.l), Content(init, n.r))
    case Reading1 => lm == LTaken(n.p0) && Open(rm) && Contest(init, n.b, n.p0, Content(init, n.r))
    case AwaitOne(remain) =>
      && remain in {0, 1}
      && (if n.b == A then Closed(lm) && Closed(rm) && Held(n, remain) == WinnerOf(Result(init, n.b))
          else LinkModeOf(init, Winning(n, remain)) == LOffer(Entrant(init, Winner(n.b)))
               && Closed(LinkModeOf(init, Winning(n, 1 - remain))))
    case RelayUp(remain) =>
      && remain in {0, 1} && n.b != A
      && LinkModeOf(init, Winning(n, remain)).LOffer? && InGame(init, LinkModeOf(init, Winning(n, remain)).v)
      && LinkModeOf(init, Winning(n, 1 - remain)) == LDone
    case RelayDown(remain) =>
      && remain in {0, 1} && n.b != A
      && LinkModeOf(init, Winning(n, remain)) == LTaken(Held(n, remain)) && InGame(init, Held(n, remain))
      && LinkModeOf(init, Winning(n, 1 - remain)) == LDone
    case AwaitLast(remain) =>
      && remain in {0, 1} && Closed(lm) && Closed(rm)
      && (n.b == A ==> Held(n, remain) == WinnerOf(Result(init, n.b)))
    case Finished =>
      lm == LDone && rm == LDone
  }

  ghost predicate NodeOk(init: seq<Status>, n: Node)
    requires Players(init)
  {
    match n
    case Player(_, _, _, _) => PlayerOk(init, n)
    case Battle(b, l, r, _, _, _) =>
      && b < BATTLES && FeedOf(l.child) == Left(b) && FeedOf(r.child) == Right(b)
      && LinkOk(init, l) && LinkOk(init, r)
      && PhaseOk(init, n)
  }

  // ---------- what a node relies on and guarantees ----------

  ghost predicate Rely(init: seq<Status>, n: Node, act: Action)
    requires Players(init)
  {
    match act
    case Receives(m) => ModeOf(init, n).Waiting? && ModeOf(init, n).v.id == m.id && MessageOk(init, FeedOf(n), m)
    case Pulls(k, s) => 8 <= k <= 14 && s == Entrant(init, Slot(k))
    case _ => true
  }

  ghost predicate SameMode(init: seq<Status>, n: Node, n': Node)
    requires Players(init) && ValidFeed(FeedOf(n))
  {
    || ModeOf(init, n') == ModeOf(init, n)
    || (ModeOf(init, n) == Pending && ModeOf(init, n') == Offering(Entrant(init, FeedOf(n))))
  }

  ghost predicate Guarantee(init: seq<Status>, n: Node, act: Action, n': Node)
    requires Players(init) && ValidFeed(FeedOf(n))
  {
    && FeedOf(n') == FeedOf(n)
    && match act
       case Tau => SameMode(init, n, n')
       case Pushes(k, s) => 8 <= k <= 14 && s == Entrant(init, Slot(k)) && SameMode(init, n, n')
       case Pulls(_, _) => SameMode(init, n, n')
       case Sends(s) => ModeOf(init, n) == Offering(s) && ModeOf(init, n') == Waiting(s)
       case Receives(m) => ModeOf(init, n') == if Final(m) then Done else Offering(Respond(init, m))
  }

  /** A link's contents as its battle sees them do not change while the child moves. */
  ghost predicate SameLink(init: seq<Status>, k: Link, k': Link)
    requires Players(init) && ValidFeed(FeedOf(k.child))
  {
    && FeedOf(k'.child) == FeedOf(k.child)
    && var m, m' := LinkModeOf(init, k), LinkModeOf(init, k');
       || m' == m
       || (m == LPending && m' == LOffer(Entrant(init, FeedOf(k.child))))
       || (m == LClosing && m' == LDone)
  }

  // ---------- players ----------

  lemma PlayerKeeps(init: seq<Status>, n: Node, act: Action, n': Node)
    requires Players(init) && n.Player? && NodeOk(init, n) && PlayerStep(n, act, n') && Rely(init, n, act)
    ensures NodeOk(init, n') && Guarantee(init, n, act, n')
  {
    if act.Receives? && Final(act.s) && act.s.hp <= 0 && n.slot <= 7 && act.s.battle != A {
      SlotsAndOrigins();
    }
  }

  // ---------- links ----------

  lemma LinkKeeps(init: seq<Status>, k: Link, act: Action, k': Link, inner: Action)
    requires Players(init) && LinkOk(init, k) && ValidFeed(FeedOf(k.child))
    requires NodeOk(init, k'.child) && Guarantee(init, k.child, inner, k'.child) && Rely(init, k.child, inner)
    requires
      || (inner == act && !act.Sends? && !act.Receives? && k'.up == k.up && k'.down == k.down)
      || (act == Tau && inner.Sends? && k.up == Empty && k'.up == Full(inner.s) && k'.down == k.down)
      || (act == Tau && inner.Receives? && k.down == Full(inner.s) && k'.down == Empty && k'.up == k.up)
    ensures LinkOk(init, k') && SameLink(init, k, k')
  {
  }

  // ---------- battles: a child moves ----------

  /** The battle's own state stays right while its left-hand side makes a move. */
  lemma LeftMoves(init: seq<Status>, n: Node, n': Node)
    requires Players(init) && n.Battle? && NodeOk(init, n) && n'.Battle? && n' == n.(l := n'.l)
    requires LinkOk(init, n'.l) && SameLink(init, n.l, n'.l)
    ensures NodeOk(init, n') && ModeOf(init, n') == ModeOf(init, n)
  {
  }

  lemma RightMoves(init: seq<Status>, n: Node, n': Node)
    requires Players(init) && n.Battle? && NodeOk(init, n) && n'.Battle? && n' == n.(r := n'.r)
    requires LinkOk(init, n'.r) && SameLink(init, n.r, n'.r)
    ensures NodeOk(init, n') && ModeOf(init, n') == ModeOf(init, n)
  {
  }

  // ---------- battles: the process itself moves ----------

  lemma UpperAbove(b: nat)
    requires b < BATTLES
    ensures UpperFeed(Left(b)) || UpperFeed(Right(b)) ==> Upper(b) || b == A
    ensures Upper(b) ==> UpperFeed(Left(b)) && UpperFeed(Right(b))
  {
  }

  lemma TakenUp(init: seq<Status>, k: Link)
    requires Players(init) && ValidFeed(FeedOf(k.child)) && LinkOk(init, k) && Open(LinkModeOf(init, k)) && k.up.Full?
    ensures LinkOk(init, k.(up := Empty)) && LinkModeOf(init, k.(up := Empty)) == LTaken(k.up.s) && Content(init, k) == k.up.s
  {
  }

  lemma TakeLeft(init: seq<Status>, n: Node, n': Node)
    requires Players(init) && n.Battle? && NodeOk(init, n) && n.pc == Reading0 && OwnStep(n, Tau, n')
    ensures NodeOk(init, n') && ModeOf(init, n') == ModeOf(init, n)
  {
    TakenUp(init, n.l);
  }

  /** One round from the two statuses read: either the contest goes on, or it is settled. */
  lemma RoundOk(init: seq<Status>, b: nat, x: Status, y: Status)
    requires Players(init) && b < BATTLES && Contest(init, b, x, y)
    ensures var d := Round(x, y, b, Field(b));
      && d.p.id == x.id && d.q.id == y.id && d.p.battle == d.q.battle == b
      && (d.remain == -1 ==> !d.p.ended && !d.q.ended && Contest(init, b, d.p, d.q))
      && (d.remain != -1 ==> d == Result(init, b))
  {
    RoundStep(x, y, b, Field(b));
  }

  /** The messages that a settled battle sends down. */
  lemma FinishOk(init: seq<Status>, b: nat)
    requires Players(init) && b < BATTLES
    ensures var d := Result(init, b);
      && d.p.ended && d.q.ended && d.remain in {0, 1}
      && MessageOk(init, Left(b), d.p) && MessageOk(init, Right(b), d.q)
      && Final(LoserOf(d)) && (Final(WinnerOf(d)) <==> b == A)
      && Respond(init, WinnerOf(d)) == Entrant(init, Winner(b))
  {
    UpperAbove(b);
  }

  lemma GoingOnOk(init: seq<Status>, f: Feed, s: Status)
    requires Players(init) && InGame(init, s) && s.battle < BATTLES
    ensures MessageOk(init, f, s) && !Final(s) && Respond(init, s) == s
  {
  }

  lemma FightRound(init: seq<Status>, n: Node, n': Node)
    requires Players(init) && n.Battle? && NodeOk(init, n) && n.pc == Reading1 && OwnStep(n, Tau, n')
    ensures NodeOk(init, n') && ModeOf(init, n') == ModeOf(init, n)
  {
    var y := n.r.up.s;
    RoundOk(init, n.b, n.p0, y);
    var d := Round(n.p0, y, n.b, Field(n.b));
    if d.remain == -1 {
      GoingOnOk(init, Left(n.b), d.p);
      GoingOnOk(init, Right(n.b), d.q);
    } else {
      FinishOk(init, n.b);
    }
  }

  lemma GoneIsDone(init: seq<Status>, k: Link)
    requires Players(init) && LinkOk(init, k)
    ensures Gone(k.child) ==> LinkModeOf(init, k) == LDone
    ensures LinkModeOf(init, k).LOffer? ==> !Gone(k.child)
  {
  }

  lemma FinalIsOver(init: seq<Status>, n: Node, n': Node)
    requires Players(init) && n.Battle? && NodeOk(init, n) && n.pc.AwaitOne? && n.b == A && OwnStep(n, Tau, n')
    ensures NodeOk(init, n') && ModeOf(init, n') == ModeOf(init, n)
  {
  }

  lemma RelayStarts(init: seq<Status>, n: Node, n': Node)
    requires Players(init) && n.Battle? && NodeOk(init, n) && n.pc.AwaitOne? && n.b != A && OwnStep(n, Tau, n')
    ensures NodeOk(init, n') && SameMode(init, n, n')
  {
    GoneIsDone(init, n.l);
    GoneIsDone(init, n.r);
    var k := Winning(n, n.pc.remain);
    assert LinkModeOf(init, k) == LOffer(Entrant(init, Winner(n.b)));
    assert n'.l == n.l && n'.r == n.r && n'.pc == RelayUp(n.pc.remain);
  }

  lemma RelaysUp(init: seq<Status>, n: Node, s: Status, n': Node)
    requires Players(init) && n.Battle? && NodeOk(init, n) && n.pc.RelayUp? && OwnStep(n, Sends(s), n')
    ensures NodeOk(init, n') && ModeOf(init, n) == Offering(s) && ModeOf(init, n') == Waiting(s)
  {
  }

  lemma RelaysDown(init: seq<Status>, n: Node, m: Status, n': Node)
    requires Players(init) && n.Battle? && NodeOk(init, n) && n.pc.RelayDown? && OwnStep(n, Receives(m), n')
    requires Rely(init, n, Receives(m))
    ensures NodeOk(init, n') && ModeOf(init, n') == if Final(m) then Done else Offering(Respond(init, m))
  {
    UpperAbove(n.b);
  }

  lemma BattleFinishes(init: seq<Status>, n: Node, n': Node)
    requires Players(init) && n.Battle? && NodeOk(init, n) && n.pc.AwaitLast? && OwnStep(n, Tau, n')
    ensures NodeOk(init, n') && ModeOf(init, n') == ModeOf(init, n)
  {
  }

  lemma OwnKeeps(init: seq<Status>, n: Node, act: Action, n': Node)
    requires Players(init) && n.Battle? && NodeOk(init, n) && OwnStep(n, act, n') && Rely(init, n, act)
    ensures NodeOk(init, n') && Guarantee(init, n, act, n')
  {
    match n.pc
    case Reading0 => TakeLeft(init, n, n');
    case Reading1 => FightRound(init, n, n');
    case AwaitOne(_) => if n.b == A { FinalIsOver(init, n, n'); } else { RelayStarts(init, n, n'); }
    case RelayUp(_) => RelaysUp(init, n, act.s, n');
    case RelayDown(_) => RelaysDown(init, n, act.s, n');
    case AwaitLast(_) => BattleFinishes(init, n, n');
    case Finished =>
  }

  // ---------- every step ----------

  /** The move of the child behind a step of its link. */
  ghost predicate Behind(k: Link, act: Action, k': Link, inner: Action) {
    && NodeStep(k.child, inner, k'.child)
    && (|| (inner == act && !act.Sends? && !act.Receives? && k'.up == k.up && k'.down == k.down)
        || (act == Tau && inner.Sends? && k.up == Empty && k'.up == Full(inner.s) && k'.down == k.down)
        || (act == Tau && inner.Receives? && k.down == Full(inner.s) && k'.down == Empty && k'.up == k.up))
  }

  lemma LinkStepBehind(k: Link, act: Action, k': Link) returns (inner: Action)
    requires LinkStep(k, act, k')
    ensures Behind(k, act, k', inner)
  {
    inner := act;
    if act == Tau {
      if NodeStep(k.child, Tau, k'.child) && k'.up == k.up && k'.down == k.down {
      } else if k'.up.Full? && k.up == Empty && NodeStep(k.child, Sends(k'.up.s), k'.child) && k'.down == k.down {
        inner := Sends(k'.up.s);
      } else {
        inner := Receives(k.down.s);
      }
    }
  }

  lemma {:induction false} NodeKeeps(init: seq<Status>, n: Node, act: Action, n': Node)
    requires Players(init) && NodeOk(init, n) && NodeStep(n, act, n') && Rely(init, n, act)
    ensures NodeOk(init, n') && Guarantee(init, n, act, n')
    decreases n, 1
  {
    if n.Player? {
      PlayerKeeps(init, n, act, n');
    } else if OwnStep(n, act, n') {
      OwnKeeps(init, n, act, n');
    } else if n'.Battle? && n' == n.(l := n'.l) && LinkStep(n.l, act, n'.l) {
      LinkStepKeeps(init, n.l, act, n'.l);
      LeftMoves(init, n, n');
    } else {
      LinkStepKeeps(init, n.r, act, n'.r);
      RightMoves(init, n, n');
    }
  }

  lemma {:induction false} LinkStepKeeps(init: seq<Status>, k: Link, act: Action, k': Link)
    requires Players(init) && LinkOk(init, k) && ValidFeed(FeedOf(k.child)) && LinkStep(k, act, k')
    requires act.Pulls? ==> 8 <= act.k <= 14 && act.s == Entrant(init, Slot(act.k))
    ensures LinkOk(init, k') && SameLink(init, k, k')
    ensures act.Pushes? ==> 8 <= act.k <= 14 && act.s == Entrant(init, Slot(act.k))
    decreases k, 0
  {
    var inner := LinkStepBehind(k, act, k');
    NodeKeeps(init, k.child, inner, k'.child);
    LinkKeeps(init, k, act, k', inner);
  }
}
