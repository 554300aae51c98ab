/** Every run of the tournament, in any interleaving, comes to an end within a fixed number of
    steps, and there the final has named the champion that the bracket determines. */
module TournamentEnd {
  import opened Battle
  import opened Bracket
  import opened Tournament
  import opened TournamentRuns
  import opened TournamentProgress

  // ---------- the start ----------

  lemma {:induction false} LaunchOk(init: seq<Status>, f: Feed)
    requires Players(init) && ValidFeed(f)
    ensures NodeOk(init, Launch(init, f)) && FeedOf(Launch(init, f)) == f
    ensures ModeOf(init, Launch(init, f)) in {Pending, Offering(Entrant(init, f))}
    decreases FeedRank(f)
  {
    if f.Winner? {
      RankFalls(f.b);
      LaunchOk(init, Left(f.b));
      LaunchOk(init, Right(f.b));
    }
  }

  lemma LaunchBattle(init: seq<Status>, b: nat, k: nat)
    requires Players(init) && b < BATTLES
    ensures var l, r, n := Launch(init, Left(b)), Launch(init, Right(b)), Launch(init, Winner(b));
      && Owed(n, k) == Owed(l, k) + Owed(r, k) + One(Upper(b) && Lose(b) == k)
      && Openings(n, k) == Openings(l, k) + Openings(r, k)
    ensures FeedOf(Launch(init, Left(b))) == Left(b) && FeedOf(Launch(init, Right(b))) == Right(b)
  {
    LaunchOk(init, Left(b));
    LaunchOk(init, Right(b));
  }

  lemma LaunchSlot(init: seq<Status>, n: nat, k: nat)
    requires Players(init) && n <= 14
    ensures Owed(Launch(init, Slot(n)), k) == 0 && Openings(Launch(init, Slot(n)), k) == One(n >= 8 && n == k)
  {
  }

  /** Owed and open below one side of a battle, at the start. */
  ghost predicate Starts(init: seq<Status>, f: Feed, k: nat, owed: nat, open: nat)
    requires Players(init) && ValidFeed(f)
  {
    Owed(Launch(init, f), k) == owed && Openings(Launch(init, f), k) == open
  }

  lemma StartsBattle(init: seq<Status>, b: nat, k: nat, lo: nat, lw: nat, ro: nat, rw: nat)
    requires Players(init) && b < BATTLES && Starts(init, Left(b), k, lo, lw) && Starts(init, Right(b), k, ro, rw)
    ensures Starts(init, Winner(b), k, lo + ro + One(Upper(b) && Lose(b) == k), lw + rw)
  {
    LaunchBattle(init, b, k);
  }

  lemma StartsSlot(init: seq<Status>, n: nat, k: nat)
    requires Players(init) && n <= 14
    ensures Starts(init, Slot(n), k, 0, One(n >= 8 && n == k))
  {
    LaunchSlot(init, n, k);
  }

  /** The upper bracket will send one loser to each re-entry. */
  lemma UpperStarts(init: seq<Status>, k: nat)
    requires Players(init)
    ensures Starts(init, Winner(1), k, One(k == 8) + One(k == 9) + One(k == 10) + One(k == 11) + One(k == 12) + One(k == 13) + One(k == 14), 0)
  {
    forall n: nat | n <= 7 ensures Starts(init, Slot(n), k, 0, 0) { StartsSlot(init, n, k); }
    StartsBattle(init, 6, k, 0, 0, 0, 0);
    StartsBattle(init, 7, k, 0, 0, 0, 0);
    StartsBattle(init, 8, k, 0, 0, 0, 0);
    StartsBattle(init, 9, k, 0, 0, 0, 0);
    StartsBattle(init, 3, k, One(k == 8), 0, One(k == 11), 0);
    StartsBattle(init, 4, k, One(k == 9), 0, One(k == 12), 0);
    StartsBattle(init, 1, k, One(k == 8) + One(k == 11) + One(k == 10), 0, One(k == 9) + One(k == 12) + One(k == 13), 0);
  }

  lemma LowerQuarters(init: seq<Status>, k: nat)
    requires Players(init)
    ensures Starts(init, Winner(10), k, 0, One(k == 8) + One(k == 9) + One(k == 10))
    ensures Starts(init, Winner(11), k, 0, One(k == 11) + One(k == 12) + One(k == 13))
  {
    StartsSlot(init, 8, k);
    StartsSlot(init, 9, k);
    StartsSlot(init, 10, k);
    StartsSlot(init, 11, k);
    StartsSlot(init, 12, k);
    StartsSlot(init, 13, k);
    StartsBattle(init, 12, k, 0, One(k == 8), 0, One(k == 9));
    StartsBattle(init, 13, k, 0, One(k == 11), 0, One(k == 12));
    StartsBattle(init, 10, k, 0, One(k == 8) + One(k == 9), 0, One(k == 10));
    StartsBattle(init, 11, k, 0, One(k == 11) + One(k == 12), 0, One(k == 13));
  }

  /** And the lower bracket has one process waiting for each. */
  lemma LowerStarts(init: seq<Status>, k: nat)
    requires Players(init)
    ensures Starts(init, Winner(2), k, 0, One(k == 8) + One(k == 9) + One(k == 10) + One(k == 11) + One(k == 12) + One(k == 13) + One(k == 14))
  {
    LowerQuarters(init, k);
    StartsSlot(init, 14, k);
    StartsBattle(init, 5, k, 0, One(k == 8) + One(k == 9) + One(k == 10), 0, One(k == 11) + One(k == 12) + One(k == 13));
    StartsBattle(init, 2, k, 0, One(k == 8) + One(k == 9) + One(k == 10) + One(k == 11) + One(k == 12) + One(k == 13), 0, One(k == 14));
  }

  lemma RootStarts(init: seq<Status>, root: Feed, k: nat)
    requires Players(init) && root == Winner(A)
    ensures Starts(init, root, k, One(8 <= k <= 14), One(8 <= k <= 14))
  {
    UpperStarts(init, k);
    LowerStarts(init, k);
    StartsBattle(init, root.b, k, One(8 <= k <= 14), 0, 0, One(8 <= k <= 14));
  }

  lemma LaunchSystem(init: seq<Status>, root: Feed, start: Node)
    requires Players(init) && root == Winner(A) && start == Launch(init, root)
    ensures SystemOk(init, start)
    ensures forall k: nat :: Owed(start, k) == Openings(start, k) == One(8 <= k <= 14)
  {
    LaunchOk(init, root);
    forall k: nat ensures Owed(start, k) == Openings(start, k) == One(8 <= k <= 14) {
      RootStarts(init, root, k);
    }
  }

  // ---------- how much can still happen ----------

  function Height(f: Feed): nat {
    match f
    case Slot(_) => 0
    case Winner(b) =>
      (match b
       case 6 => 1 case 7 => 1 case 8 => 1 case 9 => 1 case 12 => 1 case 13 => 1
       case 3 => 2 case 4 => 2 case 10 => 2 case 11 => 2
       case 1 => 3 case 5 => 3 case 2 => 4 case _ => 5)
  }

  lemma HeightBelow(b: nat)
    requires b < BATTLES
    ensures Height(Left(b)) < Height(Winner(b)) <= 5 && Height(Right(b)) < Height(Winner(b))
  {
  }

  /** What a message on its way down to this side can still cost. */
  function Toll(f: Feed): nat {
    2 * Height(f) + 3
  }

  const ROUND: nat := 40

  ghost function RoundsLeft(b: nat, x: Status, y: Status): nat {
    if Fit(x) && Fit(y) then Rounds(x, y, b, Field(b)) else 0
  }

  function PcEffort(pc: BattlePc): nat {
    match pc case AwaitOne(_) => 3 case RelayUp(_) => 1 case AwaitLast(_) => 1 case _ => 0
  }

  /** The battle process's own share: where it is, and its rounds still to come. */
  ghost function OwnEffort(init: seq<Status>, n: Node): nat
    requires Players(init) && n.Battle? && NodeOk(init, n)
  {
    PcEffort(n.pc)
    + match n.pc
      case Reading0 => ROUND * RoundsLeft(n.b, Content(init, n.l), Content(init, n.r))
      case Reading1 => ROUND * RoundsLeft(n.b, n.p0, Content(init, n.r))
      case _ => 0
  }

  /** A bound on the steps below a node. */
  ghost function Effort(init: seq<Status>, n: Node): nat
    requires Players(init) && NodeOk(init, n)
  {
    match n
    case Player(_, _, _, pc) =>
      (match pc case Opening => 3 case Sending => 2 case Reentering(_) => 1 case _ => 0)
    case Battle(_, l, r, _, _, _) =>
      LinkEffort(init, l) + LinkEffort(init, r) + OwnEffort(init, n)
  }

  ghost function LinkEffort(init: seq<Status>, k: Link): nat
    requires Players(init) && LinkOk(init, k)
  {
    Effort(init, k.child) + (if k.up.Full? then 1 else 0) + (if k.down.Full? then Toll(FeedOf(k.child)) else 0)
  }

  /** A step lowers the effort, by two when it puts a message up, and after paying the toll of a
      message that came down. */
  ghost predicate Cheaper(init: seq<Status>, n: Node, act: Action, n': Node)
    requires Players(init) && NodeOk(init, n) && NodeOk(init, n')
  {
    Effort(init, n') + (if act.Sends? then 1 else 0) < Effort(init, n) + (if act.Receives? then Toll(FeedOf(n)) else 0)
  }

  lemma PlayerMovesOn(n: Node, act: Action, n': Node)
    requires n.Player? && PlayerStep(n, act, n')
    ensures n'.Player? && (act.Sends? ==> n'.playerPc == Receiving)
    ensures n'.playerPc != Opening && (n.playerPc == Sending ==> act.Sends?) && (n.playerPc.Reentering? ==> n'.playerPc == Exited)
    ensures act.Receives? <==> n.playerPc == Receiving
  {
  }

  lemma PlayerCheaper(init: seq<Status>, n: Node, act: Action, n': Node)
    requires Players(init) && n.Player? && NodeOk(init, n) && NodeOk(init, n') && PlayerStep(n, act, n')
    ensures Cheaper(init, n, act, n')
  {
    PlayerMovesOn(n, act, n');
  }

  lemma RoundCheaper(init: seq<Status>, b: nat, x: Status, y: Status)
    requires Players(init) && b < BATTLES && Contest(init, b, x, y)
    ensures var d := Round(x, y, b, Field(b));
      RoundsLeft(b, x, y) == if d.remain == -1 then 1 + RoundsLeft(b, d.p, d.q) else 1
  {
    RoundOk(init, b, x, y);
  }

  lemma LinkPays(init: seq<Status>, k: Link, k': Link)
    requires Players(init) && LinkOk(init, k) && LinkOk(init, k') && k'.child == k.child
    ensures LinkEffort(init, k') + (if k.up.Full? then 1 else 0) + (if k.down.Full? then Toll(FeedOf(k.child)) else 0)
         == LinkEffort(init, k) + (if k'.up.Full? then 1 else 0) + (if k'.down.Full? then Toll(FeedOf(k.child)) else 0)
  {
  }

  /** A status sent down to a child that waits for it, and that is not final, comes back up. */
  lemma SentDown(init: seq<Status>, k: Link, m: Status)
    requires Players(init) && ValidFeed(FeedOf(k.child)) && ModeOf(init, k.child).Waiting?
    requires k.up == Empty && k.down == Full(m) && !Final(m) && Respond(init, m) == m
    ensures Content(init, k) == m
  {
  }

  lemma FightPartners(init: seq<Status>, n: Node)
    requires Players(init) && n.Battle? && NodeOk(init, n) && n.pc == Reading1 && n.r.up.Full?
    ensures ModeOf(init, n.l.child).Waiting? && n.l.up == Empty && ModeOf(init, n.r.child).Waiting?
  {
  }

  /** An undecided round leaves the same contest, one round shorter. */
  lemma RoundGoesOn(init: seq<Status>, n: Node, n': Node, d: Duel)
    requires Players(init) && n.Battle? && NodeOk(init, n) && n.pc == Reading1 && OwnStep(n, Tau, n')
    requires n.r.up.Full? && d == Round(n.p0, n.r.up.s, n.b, Field(n.b)) && d.remain == -1
    ensures ValidFeed(FeedOf(n'.l.child)) && ValidFeed(FeedOf(n'.r.child))
    ensures n'.pc == Reading0 && Content(init, n'.l) == d.p && Content(init, n'.r) == d.q
  {
    FightPipes(init, n);
    FightPartners(init, n);
    RoundOk(init, n.b, n.p0, n.r.up.s);
    GoingOnOk(init, Left(n.b), d.p);
    GoingOnOk(init, Right(n.b), d.q);
    SentDown(init, n'.l, d.p);
    SentDown(init, n'.r, d.q);
  }

  lemma FightOwnEffort(init: seq<Status>, n: Node, n': Node)
    requires Players(init) && n.Battle? && NodeOk(init, n) && NodeOk(init, n') && n.pc == Reading1 && OwnStep(n, Tau, n')
    ensures OwnEffort(init, n') + ROUND <= OwnEffort(init, n) + 3
  {
    var y := n.r.up.s;
    assert Content(init, n.r) == y;
    RoundCheaper(init, n.b, n.p0, y);
    var d := Round(n.p0, y, n.b, Field(n.b));
    if d.remain == -1 {
      RoundGoesOn(init, n, n', d);
    } else {
      RoundOk(init, n.b, n.p0, y);
      FinishOk(init, n.b);
    }
  }

  lemma FightCheaper(init: seq<Status>, n: Node, n': Node)
    requires Players(init) && n.Battle? && NodeOk(init, n) && NodeOk(init, n') && n.pc == Reading1 && OwnStep(n, Tau, n')
    ensures Cheaper(init, n, Tau, n')
  {
    FightPipes(init, n);
    FightOwnEffort(init, n, n');
    HeightBelow(n.b);
    LinkPays(init, n.l, n'.l);
    LinkPays(init, n.r, n'.r);
  }

  lemma TakeCheaper(init: seq<Status>, n: Node, n': Node)
    requires Players(init) && n.Battle? && NodeOk(init, n) && NodeOk(init, n') && n.pc == Reading0 && OwnStep(n, Tau, n')
    ensures Cheaper(init, n, Tau, n')
  {
    TakenUp(init, n.l);
  }

  lemma RelayUpCheaper(init: seq<Status>, n: Node, s: Status, n': Node)
    requires Players(init) && n.Battle? && NodeOk(init, n) && NodeOk(init, n') && n.pc.RelayUp? && OwnStep(n, Sends(s), n')
    ensures Cheaper(init, n, Sends(s), n')
  {
  }

  lemma TollBelow(b: nat, f: Feed)
    requires b < BATTLES && f in {Left(b), Right(b)}
    ensures Toll(f) + 2 <= Toll(Winner(b))
  {
    HeightBelow(b);
  }

  lemma RelayDownPipes(init: seq<Status>, n: Node)
    requires Players(init) && n.Battle? && NodeOk(init, n) && n.pc.RelayDown?
    ensures Winning(n, n.pc.remain).down == Empty && n.pc.remain in {0, 1}
    ensures Toll(FeedOf(Winning(n, n.pc.remain).child)) + 2 <= Toll(FeedOf(n))
  {
    TollBelow(n.b, FeedOf(Winning(n, n.pc.remain).child));
  }

  lemma RelayDownCheaper(init: seq<Status>, n: Node, m: Status, n': Node)
    requires Players(init) && n.Battle? && NodeOk(init, n) && NodeOk(init, n') && n.pc.RelayDown? && OwnStep(n, Receives(m), n')
    ensures Cheaper(init, n, Receives(m), n')
  {
    RelayDownPipes(init, n);
    var w := Winning(n, n.pc.remain);
    LinkPays(init, w, w.(down := Full(m)));
  }

  lemma WaitCheaper(init: seq<Status>, n: Node, n': Node)
    requires Players(init) && n.Battle? && NodeOk(init, n) && NodeOk(init, n') && OwnStep(n, Tau, n')
    requires n.pc.AwaitOne? || n.pc.AwaitLast?
    ensures Cheaper(init, n, Tau, n')
  {
  }

  lemma {:induction false} NodeCheaper(init: seq<Status>, n: Node, act: Action, n': Node)
    requires Players(init) && NodeOk(init, n) && NodeOk(init, n') && NodeStep(n, act, n') && Rely(init, n, act)
    ensures Cheaper(init, n, act, n')
    decreases n, 1
  {
    if n.Player? {
      PlayerCheaper(init, n, act, n');
    } else if OwnStep(n, act, n') {
      match n.pc
      case Reading0 => TakeCheaper(init, n, n');
      case Reading1 => FightCheaper(init, n, n');
      case RelayUp(_) => RelayUpCheaper(init, n, act.s, n');
      case RelayDown(_) => RelayDownCheaper(init, n, act.s, n');
      case _ => WaitCheaper(init, n, n');
    } else if n'.Battle? && n' == n.(l := n'.l) && LinkStep(n.l, act, n'.l) {
      LinkCheaper(init, n.l, act, n'.l);
      SameContents(init, n, n');
    } else {
      LinkCheaper(init, n.r, act, n'.r);
      SameContents(init, n, n');
    }
  }

  lemma SameContent(init: seq<Status>, k: Link, k': Link)
    requires Players(init) && ValidFeed(FeedOf(k.child)) && SameLink(init, k, k') && Open(LinkModeOf(init, k))
    ensures Content(init, k') == Content(init, k)
  {
  }

  /** A child's move leaves its battle's contest where it was. */
  lemma SameContents(init: seq<Status>, n: Node, n': Node)
    requires Players(init) && n.Battle? && n'.Battle? && NodeOk(init, n) && NodeOk(init, n')
    requires n' == n.(l := n'.l, r := n'.r) && SameLink(init, n.l, n'.l) && SameLink(init, n.r, n'.r)
    ensures OwnEffort(init, n') == OwnEffort(init, n)
  {
    if n.pc == Reading0 { SameContent(init, n.l, n'.l); }
    if n.pc == Reading0 || n.pc == Reading1 { SameContent(init, n.r, n'.r); }
  }

  lemma {:induction false} LinkCheaper(init: seq<Status>, k: Link, act: Action, k': Link)
    requires Players(init) && LinkOk(init, k) && LinkOk(init, k') && ValidFeed(FeedOf(k.child)) && LinkStep(k, act, k')
    requires act.Pulls? ==> 8 <= act.k <= 14 && act.s == Entrant(init, Slot(act.k))
    ensures LinkEffort(init, k') < LinkEffort(init, k) && SameLink(init, k, k')
    decreases k, 0
  {
    var inner := LinkStepBehind(k, act, k');
    NodeCheaper(init, k.child, inner, k'.child);
    NodeKeeps(init, k.child, inner, k'.child);
    LinkStepKeeps(init, k, act, k');
  }

  lemma StepCheaper(init: seq<Status>, n: Node, n': Node)
    requires Players(init) && SystemOk(init, n) && Step(n, n') && SystemOk(init, n')
    ensures Effort(init, n') < Effort(init, n)
  {
    if NodeStep(n, Tau, n') {
      NodeCheaper(init, n, Tau, n');
    } else {
      var k, s :| LinkStep(n.l, Pushes(k, s), n'.l) && LinkStep(n.r, Pulls(k, s), n'.r);
      LinkStepKeeps(init, n.l, Pushes(k, s), n'.l);
      LinkCheaper(init, n.l, Pushes(k, s), n'.l);
      LinkCheaper(init, n.r, Pulls(k, s), n'.r);
      SameContents(init, n, n');
    }
  }

  // ---------- whole runs ----------

  /** n is reached from the start in t steps of any processes. */
  ghost predicate Reached(start: Node, t: nat, n: Node) {
    if t == 0 then n == start
    else exists m :: Reached(start, t - 1, m) && Step(m, n)
  }

  lemma ReachedNext(start: Node, t: nat, n: Node, n': Node)
    requires Reached(start, t, n) && Step(n, n')
    ensures Reached(start, t + 1, n')
  {
  }

  lemma StepOk(init: seq<Status>, n: Node, n': Node)
    requires Players(init) && SystemOk(init, n) && Step(n, n')
    ensures SystemOk(init, n') && Effort(init, n') < Effort(init, n)
  {
    StepKeeps(init, n, n');
    StepCheaper(init, n, n');
  }

  lemma {:induction false} ReachedOk(init: seq<Status>, start: Node, t: nat, n: Node)
    requires Players(init) && SystemOk(init, start) && Reached(start, t, n)
    ensures SystemOk(init, n) && t + Effort(init, n) <= Effort(init, start)
  {
    if t > 0 {
      var m :| Reached(start, t - 1, m) && Step(m, n);
      ReachedOk(init, start, t - 1, m);
      StepOk(init, m, n);
    }
  }

  /** For all players and every interleaving: until the final process exits some process can
      move, no run is longer than a bound fixed at the start, once the final is fought the status
      it prints is that of the bracket's champion, and in the end the loser that each of the seven
      re-entries was owed has got there. */
  lemma EveryRunEnds(init: seq<Status>, root: Feed, start: Node, t: nat, n: Node)
    requires Players(init) && root == Winner(A) && start == Launch(init, root)
    requires Reached(start, t, n)
    ensures NodeOk(init, start) && t <= Effort(init, start)
    ensures n.Battle? && n.b == A
    ensures n.pc == Finished || exists n' :: Step(n, n')
    ensures n.pc.AwaitOne? || n.pc.AwaitLast? ==> Held(n, n.pc.remain) == WinnerOf(Result(init, n.b))
    ensures forall k | 8 <= k <= 14 :: Openings(start, k) == Owed(start, k) == 1
    ensures n.pc == Finished ==> forall k | 8 <= k <= 14 :: Openings(n, k) == Owed(n, k) == 0
  {
    LaunchSystem(init, root, start);
    ReachedOk(init, start, t, n);
    if n.pc != Finished {
      NeverStuck(init, n);
    } else {
      forall k | 8 <= k <= 14 ensures Openings(n, k) == Owed(n, k) == 0 {
        AllServed(init, n, k);
      }
    }
  }

  /** No run from the start is longer than `bound`, and each goes on until the final is over. */
  ghost predicate Ends(start: Node, bound: nat) {
    forall t: nat, n | Reached(start, t, n) :: t <= bound && n.Battle? && (n.pc == Finished || exists m :: Step(n, m))
  }

  lemma RunGoesOn(start: Node, t: nat, n: Node, bound: nat) returns (m: Node)
    requires Reached(start, t, n) && Ends(start, bound)
    ensures n.Battle? && t <= bound
    ensures n.pc != Finished ==> Reached(start, t + 1, m) && t < bound
  {
    m := n;
    if n.pc != Finished {
      m :| Step(n, m);
      ReachedNext(start, t, n, m);
    }
  }

  lemma {:induction false} RunFinishes(start: Node, t: nat, n: Node, bound: nat) returns (t': nat, n': Node)
    requires Reached(start, t, n) && Ends(start, bound)
    ensures t <= t' <= bound && Reached(start, t', n') && n'.Battle? && n'.pc == Finished
    decreases bound - t
  {
    var m := RunGoesOn(start, t, n, bound);
    t', n' := t, n;
    if n.pc != Finished {
      t', n' := RunFinishes(start, t + 1, m, bound);
    }
  }

  lemma LaunchEnds(init: seq<Status>, root: Feed, start: Node) returns (bound: nat)
    requires Players(init) && root == Winner(A) && start == Launch(init, root)
    ensures Ends(start, bound)
  {
    LaunchSystem(init, root, start);
    bound := Effort(init, start);
    forall t: nat, n | Reached(start, t, n)
      ensures t <= bound && n.Battle? && (n.pc == Finished || exists m :: Step(n, m))
    {
      EveryRunEnds(init, root, start, t, n);
    }
  }

  /** Whatever has happened so far, the tournament can be played to its end. */
  lemma TournamentFinishes(init: seq<Status>, root: Feed, start: Node, t: nat, n: Node) returns (t': nat, n': Node)
    requires Players(init) && root == Winner(A) && start == Launch(init, root) && Reached(start, t, n)
    ensures t <= t' && Reached(start, t', n') && n'.Battle? && n'.pc == Finished
  {
    var bound := LaunchEnds(init, root, start);
    t', n' := RunFinishes(start, t, n, bound);
  }
}
