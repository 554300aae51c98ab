/** The tournament as it runs: a tree of battle and player processes that exchange statuses
    over pipes, and FIFOs through which losers re-enter. */
module Tournament {
  import opened Battle
  import opened Bracket

  datatype Pipe = Empty | Full(s: Status)

  /** `Opening` a FIFO for reading, about to send, awaiting the answer, opening the loser's FIFO
      for writing, exited. */
  datatype PlayerPc = Opening | Sending | Receiving | Reentering(slot: nat) | Exited

  /** Reading from the first and then the second child, waiting for the loser's side to exit,
      relaying for the winner's side up and down, waiting for the last child, exited. */
  datatype BattlePc =
    | Reading0
    | Reading1
    | AwaitOne(remain: int)
    | RelayUp(remain: int)
    | RelayDown(remain: int)
    | AwaitLast(remain: int)
    | Finished

  /** A process with its children; a link is a child with the pipe from it and the pipe to it. */
  datatype Node =
    | Player(slot: nat, p: Status, origin: int, playerPc: PlayerPc)
    | Battle(b: nat, l: Link, r: Link, p0: Status, p1: Status, pc: BattlePc)

  datatype Link = Link(child: Node, up: Pipe, down: Pipe)

  /** What the rest of the system sees of a step: nothing, a write to the parent, a read from
      it, or one end of a FIFO transfer to the re-entry `k`. */
  datatype Action = Tau | Sends(s: Status) | Receives(s: Status) | Pushes(k: nat, s: Status) | Pulls(k: nat, s: Status)

  function FeedOf(n: Node): Feed {
    if n.Player? then Slot(n.slot) else Winner(n.b)
  }

  predicate Gone(n: Node) {
    if n.Player? then n.playerPc == Exited else n.pc == Finished
  }

  // ---------- players ----------

  /** The head of the player's loop, and what follows it once the player is down. */
  function LoopHead(slot: nat, p: Status, origin: int): Node {
    if p.hp > 0 then Player(slot, p, origin, Sending)
    else if slot <= 7 && p.battle != A then Player(slot, Reentered(p, origin), origin, Reentering(Lose(p.battle)))
    else Player(slot, p, origin, Exited)
  }

  function Answered(slot: nat, origin: int, s: Status): Node {
    if s.ended && s.hp > 0 then
      if s.battle == A then Player(slot, s, origin, Exited) else LoopHead(slot, Recovered(s, origin), origin)
    else LoopHead(slot, s, origin)
  }

  ghost predicate PlayerStep(n: Node, act: Action, n': Node)
    requires n.Player?
  {
    match n.playerPc
    case Opening => act.Pulls? && act.k == n.slot && n' == LoopHead(n.slot, act.s, act.s.hp)
    case Sending => act == Sends(n.p) && n' == n.(playerPc := Receiving)
    case Receiving => act.Receives? && n' == Answered(n.slot, n.origin, act.s)
    case Reentering(k) => act == Pushes(k, n.p) && n' == n.(playerPc := Exited)
    case Exited => false
  }

  /** A player's answer to a message: it sends an undecided status back as it came; after a victory
      it goes on with half of the lost points, except after the final; after a defeat in the upper
      bracket it goes to the re-entry of that battle with its first points; and else it exits. */
  lemma PlayerAnswers(n: Node, m: Status, n': Node)
    requires n.Player? && PlayerStep(n, Receives(m), n') && m.hp <= n.origin
    ensures n'.Player? && n'.slot == n.slot && n'.origin == n.origin
    ensures m.hp > 0 && !m.ended ==> n'.playerPc == Sending && n'.p == m
    ensures m.hp > 0 && m.ended && m.battle != A ==>
      && n'.playerPc == Sending && n'.p == m.(hp := n'.p.hp, ended := false)
      && 2 * (n'.p.hp - m.hp) <= n.origin - m.hp <= 2 * (n'.p.hp - m.hp) + 1
    ensures m.hp > 0 && m.ended && m.battle == A ==> n'.playerPc == Exited
    ensures m.hp <= 0 && n.slot <= 7 && m.battle != A ==>
      n'.playerPc == Reentering(Lose(m.battle)) && n'.p == m.(hp := n.origin, ended := false)
    ensures m.hp <= 0 && (n.slot > 7 || m.battle == A) ==> n'.playerPc == Exited
  {
    if m.hp > 0 { RecoveredHalf(m, n.origin); }
  }

  // ---------- battles ----------

  /** The message after which a relay stops: its player is down, or the final is over. */
  predicate Final(s: Status) {
    s.hp <= 0 || (s.ended && s.battle == A)
  }

  /** The child of a link moves; what it exchanges with its parent goes through the pipes. */
  ghost predicate LinkStep(k: Link, act: Action, k': Link) {
    match act
    case Tau =>
      || (NodeStep(k.child, Tau, k'.child) && k'.up == k.up && k'.down == k.down)
      || (k'.up.Full? && k.up == Empty && NodeStep(k.child, Sends(k'.up.s), k'.child) && k'.down == k.down)
      || (k.down.Full? && k'.down == Empty && NodeStep(k.child, Receives(k.down.s), k'.child) && k'.up == k.up)
    case Pushes(_, _) => NodeStep(k.child, act, k'.child) && k'.up == k.up && k'.down == k.down
    case Pulls(_, _) => NodeStep(k.child, act, k'.child) && k'.up == k.up && k'.down == k.down
    case _ => false
  }

  function Winning(n: Node, remain: int): Link
    requires n.Battle?
  {
    if remain == 0 then n.l else n.r
  }

  function WithWinning(n: Node, remain: int, k: Link): (n': Node)
    requires n.Battle?
    ensures n'.Battle?
  {
    if remain == 0 then n.(l := k) else n.(r := k)
  }

  function Held(n: Node, remain: int): Status
    requires n.Battle?
  {
    if remain == 0 then n.p0 else n.p1
  }

  /** `Player[remain] = s` */
  function Hold(n: Node, remain: int, s: Status): (n': Node)
    requires n.Battle?
    ensures n'.Battle?
  {
    if remain == 0 then n.(p0 := s) else n.(p1 := s)
  }

  /** The battle process itself moves. */
  ghost predicate OwnStep(n: Node, act: Action, n': Node)
    requires n.Battle?
  {
    match n.pc
    case Reading0 =>
      act == Tau && n.l.up.Full? && n' == n.(l := n.l.(up := Empty), p0 := n.l.up.s, pc := Reading1)
    case Reading1 =>
      && act == Tau && n.r.up.Full?
      && var d := Round(n.p0, n.r.up.s, n.b, Field(n.b));
         n' == Battle(n.b, n.l.(down := Full(d.p)), n.r.(up := Empty, down := Full(d.q)), d.p, d.q,
                      if d.p.ended then AwaitOne(d.remain) else Reading0)
    case AwaitOne(remain) =>
      act == Tau && (Gone(n.l.child) || Gone(n.r.child)) && n' == n.(pc := if n.b == A then AwaitLast(remain) else RelayUp(remain))
    case RelayUp(remain) =>
      && var k := Winning(n, remain);
         k.up.Full? && act == Sends(k.up.s)
         && n' == Hold(WithWinning(n, remain, k.(up := Empty)), remain, k.up.s).(pc := RelayDown(remain))
    case RelayDown(remain) =>
      && act.Receives?
      && n' == Hold(WithWinning(n, remain, Winning(n, remain).(down := Full(act.s))), remain, act.s)
                 .(pc := if Final(act.s) then AwaitLast(remain) else RelayUp(remain))
    case AwaitLast(_) =>
      act == Tau && Gone(n.l.child) && Gone(n.r.child) && n' == n.(pc := Finished)
    case Finished =>
      false
  }

  ghost predicate NodeStep(n: Node, act: Action, n': Node) {
    if n.Player? then PlayerStep(n, act, n')
    else
      || OwnStep(n, act, n')
      || (n'.Battle? && n' == n.(l := n'.l) && LinkStep(n.l, act, n'.l))
      || (n'.Battle? && n' == n.(r := n'.r) && LinkStep(n.r, act, n'.r))
  }

  /** A step of the whole system: some process moves by itself, or a loser on the left of the
      final and a re-entry on its right meet at a FIFO. */
  ghost predicate Step(n: Node, n': Node) {
    || NodeStep(n, Tau, n')
    || (&& n.Battle? && n'.Battle? && n' == n.(l := n'.l, r := n'.r)
        && exists k, s :: LinkStep(n.l, Pushes(k, s), n'.l) && LinkStep(n.r, Pulls(k, s), n'.r))
  }

  // ---------- what a parent sees of a child ----------

  /** The final has no parent; it counts as pending throughout. */
  datatype Mode = Pending | Offering(v: Status) | Waiting(v: Status) | Done

  /** Where a message that goes through a link is, or the link is closing or closed. */
  datatype LinkMode = LPending | LOffer(v: Status) | LTaken(v: Status) | LClosing | LDone | LBroken

  /** The status that comes back up for a message that is not final. */
  function Respond(init: seq<Status>, m: Status): Status
    requires |init| == 8
  {
    if m.ended && 0 <= m.id < 8 then Recovered(m, init[m.id].hp) else m
  }

  function ModeOf(init: seq<Status>, n: Node): Mode
    requires |init| == 8
  {
    match n
    case Player(_, p, _, pc) =>
      (match pc case Opening => Pending case Sending => Offering(p) case Receiving => Waiting(p) case _ => Done)
    case Battle(b, l, r, p0, p1, pc) =>
      (match pc
       case RelayUp(remain) => (var m := LinkModeOf(init, if remain == 0 then l else r); if m.LOffer? then Offering(m.v) else Pending)
       case RelayDown(remain) => Waiting(if remain == 0 then p0 else p1)
       case AwaitLast(_) => if b == A then Pending else Done
       case Finished => if b == A then Pending else Done
       case _ => Pending)
  }

  function LinkModeOf(init: seq<Status>, k: Link): LinkMode
    requires |init| == 8
  {
    match ModeOf(init, k.child)
    case Pending => if k.up == Empty && k.down == Empty then LPending else LBroken
    case Offering(v) => if k.up == Empty && k.down == Empty then LOffer(v) else LBroken
    case Waiting(v) =>
      if k.up == Empty && k.down == Empty then LTaken(v)
      else if k.down == Empty then (if k.up.s == v then LOffer(v) else LBroken)
      else if k.up == Empty then (if Final(k.down.s) then LClosing else LOffer(Respond(init, k.down.s)))
      else LBroken
    case Done => if k.up == Empty && k.down == Empty then LDone else LBroken
  }
}
