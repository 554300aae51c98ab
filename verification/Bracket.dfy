/** The double-elimination bracket: its tables, the one outcome it has for given players, and
    who loses how often. Battles 'A'..'N' are 0..13; players 0..7 start, 8..14 are re-entries. */
module Bracket {
  import opened Bags
  import opened Battle

  const BATTLES: nat := 14
  const A: nat := 0

  /** What sits on one side of a battle: the winner of another battle, or a player process. */
  datatype Feed = Winner(b: nat) | Slot(n: nat)

  /** `left`, by battle. */
  function Left(b: nat): (f: Feed)
    requires b < BATTLES
    ensures ValidFeed(f) && f != Winner(A)
  {
    match b
    case 0 => Winner(1) case 1 => Winner(3) case 2 => Winner(5) case 3 => Winner(6)
    case 4 => Winner(8) case 5 => Winner(10) case 6 => Slot(0) case 7 => Slot(2)
    case 8 => Slot(4) case 9 => Slot(6) case 10 => Winner(12) case 11 => Winner(13)
    case 12 => Slot(8) case _ => Slot(11)
  }

  /** `right`, by battle. */
  function Right(b: nat): (f: Feed)
    requires b < BATTLES
    ensures ValidFeed(f) && f != Winner(A)
  {
    match b
    case 0 => Winner(2) case 1 => Winner(4) case 2 => Slot(14) case 3 => Winner(7)
    case 4 => Winner(9) case 5 => Winner(11) case 6 => Slot(1) case 7 => Slot(3)
    case 8 => Slot(5) case 9 => Slot(7) case 10 => Slot(10) case 11 => Slot(13)
    case 12 => Slot(9) case _ => Slot(12)
  }

  /** `ATTR`, by battle. */
  function Field(b: nat): Attribute {
    match b
    case 0 => FIRE case 1 => GRASS case 2 => WATER case 3 => WATER case 4 => FIRE case 5 => FIRE case 6 => FIRE
    case 7 => GRASS case 8 => WATER case 9 => GRASS case 10 => GRASS case 11 => GRASS case 12 => FIRE case _ => WATER
  }

  /** `lose`: where the loser of a battle re-enters; 0 fills the battles nobody re-enters from. */
  function Lose(b: nat): nat {
    match b
    case 1 => 14 case 3 => 10 case 4 => 13 case 6 => 8 case 7 => 11 case 8 => 9 case 9 => 12 case _ => 0
  }

  /** The battles whose players have not lost before. */
  predicate Upper(b: nat) {
    b in {1, 3, 4, 6, 7, 8, 9}
  }

  /** The bracket seen from below: `papa` names the battle that the winner of a battle goes to. */
  lemma BattleParents(b: nat, c: nat)
    requires b < BATTLES && 0 < c < BATTLES
    ensures Left(b) == Winner(c) || Right(b) == Winner(c) <==> "0AABBCDDEEFFKL"[c] as int - 'A' as int == b
  {
  }

  /** And the one that a player process goes to. */
  lemma PlayerParents(b: nat, n: nat)
    requires b < BATTLES && n <= 14
    ensures Left(b) == Slot(n) || Right(b) == Slot(n) <==> "GGHHIIJJMMKNNLC"[n] as int - 'A' as int == b
  {
  }

  /** Of two battles or two players the lower number sits left, and a battle sits left of a player. */
  lemma Seats(b: nat)
    requires b < BATTLES
    ensures Left(b).Winner? && Right(b).Winner? ==> Left(b).b < Right(b).b
    ensures Left(b).Slot? ==> Right(b).Slot? && Left(b).n < Right(b).n
  {
  }

  /** `ATTR` and `lose` as numbers; where nobody re-enters, `lose` is 0. */
  lemma Tables(b: nat)
    requires b < BATTLES
    ensures Field(b) == [FIRE, GRASS, WATER][[0, 1, 2, 2, 0, 0, 0, 1, 2, 1, 1, 1, 0, 2][b]]
    ensures Lose(b) == if b < 10 then [0, 14, 0, 10, 13, 0, 8, 11, 9, 12][b] else 0
    ensures Upper(b) <==> Lose(b) != 0
  {
  }

  /** The battle whose loser becomes the re-entry `n`. */
  function Origin(n: nat): nat
    requires 8 <= n <= 14
  {
    match n case 8 => 6 case 9 => 8 case 10 => 3 case 11 => 7 case 12 => 9 case 13 => 4 case _ => 1
  }

  /** Re-entry slots and upper battles correspond one to one, and no filler is ever used. */
  lemma SlotsAndOrigins()
    ensures forall n | 8 <= n <= 14 :: Upper(Origin(n)) && Lose(Origin(n)) == n
    ensures forall b: nat | b < BATTLES && Upper(b) :: 8 <= Lose(b) <= 14 && Origin(Lose(b)) == b
  {
  }

  /** A battle comes after those that feed it. */
  function Rank(b: nat): nat {
    match b
    case 6 => 0 case 7 => 0 case 8 => 0 case 9 => 0
    case 3 => 1 case 4 => 1 case 12 => 1 case 13 => 1
    case 1 => 2 case 10 => 2 case 11 => 2
    case 5 => 3 case 2 => 4 case _ => 5
  }

  predicate ValidFeed(f: Feed) {
    match f case Winner(b) => b < BATTLES case Slot(n) => n <= 14
  }

  function FeedRank(f: Feed): nat
    requires ValidFeed(f)
  {
    match f case Winner(b) => 2 * Rank(b) + 2 case Slot(n) => if n <= 7 then 0 else 2 * Rank(Origin(n)) + 2
  }

  lemma RankFalls(b: nat)
    requires b < BATTLES
    ensures FeedRank(Left(b)) < 2 * Rank(b) + 1 && FeedRank(Right(b)) < 2 * Rank(b) + 1
  {
  }

  /** The eight players as read from the status file. */
  ghost predicate Players(init: seq<Status>) {
    |init| == 8 && forall i | 0 <= i < 8 :: init[i].id == i && Fit(init[i])
  }

  function WinnerOf(d: Duel): Status {
    if d.remain == 0 then d.p else d.q
  }

  function LoserOf(d: Duel): Status {
    if d.remain == 0 then d.q else d.p
  }

  // ---------- the outcome ----------

  /** A status that a player of this tournament can bring into a battle. */
  ghost predicate InGame(init: seq<Status>, s: Status)
    requires Players(init)
  {
    0 <= s.id < 8 && Ready(s, init[s.id].hp)
  }

  /** A finished battle: one side is down, the other still has points, and both know. */
  ghost predicate Settled(init: seq<Status>, b: nat, d: Duel)
    requires Players(init)
  {
    && d.remain in {0, 1} && d.p.ended && d.q.ended && d.p.battle == d.q.battle == b
    && 0 <= d.p.id < 8 && 0 <= d.q.id < 8 && d.p.atk > 0 && d.q.atk > 0
    && 0 < WinnerOf(d).hp <= init[WinnerOf(d).id].hp && LoserOf(d).hp <= 0
  }

  lemma Settles(init: seq<Status>, p: Status, q: Status, b: nat)
    requires Players(init) && InGame(init, p) && InGame(init, q)
    ensures Settled(init, b, Fought(p, q, b, Field(b)))
  {
    BattleEnds(p, q, b, Field(b));
  }

  /** The status with which a side first enters its battle. */
  ghost function Entrant(init: seq<Status>, f: Feed): (s: Status)
    requires Players(init) && ValidFeed(f)
    ensures InGame(init, s)
    decreases FeedRank(f)
  {
    match f
    case Winner(b) =>
      var s := WinnerOf(Result(init, b));
      Recovered(s, init[s.id].hp)
    case Slot(n) =>
      if n <= 7 then init[n]
      else
        var s := LoserOf(Result(init, Origin(n)));
        Reentered(s, init[s.id].hp)
  }

  ghost function Result(init: seq<Status>, b: nat): (d: Duel)
    requires Players(init) && b < BATTLES
    ensures Settled(init, b, d)
    decreases 2 * Rank(b) + 1
  {
    RankFalls(b);
    var p, q := Entrant(init, Left(b)), Entrant(init, Right(b));
    Settles(init, p, q, b);
    Fought(p, q, b, Field(b))
  }

  /** With what a side enters: a player as in the status file, a re-entry with the points its player
      began with, a winner with half of what it has lost so far. */
  lemma EntersWith(init: seq<Status>, f: Feed)
    requires Players(init) && ValidFeed(f)
    ensures var e := Entrant(init, f);
      && (f.Slot? && f.n <= 7 ==> e == init[f.n])
      && (f.Slot? && f.n > 7 ==>
            var s := LoserOf(Result(init, Origin(f.n)));
            e == s.(hp := init[s.id].hp, ended := false))
      && (f.Winner? ==>
            var s := WinnerOf(Result(init, f.b));
            && e == s.(hp := e.hp, ended := false)
            && 2 * (e.hp - s.hp) <= init[s.id].hp - s.hp <= 2 * (e.hp - s.hp) + 1)
  {
    if f.Winner? {
      var s := WinnerOf(Result(init, f.b));
      RecoveredHalf(s, init[s.id].hp);
    }
  }

  /** Whoever it is, it fights with its own attack value and attribute. */
  lemma {:induction false} EntersAsItself(init: seq<Status>, f: Feed)
    requires Players(init) && ValidFeed(f)
    ensures var e := Entrant(init, f); e.atk == init[e.id].atk && e.attr == init[e.id].attr
    decreases FeedRank(f)
  {
    match f
    case Winner(b) => FightsAsItself(init, b);
    case Slot(n) => if n > 7 { FightsAsItself(init, Origin(n)); }
  }

  lemma {:induction false} FightsAsItself(init: seq<Status>, b: nat)
    requires Players(init) && b < BATTLES
    ensures var d := Result(init, b);
      d.p.atk == init[d.p.id].atk && d.p.attr == init[d.p.id].attr && d.q.atk == init[d.q.id].atk && d.q.attr == init[d.q.id].attr
    decreases 2 * Rank(b) + 1
  {
    RankFalls(b);
    EntersAsItself(init, Left(b));
    EntersAsItself(init, Right(b));
    BattleEnds(Entrant(init, Left(b)), Entrant(init, Right(b)), b, Field(b));
  }

  // ---------- who loses how often ----------

  /** The id on one side of a battle, given who wins and who loses the others. */
  function Side(won: seq<int>, lost: seq<int>, f: Feed): int
    requires ValidFeed(f) && |won| == |lost| == BATTLES
  {
    match f case Winner(b) => won[b] case Slot(n) => if n <= 7 then n else lost[Origin(n)]
  }

  function One(c: bool): nat {
    if c then 1 else 0
  }

  /** Every battle splits its two sides into a winner and a loser. */
  ghost predicate Played(won: seq<int>, lost: seq<int>) {
    && |won| == |lost| == BATTLES
    && (forall b: nat | b < BATTLES :: 0 <= won[b] < 8 && 0 <= lost[b] < 8)
    && forall b: nat | b < BATTLES ::
         || (won[b] == Side(won, lost, Left(b)) && lost[b] == Side(won, lost, Right(b)))
         || (won[b] == Side(won, lost, Right(b)) && lost[b] == Side(won, lost, Left(b)))
  }

  lemma SidesPart(won: seq<int>, lost: seq<int>, b: nat, i: int)
    requires Played(won, lost) && b < BATTLES
    ensures One(won[b] == i) + One(lost[b] == i) == One(Side(won, lost, Left(b)) == i) + One(Side(won, lost, Right(b)) == i)
  {
  }

  /** Everyone in the upper bracket loses there once, except the winner of battle B. */
  lemma UpperLosses(won: seq<int>, lost: seq<int>, i: int)
    requires Played(won, lost) && 0 <= i < 8
    ensures One(lost[1] == i) + One(lost[3] == i) + One(lost[4] == i) + One(lost[6] == i)
          + One(lost[7] == i) + One(lost[8] == i) + One(lost[9] == i) == 1 - One(won[1] == i)
  {
    SidesPart(won, lost, 1, i);
    SidesPart(won, lost, 3, i);
    SidesPart(won, lost, 4, i);
    SidesPart(won, lost, 6, i);
    SidesPart(won, lost, 7, i);
    SidesPart(won, lost, 8, i);
    SidesPart(won, lost, 9, i);
  }

  /** And everyone who lost there loses again below, except the winner of battle C. */
  lemma LowerLosses(won: seq<int>, lost: seq<int>, i: int)
    requires Played(won, lost) && 0 <= i < 8
    ensures One(lost[2] == i) + One(lost[5] == i) + One(lost[10] == i) + One(lost[11] == i)
          + One(lost[12] == i) + One(lost[13] == i) == 1 - One(won[1] == i) - One(won[2] == i)
  {
    UpperLosses(won, lost, i);
    SidesPart(won, lost, 2, i);
    SidesPart(won, lost, 5, i);
    SidesPart(won, lost, 10, i);
    SidesPart(won, lost, 11, i);
    SidesPart(won, lost, 12, i);
    SidesPart(won, lost, 13, i);
  }

  /** Everyone loses twice, less one for the winner of battle B and less one for the champion. */
  lemma LossCount(won: seq<int>, lost: seq<int>, i: int)
    requires Played(won, lost) && 0 <= i < 8
    ensures Count(lost, i) == 2 - One(won[1] == i) - One(won[A] == i)
  {
    UpperLosses(won, lost, i);
    LowerLosses(won, lost, i);
    SidesPart(won, lost, A, i);
    CountFourteen(lost, i);
  }

  lemma CountFourteen(s: seq<int>, i: int)
    requires |s| == BATTLES
    ensures Count(s, i) == One(s[0] == i) + One(s[1] == i) + One(s[2] == i) + One(s[3] == i) + One(s[4] == i)
          + One(s[5] == i) + One(s[6] == i) + One(s[7] == i) + One(s[8] == i) + One(s[9] == i) + One(s[10] == i)
          + One(s[11] == i) + One(s[12] == i) + One(s[13] == i)
  {
    assert s == s[..5] + (s[5..10] + s[10..]);
    CountAppend(s[..5], s[5..10] + s[10..], i);
    CountAppend(s[5..10], s[10..], i);
    CountFive(s[..5], i);
    CountFive(s[5..10], i);
    CountFive(s[10..] + [i], i);
    CountAppend(s[10..], [i], i);
  }

  lemma CountFive(s: seq<int>, i: int)
    requires |s| == 5
    ensures Count(s, i) == One(s[0] == i) + One(s[1] == i) + One(s[2] == i) + One(s[3] == i) + One(s[4] == i)
  {
    assert s == [s[0]] + ([s[1]] + ([s[2]] + ([s[3]] + [s[4]])));
    CountAppend([s[0]], [s[1]] + ([s[2]] + ([s[3]] + [s[4]])), i);
    CountAppend([s[1]], [s[2]] + ([s[3]] + [s[4]]), i);
    CountAppend([s[2]], [s[3]] + [s[4]], i);
    CountAppend([s[3]], [s[4]], i);
  }

  /** No player ever meets itself, so the seating of a battle never matters. */
  lemma SidesDiffer(won: seq<int>, lost: seq<int>, b: nat)
    requires Played(won, lost) && b < BATTLES
    ensures Side(won, lost, Left(b)) != Side(won, lost, Right(b))
  {
    var i := Side(won, lost, Left(b));
    if i == Side(won, lost, Right(b)) {
      assert won[b] == lost[b] == i;
      if b == A {
        LowerLosses(won, lost, i);
      } else if Upper(b) {
        NotTwiceInUpper(won, lost, b, i);
      } else {
        NotTwiceInLower(won, lost, b, i);
      }
    }
  }

  ghost predicate NeverMeets(won: seq<int>, lost: seq<int>)
    requires |won| == |lost| == BATTLES
  {
    forall b: nat | b < BATTLES :: Side(won, lost, Left(b)) != Side(won, lost, Right(b))
  }

  lemma NotTwiceInUpper(won: seq<int>, lost: seq<int>, b: nat, i: int)
    requires Played(won, lost) && Upper(b) && 0 <= i < 8
    ensures !(won[b] == lost[b] == i)
  {
    UpperLosses(won, lost, i);
    SidesPart(won, lost, 1, i);
    SidesPart(won, lost, 3, i);
    SidesPart(won, lost, 4, i);
  }

  lemma NotTwiceInLower(won: seq<int>, lost: seq<int>, b: nat, i: int)
    requires Played(won, lost) && b in {2, 5, 10, 11, 12, 13} && 0 <= i < 8
    ensures !(won[b] == lost[b] == i)
  {
    LowerLosses(won, lost, i);
    SidesPart(won, lost, 2, i);
    SidesPart(won, lost, 5, i);
    SidesPart(won, lost, 10, i);
    SidesPart(won, lost, 11, i);
  }

  // ---------- the tournament's own winners and losers ----------

  ghost function Winners(init: seq<Status>): (won: seq<int>)
    requires Players(init)
    ensures |won| == BATTLES
  {
    seq(BATTLES, b requires 0 <= b < BATTLES => WinnerOf(Result(init, b)).id)
  }

  ghost function Losers(init: seq<Status>): (lost: seq<int>)
    requires Players(init)
    ensures |lost| == BATTLES
  {
    seq(BATTLES, b requires 0 <= b < BATTLES => LoserOf(Result(init, b)).id)
  }

  lemma EntrantSide(init: seq<Status>, f: Feed)
    requires Players(init) && ValidFeed(f)
    ensures Entrant(init, f).id == Side(Winners(init), Losers(init), f)
  {
  }

  lemma BattlePlayed(init: seq<Status>, b: nat)
    requires Players(init) && b < BATTLES
    ensures var d, l, r := Result(init, b), Side(Winners(init), Losers(init), Left(b)), Side(Winners(init), Losers(init), Right(b));
      d.p.id == l && d.q.id == r
  {
    EntrantSide(init, Left(b));
    EntrantSide(init, Right(b));
    BattleEnds(Entrant(init, Left(b)), Entrant(init, Right(b)), b, Field(b));
  }

  lemma TournamentPlayed(init: seq<Status>)
    requires Players(init)
    ensures Played(Winners(init), Losers(init))
  {
    forall b: nat | b < BATTLES
      ensures var w, l := Winners(init), Losers(init);
        && 0 <= w[b] < 8 && 0 <= l[b] < 8 &&
        (|| (w[b] == Side(w, l, Left(b)) && l[b] == Side(w, l, Right(b)))
         || (w[b] == Side(w, l, Right(b)) && l[b] == Side(w, l, Left(b))))
    {
      BattlePlayed(init, b);
    }
  }

  /** In every tournament everyone loses twice, less one for the winner of battle B and less one
      for the champion: so the champion loses at most once, whoever falls in battle A once or
      twice, and everybody else exactly twice; and nobody ever meets itself. */
  lemma TournamentLosses(init: seq<Status>, won: seq<int>, lost: seq<int>, i: int)
    requires Players(init) && won == Winners(init) && lost == Losers(init) && 0 <= i < 8
    ensures Count(lost, i) == 2 - One(won[1] == i) - One(won[A] == i)
    ensures i != won[A] && i != lost[A] ==> Count(lost, i) == 2
    ensures NeverMeets(won, lost)
  {
    TournamentPlayed(init);
    PlayedLosses(won, lost, i);
  }

  lemma PlayedLosses(won: seq<int>, lost: seq<int>, i: int)
    requires Played(won, lost) && 0 <= i < 8
    ensures Count(lost, i) == 2 - One(won[1] == i) - One(won[A] == i)
    ensures i != won[A] && i != lost[A] ==> Count(lost, i) == 2
    ensures NeverMeets(won, lost)
  {
    LossCount(won, lost, i);
    SidesPart(won, lost, A, i);
    forall b: nat | b < BATTLES ensures Side(won, lost, Left(b)) != Side(won, lost, Right(b)) {
      SidesDiffer(won, lost, b);
    }
  }
}
