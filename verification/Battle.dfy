/** One battle: a round of `fight` on the two statuses, and the rounds up to the end. */
module Battle {

  datatype Attribute = FIRE | GRASS | WATER

  /** The message that players and battles exchange. Battles are numbered from 'A' = 0. */
  datatype Status = Status(id: int, hp: int, atk: int, attr: Attribute, battle: nat, ended: bool)

  /** Both statuses after a round or a battle; `remain` is the winner's side, or -1. */
  datatype Duel = Duel(p: Status, q: Status, remain: int)

  function Damage(s: Status, field: Attribute): int {
    if s.attr == field then 2 * s.atk else s.atk
  }

  predicate MovesFirst(p: Status, q: Status) {
    p.hp < q.hp || (p.hp == q.hp && p.id < q.id)
  }

  /** `first` hits; if `second` survives it hits back. */
  function Strikes(first: Status, second: Status, field: Attribute): (Status, Status, bool) {
    var hit := second.(hp := second.hp - Damage(first, field));
    if hit.hp <= 0 then (first.(ended := true), hit.(ended := true), true)
    else
      var back := first.(hp := first.hp - Damage(hit, field));
      if back.hp <= 0 then (back.(ended := true), hit.(ended := true), true) else (back, hit, false)
  }

  /** One round in battle `b`, which also stamps the statuses with the battle. */
  function Round(p: Status, q: Status, b: nat, field: Attribute): Duel {
    var p, q := p.(battle := b), q.(battle := b);
    if MovesFirst(p, q) then
      var (p', q', over) := Strikes(p, q, field);
      Duel(p', q', if !over then -1 else if q'.hp <= 0 then 0 else 1)
    else
      var (q', p', over) := Strikes(q, p, field);
      Duel(p', q', if !over then -1 else if p'.hp <= 0 then 1 else 0)
  }

  /** A round in hit points. A blow takes the striker's attack value, or twice that if its attribute
      is the field's. The side with fewer points, or the lower id, strikes first; only if the other
      is still standing it strikes back. Nothing but points, flag and battle changes. */
  lemma RoundBlows(p: Status, q: Status, b: nat, field: Attribute)
    ensures var d := Round(p, q, b, field);
      var x, y := if p.attr == field then 2 * p.atk else p.atk, if q.attr == field then 2 * q.atk else q.atk;
      && d.p == p.(hp := d.p.hp, battle := b, ended := d.p.ended) && d.q == q.(hp := d.q.hp, battle := b, ended := d.q.ended)
      && (p.hp < q.hp || (p.hp == q.hp && p.id < q.id) ==>
            && d.q.hp == q.hp - x
            && d.p.hp == (if q.hp - x > 0 then p.hp - y else p.hp)
            && d.remain == (if q.hp - x <= 0 then 0 else if p.hp - y <= 0 then 1 else -1))
      && (q.hp < p.hp || (p.hp == q.hp && q.id <= p.id) ==>
            && d.p.hp == p.hp - y
            && d.q.hp == (if p.hp - y > 0 then q.hp - x else q.hp)
            && d.remain == (if p.hp - y <= 0 then 1 else if q.hp - x <= 0 then 0 else -1))
      && (d.remain == -1 ==> d.p.hp == p.hp - y > 0 && d.q.hp == q.hp - x > 0 && d.p.ended == p.ended && d.q.ended == q.ended)
      && (d.remain != -1 ==> d.p.ended && d.q.ended)
  {
  }

  predicate Fit(s: Status) {
    s.hp > 0 && s.atk > 0 && !s.ended
  }

  /** Rounds until somebody falls; the players send every status back as they received it. */
  function Fought(p: Status, q: Status, b: nat, field: Attribute): Duel
    requires Fit(p) && Fit(q)
    decreases p.hp + q.hp
  {
    var d := Round(p, q, b, field);
    if d.remain != -1 then d else Fought(d.p, d.q, b, field)
  }

  function Rounds(p: Status, q: Status, b: nat, field: Attribute): nat
    requires Fit(p) && Fit(q)
    decreases p.hp + q.hp
  {
    var d := Round(p, q, b, field);
    if d.remain != -1 then 1 else 1 + Rounds(d.p, d.q, b, field)
  }

  predicate SameFighter(s: Status, t: Status) {
    s.id == t.id && s.atk == t.atk && s.attr == t.attr
  }

  /** A battle ends with exactly one side down; `remain` names the other, whose points have not
      grown; both know that it is over and where it was fought. */
  lemma {:induction false} BattleEnds(p: Status, q: Status, b: nat, field: Attribute)
    requires Fit(p) && Fit(q)
    ensures var d := Fought(p, q, b, field);
      && SameFighter(d.p, p) && SameFighter(d.q, q)
      && d.p.ended && d.q.ended && d.p.battle == d.q.battle == b
      && (d.remain == 0 ==> 0 < d.p.hp <= p.hp && d.q.hp <= 0)
      && (d.remain == 1 ==> 0 < d.q.hp <= q.hp && d.p.hp <= 0)
      && d.remain in {0, 1}
    decreases p.hp + q.hp
  {
    var d := Round(p, q, b, field);
    if d.remain == -1 {
      BattleEnds(d.p, d.q, b, field);
    }
  }

  /** With different ids it does not matter who sits left and who sits right. */
  lemma {:induction false} BattleSymmetric(p: Status, q: Status, b: nat, field: Attribute)
    requires Fit(p) && Fit(q) && p.id != q.id
    ensures var d, e := Fought(p, q, b, field), Fought(q, p, b, field);
      e.p == d.q && e.q == d.p && e.remain == 1 - d.remain
    decreases p.hp + q.hp
  {
    var d := Round(p, q, b, field);
    if d.remain == -1 {
      BattleSymmetric(d.p, d.q, b, field);
    }
  }

  /** With equal ids, which never meet in a tournament, it could matter: the right-hand side strikes
      first in a tie. That is why the lemma above asks for different ones. */
  lemma EqualIdsFavourRight(s: Status, b: nat, field: Attribute)
    requires Fit(s) && s.hp <= s.atk
    ensures Fought(s, s, b, field).remain == 1
  {
  }

  // ---------- the player's side ----------

  /** After a won battle half of the lost points come back. */
  function Recovered(s: Status, origin: int): Status {
    s.(hp := s.hp + (origin - s.hp) / 2, ended := false)
  }

  /** After a first loss the player starts again elsewhere with its original points. */
  function Reentered(s: Status, origin: int): Status {
    s.(hp := origin, ended := false)
  }

  /** Half of the lost points come back, rounded down; nothing else changes but the flag. */
  lemma RecoveredHalf(s: Status, origin: int)
    requires 0 < s.hp <= origin
    ensures var r := Recovered(s, origin);
      && 2 * (r.hp - s.hp) <= origin - s.hp <= 2 * (r.hp - s.hp) + 1
      && !r.ended && r == s.(hp := r.hp, ended := false)
  {
  }

  /** Two fighters of the sample status file: player 0 wins with 4 of 7 points left, and goes on
      with 5. */
  lemma SampleBattle()
    ensures var d := Fought(Status(0, 7, 2, FIRE, 6, false), Status(1, 8, 3, GRASS, 6, false), 6, FIRE);
      d.remain == 0 && d.p.hp == 4 && d.q.hp == 0 && Recovered(d.p, 7).hp == 5
  {
    var p, q := Status(0, 7, 2, FIRE, 6, false), Status(1, 8, 3, GRASS, 6, false);
    var d := Round(p, q, 6, FIRE);
    assert d == Duel(p.(hp := 4), q.(hp := 4), -1);
    assert Fought(p, q, 6, FIRE) == Fought(d.p, d.q, 6, FIRE);
    assert Round(d.p, d.q, 6, FIRE).remain == 0;
  }

  /** `origin` points bound those of the fighter in every battle it enters. */
  predicate Ready(s: Status, origin: int) {
    Fit(s) && s.hp <= origin
  }

  lemma RecoveryReadies(s: Status, origin: int)
    requires 0 < s.hp <= origin && s.atk > 0
    ensures Ready(Recovered(s, origin), origin) && s.hp <= Recovered(s, origin).hp
    ensures Ready(Reentered(s, origin), origin)
  {
  }

  // ---------- the source's routines, in place ----------

  /** One blow; when it fells the other side, both statuses are told that the battle is over. */
  method Strike(player: array<Status>, from: nat, to: nat, field: Attribute) returns (over: bool)
    requires player.Length == 2 && from + to == 1
    modifies player
    ensures var s, t := old(player[from]), old(player[to]); var hit := t.(hp := t.hp - Damage(s, field));
      && over == (hit.hp <= 0)
      && player[from] == (if over then s.(ended := true) else s)
      && player[to] == (if over then hit.(ended := true) else hit)
  {
    player[to] := player[to].(hp := player[to].hp - Damage(player[from], field));
    over := player[to].hp <= 0;
    if over {
      player[0], player[1] := player[0].(ended := true), player[1].(ended := true);
    }
  }

  /** `fight` on the two entries of `Player`, already stamped with the battle. */
  method Fight(player: array<Status>, b: nat, field: Attribute, remain: int) returns (remain': int)
    requires player.Length == 2 && player[0].battle == player[1].battle == b
    modifies player
    ensures var d := Round(old(player[0]), old(player[1]), b, field);
      player[0] == d.p && player[1] == d.q && remain' == if d.remain == -1 then remain else d.remain
  {
    remain' := remain;
    if player[0].hp < player[1].hp || (player[0].hp == player[1].hp && player[0].id < player[1].id) {
      var over := Strike(player, 0, 1, field);
      if over { return 0; }
      over := Strike(player, 1, 0, field);
      if over { return 1; }
    } else {
      var over := Strike(player, 1, 0, field);
      if over { return 1; }
      over := Strike(player, 0, 1, field);
      if over { return 0; }
    }
  }

  /** What the loop needs of one round; stamping the statuses first makes no difference. */
  lemma RoundStep(p: Status, q: Status, b: nat, field: Attribute)
    requires Fit(p) && Fit(q)
    ensures var d := Round(p, q, b, field);
      && Round(p.(battle := b), q.(battle := b), b, field) == d
      && (d.remain == -1 ==> Fit(d.p) && Fit(d.q) && d.p.hp + d.q.hp < p.hp + q.hp && Fought(d.p, d.q, b, field) == Fought(p, q, b, field))
      && (d.remain != -1 ==> d.p.ended && d == Fought(p, q, b, field))
  {
  }

  /** The battle loop, with players that answer every unfinished round with what they were sent. */
  method BattleLoop(player: array<Status>, b: nat, field: Attribute) returns (remain: int)
    requires player.Length == 2 && Fit(player[0]) && Fit(player[1])
    modifies player
    ensures Duel(player[0], player[1], remain) == Fought(old(player[0]), old(player[1]), b, field)
  {
    ghost var p, q := player[0], player[1];
    ghost var result := Fought(p, q, b, field);
    remain := -1;
    while !player[0].ended
      invariant player[0] == p && player[1] == q
      invariant !p.ended ==> Fit(p) && Fit(q) && Fought(p, q, b, field) == result && remain == -1
      invariant p.ended ==> Duel(p, q, remain) == result
      decreases if player[0].ended then 0 else player[0].hp + player[1].hp
    {
      RoundStep(p, q, b, field);
      player[0], player[1] := player[0].(battle := b), player[1].(battle := b);
      remain := Fight(player, b, field, remain);
      p, q := player[0], player[1];
    }
  }
}
