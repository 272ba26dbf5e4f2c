/** Merging consecutive messages of one role into turns, as two of the wire formats need. */
module Turns {
  import opened Json

  /** What one message contributes. */
  datatype Piece = Piece(role: string, blocks: seq<Json>)

  /** `field` names the payload array of a turn. */
  function Turn(field: string, piece: Piece): (turn: Json)
    requires field != "role"
  {
    Obj(map["role" := Str(piece.role), field := Arr(piece.blocks)])
  }

  predicate Extends(turns: seq<Json>, field: string, role: string)
  {
    turns != []
    && var back := turns[|turns| - 1];
       back.Obj? && StringField(back, "role") == role
       && Find(back, field).Some? && Find(back, field).value.Arr?
  }

  function Extended(turn: Json, field: string, blocks: seq<Json>): (extended: Json)
    requires turn.Obj? && field in turn.members && turn.members[field].Arr?
  {
    Obj(turn.members[field := Arr(turn.members[field].items + blocks)])
  }

  /** The turn list after one more message. */
  function Appended(turns: seq<Json>, field: string, piece: Piece): (after: seq<Json>)
    requires field != "role"
  {
    if Extends(turns, field, piece.role) then
      var n := |turns| - 1;
      turns[..n] + [Extended(turns[n], field, piece.blocks)]
    else
      turns + [Turn(field, piece)]
  }

  /** The array of turns of a request being built. */
  class TurnList {
    const field: string
    var turns: seq<Json>

    constructor (field: string)
      ensures this.field == field && turns == []
    {
      this.field := field;
      turns := [];
    }

    method AppendTurn(role: string, blocks: seq<Json>)
      requires field != "role"
      modifies this`turns
      ensures turns == Appended(old(turns), field, Piece(role, blocks))
    {
      if Extends(turns, field, role) {
        var n := |turns| - 1;
        ExtendedByNone(turns[n], field);
        for i := 0 to |blocks|
          invariant |turns| == n + 1 && turns[..n] == old(turns)[..n]
          invariant turns[n] == Extended(old(turns)[n], field, blocks[..i])
        {
          ExtendedByOne(old(turns)[n], field, blocks, i);
          turns := turns[n := Extended(turns[n], field, [blocks[i]])];
        }
        assert blocks[..|blocks|] == blocks;
        assert turns == turns[..n] + [turns[n]];
        return;
      }
      turns := turns + [Turn(field, Piece(role, blocks))];
    }
  }

  lemma {:induction false} ExtendedByNone(turn: Json, field: string)
    requires turn.Obj? && field in turn.members && turn.members[field].Arr?
    ensures Extended(turn, field, []) == turn
  {
    assert turn.members[field].items + [] == turn.members[field].items;
    assert turn.members[field := turn.members[field]] == turn.members;
  }

  lemma {:induction false} ExtendedByOne(turn: Json, field: string, blocks: seq<Json>, i: nat)
    requires turn.Obj? && field in turn.members && turn.members[field].Arr? && i < |blocks|
    ensures Extended(Extended(turn, field, blocks[..i]), field, [blocks[i]]) == Extended(turn, field, blocks[..i + 1])
  {
    assert turn.members[field].items + blocks[..i + 1] == (turn.members[field].items + blocks[..i]) + [blocks[i]];
  }

  // ---- what merging amounts to ----

  function Built(field: string, pieces: seq<Piece>): (turns: seq<Json>)
    requires field != "role"
  {
    if pieces == [] then []
    else Appended(Built(field, pieces[..|pieces| - 1]), field, pieces[|pieces| - 1])
  }

  lemma {:induction false} BuiltNext(field: string, pieces: seq<Piece>, piece: Piece)
    requires field != "role"
    ensures Built(field, pieces + [piece]) == Appended(Built(field, pieces), field, piece)
  {
    assert (pieces + [piece])[..|pieces|] == pieces;
  }

  /** The canonical grouping: each maximal run of one role is one group. */
  function Grouped(pieces: seq<Piece>): (groups: seq<Piece>)
  {
    if pieces == [] then []
    else
      Front(pieces[0], Grouped(pieces[1..]))
  }

  function Turned(field: string, groups: seq<Piece>): (turns: seq<Json>)
    requires field != "role"
    ensures |turns| == |groups|
  {
    seq(|groups|, i requires 0 <= i < |groups| => Turn(field, groups[i]))
  }

  predicate Alternating(groups: seq<Piece>)
  {
    forall i | 0 < i < |groups| :: groups[i - 1].role != groups[i].role
  }

  /** Every block with the role it was sent under, in order. */
  function Flat(pieces: seq<Piece>): (blocks: seq<(string, Json)>)
  {
    if pieces == [] then []
    else seq(|pieces[0].blocks|, i requires 0 <= i < |pieces[0].blocks| => (pieces[0].role, pieces[0].blocks[i]))
         + Flat(pieces[1..])
  }

  lemma {:induction false} FlatAppend(front: seq<Piece>, back: seq<Piece>)
    ensures Flat(front + back) == Flat(front) + Flat(back)
  {
    if front == [] {
      assert front + back == back;
    } else {
      assert (front + back)[1..] == front[1..] + back;
      FlatAppend(front[1..], back);
    }
  }

  function Merge(groups: seq<Piece>, piece: Piece): (after: seq<Piece>)
  {
    var n := |groups| - 1;
    if groups != [] && groups[n].role == piece.role
    then groups[..n] + [Piece(piece.role, groups[n].blocks + piece.blocks)]
    else groups + [piece]
  }

  lemma {:induction false} AppendedIsMerge(field: string, groups: seq<Piece>, piece: Piece)
    requires field != "role"
    ensures Appended(Turned(field, groups), field, piece) == Turned(field, Merge(groups, piece))
  {
    var turns := Turned(field, groups);
    var n := |groups| - 1;
    if groups != [] {
      assert turns[n] == Turn(field, groups[n]);
      assert Extends(turns, field, piece.role) <==> groups[n].role == piece.role;
      if groups[n].role == piece.role {
        var merged := Piece(piece.role, groups[n].blocks + piece.blocks);
        assert turns[n].members[field := Arr(groups[n].blocks + piece.blocks)] == Turn(field, merged).members;
        assert Turned(field, Merge(groups, piece)) == turns[..n] + [Turn(field, merged)];
      }
    }
  }

  lemma {:induction false} GroupedSnoc(pieces: seq<Piece>, piece: Piece)
    ensures Grouped(pieces + [piece]) == Merge(Grouped(pieces), piece)
  {
    if pieces == [] {
      assert pieces + [piece] == [piece] && [piece][1..] == [];
    } else {
      assert (pieces + [piece])[1..] == pieces[1..] + [piece];
      GroupedSnoc(pieces[1..], piece);
      MergeBehind(pieces[0], Grouped(pieces[1..]), piece);
    }
  }

  /** One piece put in front of groups. */
  function Front(piece: Piece, rest: seq<Piece>): (groups: seq<Piece>)
  {
    if rest != [] && rest[0].role == piece.role
    then [Piece(piece.role, piece.blocks + rest[0].blocks)] + rest[1..]
    else [piece] + rest
  }

  lemma {:induction false} MergeBehind(first: Piece, rest: seq<Piece>, last: Piece)
    ensures Front(first, Merge(rest, last)) == Merge(Front(first, rest), last)
  {
    if |rest| == 1 {
      assert (first.blocks + rest[0].blocks) + last.blocks == first.blocks + (rest[0].blocks + last.blocks);
    }
  }

  /** Merging message by message gives the canonical grouping, each turn a role and an
      array; no two neighbours share a role, and no block is lost, added or moved. */
  lemma {:induction false} BuiltIsGrouped(field: string, pieces: seq<Piece>)
    requires field != "role"
    ensures Built(field, pieces) == Turned(field, Grouped(pieces))
    ensures Alternating(Grouped(pieces))
    ensures Flat(Grouped(pieces)) == Flat(pieces)
  {
    if pieces != [] {
      var n := |pieces| - 1;
      BuiltIsGrouped(field, pieces[..n]);
      assert pieces == pieces[..n] + [pieces[n]];
      GroupedSnoc(pieces[..n], pieces[n]);
      AppendedIsMerge(field, Grouped(pieces[..n]), pieces[n]);
    }
    GroupsAlternate(pieces);
    GroupsFlat(pieces);
  }

  lemma {:induction false} GroupsAlternate(pieces: seq<Piece>)
    ensures Alternating(Grouped(pieces))
    ensures pieces != [] ==> Grouped(pieces) != [] && Grouped(pieces)[0].role == pieces[0].role
  {
    if pieces != [] { GroupsAlternate(pieces[1..]); }
  }

  lemma {:induction false} GroupsFlat(pieces: seq<Piece>)
    ensures Flat(Grouped(pieces)) == Flat(pieces)
  {
    if pieces != [] {
      GroupsFlat(pieces[1..]);
      var rest := Grouped(pieces[1..]);
      if rest != [] && rest[0].role == pieces[0].role {
        var merged := Piece(pieces[0].role, pieces[0].blocks + rest[0].blocks);
        assert ([merged] + rest[1..])[1..] == rest[1..];
      } else {
        assert ([pieces[0]] + rest)[1..] == rest;
      }
    }
  }
}
