/**
 * The game store behind the HTTP handlers: a map from game id to game. Every method of
 * the source runs under one lock over the whole map, so each is one atomic step here.
 */
module GameStores {
  import opened Prelude
  import opened Errors
  import opened Games

  /** A 128-bit game id. */
  newtype Uuid = x: int | 0 <= x < 0x1_0000_0000_0000_0000_0000_0000_0000_0000

  /** The message for an id the store does not hold. */
  const NotFound: string := "Game not found"

  /**
   * What `make_move` and `update_game` return: `Ok(())`, an error message, or the panic a
   * game's move ran into while the store's lock was held.
   */
  datatype Reply = Done | Rejected(message: string) | Panicked

  /** How a game's move outcome leaves the store: its error becomes the error's message. */
  function MoveReply(st: Status): (r: Reply)
    ensures st == Success <==> r == Done
    ensures st == Panic <==> r == Panicked
    ensures st.Failure? <==> r.Rejected?
    ensures st.Failure? ==> r.message == Message(st.error) && r.message != NotFound
  {
    match st
    case Success => Done
    case Failure(e) => Rejected(Message(e))
    case Panic => Panicked
  }

  /** Error kinds stay distinguishable after being turned into messages, and none reads as a missing game. */
  lemma RepliesDistinguishable(a: Status, b: Status)
    requires MoveReply(a) == MoveReply(b)
    ensures a == b
  {
    if a.Failure? {
      MessageInjective(a.error, b.error);
    }
  }

  /** Each game in `games` is valid and made only of objects in `repr`. */
  ghost predicate Owned(games: map<Uuid, Game>, repr: set<object>)
  {
    forall id | id in games :: games[id].Repr() <= repr && games[id].Valid()
  }

  /** No two entries share an object, so a move on one game leaves every other game as it was. */
  ghost predicate Separate(games: map<Uuid, Game>)
  {
    forall id, id' | id in games && id' in games && id != id' :: games[id].Repr() !! games[id'].Repr()
  }

  /** Putting a valid game made of objects nobody else owns under an id keeps both properties. */
  lemma InsertKeepsOwnership(games: map<Uuid, Game>, repr: set<object>, id: Uuid, game: Game)
    requires Owned(games, repr) && Separate(games)
    requires game.Valid() && game.Repr() !! repr
    ensures Owned(games[id := game], repr + game.Repr())
    ensures Separate(games[id := game])
  {
  }

  class GameStore {
    var games: map<Uuid, Game>
    ghost var Repr: set<object>

    /** Every stored game is valid and owned by the store alone; no two entries share an object. */
    ghost predicate Valid()
      reads this, Repr
    {
      this in Repr && Owned(games, Repr - {this}) && Separate(games)
    }

    /** The games the store holds, as values. */
    ghost function Model(): map<Uuid, GameState>
      reads this, Repr
      requires Valid()
    {
      map id | id in games :: games[id].State()
    }

    /** `GameStore::new`: no games. */
    constructor ()
      ensures Valid() && fresh(Repr)
      ensures Model() == map[]
    {
      games := map[];
      Repr := {this};
    }

    /**
     * `GameStore::add_game`: store `game` under a newly drawn id and return that id. The id
     * is random in the source; here the caller supplies it, and like `HashMap::insert` the
     * store would replace an entry already under that id. The game is passed by value, so
     * the store keeps a copy the caller cannot reach.
     */
    method AddGame(game: Game, freshId: Uuid) returns (id: Uuid)
      requires Valid() && game.Valid()
      modifies this
      ensures Valid() && old(Repr) <= Repr && fresh(Repr - old(Repr))
      ensures game.Repr() !! Repr - old(Repr)
      ensures id == freshId
      ensures Model() == old(Model())[id := game.State()]
    {
      id := freshId;
      Insert(id, game);
    }

    /** `GameStore::get_game`: a copy of the stored game, or nothing for an unknown id. */
    method GetGame(id: Uuid) returns (r: Option<Game>)
      requires Valid()
      ensures r.None? <==> id !in Model()
      ensures r.Some? ==> r.value.Valid() && fresh(r.value.Repr()) && r.value.State() == Model()[id]
    {
      if id !in games {
        return None;
      }
      var copy := new Game.Copy(games[id].State());
      r := Some(copy);
    }

    /**
     * `GameStore::make_move`: play the move on the stored game in place. An unknown id is
     * refused and changes nothing; otherwise the entry becomes whatever the move left,
     * including a board already overwritten by a move that then failed.
     */
    method MakeMove(id: Uuid, raw: u8) returns (r: Reply)
      requires Valid()
      modifies Repr
      ensures Valid() && Repr == old(Repr)
      ensures id !in old(Model()) ==> r == Rejected(NotFound) && Model() == old(Model())
      ensures id in old(Model()) ==>
        Model() == old(Model())[id := Step(old(Model())[id], raw).0] &&
        r == MoveReply(Step(old(Model())[id], raw).1)
    {
      if id !in games {
        return Rejected(NotFound);
      }
      ghost var before := Model();
      var game := games[id];
      var st := game.Mark(raw);
      r := MoveReply(st);
      ghost var after := Model();
      forall k | k in after
        ensures after[k] == before[id := game.State()][k]
      {
        if k != id {
          assert games[k].Repr() !! game.Repr();
        }
      }
      assert after == before[id := game.State()];
    }

    /** `GameStore::update_game`: replace an existing entry; an unknown id is refused and nothing is inserted. */
    method UpdateGame(id: Uuid, game: Game) returns (r: Reply)
      requires Valid() && game.Valid()
      modifies this
      ensures Valid() && old(Repr) <= Repr && fresh(Repr - old(Repr))
      ensures game.Repr() !! Repr - old(Repr)
      ensures id !in old(Model()) ==> r == Rejected(NotFound) && Model() == old(Model())
      ensures id in old(Model()) ==> r == Done && Model() == old(Model())[id := game.State()]
    {
      if id !in games {
        return Rejected(NotFound);
      }
      Insert(id, game);
      r := Done;
    }

    /**
     * `HashMap::insert` under the store's lock: a copy of `game`, made of fresh objects,
     * becomes the entry for `id`, new or replaced.
     */
    method Insert(id: Uuid, game: Game)
      requires Valid() && game.Valid()
      modifies this
      ensures Valid() && old(Repr) <= Repr && fresh(Repr - old(Repr))
      ensures game.Repr() !! Repr - old(Repr)
      ensures Model() == old(Model())[id := game.State()]
    {
      ghost var before := Model();
      var copy := new Game.Copy(game.State());
      InsertKeepsOwnership(games, Repr - {this}, id, copy);
      games := games[id := copy];
      Repr := Repr + copy.Repr();
      assert Repr - {this} == old(Repr) - {this} + copy.Repr();
      ghost var after := Model();
      forall k | k in after
        ensures after[k] == before[id := game.State()][k]
      {
      }
      assert after == before[id := game.State()];
    }

    /** The ids listed by `get_all_game_ids`: each stored id exactly once, in no particular order. */
    method GameIds() returns (ids: seq<Uuid>)
      requires Valid()
      ensures forall id :: id in ids <==> id in Model()
      ensures forall i, j | 0 <= i < j < |ids| :: ids[i] != ids[j]
    {
      ids := [];
      var rest := games.Keys;
      while rest != {}
        invariant forall id :: id in ids ==> id in games && id !in rest
        invariant forall id :: id in games ==> id in ids || id in rest
        invariant rest <= games.Keys
        invariant forall i, j | 0 <= i < j < |ids| :: ids[i] != ids[j]
        decreases rest
      {
        var id :| id in rest;
        ids := ids + [id];
        rest := rest - {id};
      }
    }
  }
}
