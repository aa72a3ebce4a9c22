/**
 * The room registry of the connection handler: every connection names a
 * room (or falls back to the default one), and the first connection to a
 * room creates its table.
 */
module Rooms {
  import opened Wrappers
  import opened Table

  /** The room a connection without a room id joins. */
  const DefaultRoom: string := "room1"

  /**
   * `socket.handshake.query.roomId || 'room1'`: a missing or empty room id
   * (both falsy) gives the default room, any other is used as given.
   */
  function RoomIdFor(query: Option<string>): (roomId: string)
    ensures roomId != []
    ensures query.Some? && query.value != [] ==> roomId == query.value
    ensures query.None? || query.value == [] ==> roomId == DefaultRoom
  {
    match query
    case Some(q) => if q != [] then q else DefaultRoom
    case None => DefaultRoom
  }

  /** The rooms that exist, by id; each maps to its own table. */
  class Registry {
    var rooms: map<string, PokerGame>

    constructor ()
      ensures rooms == map[]
    {
      rooms := map[];
    }

    /**
     * `if (!rooms[roomId]) rooms[roomId] = new PokerGame(roomId)`: the table
     * of a known room is kept as it is; an unknown room gets a fresh, empty,
     * waiting table, and no other room changes.
     */
    method GetOrCreate(roomId: string) returns (game: PokerGame)
      modifies this
      ensures roomId in rooms && rooms[roomId] == game
      ensures roomId in old(rooms) ==> rooms == old(rooms) && game == old(rooms)[roomId]
      ensures roomId !in old(rooms) ==>
        rooms == old(rooms)[roomId := game] && fresh(game) &&
        game.Valid() && game.roomId == roomId && game.players == [] && game.stage == Waiting &&
        game.pot == 0 && game.hostId == None
    {
      if roomId in rooms {
        game := rooms[roomId];
        return;
      }
      game := new PokerGame(roomId);
      rooms := rooms[roomId := game];
    }
  }
}
