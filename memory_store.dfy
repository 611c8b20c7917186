/** The in-memory game store of internal/store/memory.go: games by id, and per
    table the list of every game ever saved for it, in save order. The lock
    that guards the two indices is not modelled (every operation is one atomic
    step here). */
module Store {
  import opened Wrappers
  import opened Rules
  import opened Blackjack

  datatype StoreError = GameNotFound | TableNotFound | NoActiveGame

  /** The list kept for a table; a table never saved to has none. */
  function TableList(tables: map<string, seq<BlackjackGame>>, tableId: string): seq<BlackjackGame>
  {
    if tableId in tables then tables[tableId] else []
  }

  /** Position of the first game of the list that is not Completed, or the
      length of the list when every game is Completed. */
  function FirstOpen(gs: seq<BlackjackGame>): (k: nat)
    reads gs
    ensures k <= |gs|
    ensures k < |gs| ==> gs[k].status != Completed
    ensures forall j :: 0 <= j < k ==> gs[j].status == Completed
  {
    if gs == [] then 0
    else if gs[0].status != Completed then 0
    else 1 + FirstOpen(gs[1..])
  }

  /** Position of the first game of the list carrying the given id, or the
      length of the list when none does. */
  function FirstWithId(gs: seq<BlackjackGame>, id: string): (k: nat)
    ensures k <= |gs|
    ensures k < |gs| ==> gs[k].id == id
    ensures forall j :: 0 <= j < k ==> gs[j].id != id
  {
    if gs == [] then 0
    else if gs[0].id == id then 0
    else 1 + FirstWithId(gs[1..], id)
  }

  /** The list without its first game carrying the given id. */
  function RemoveFirst(gs: seq<BlackjackGame>, id: string): seq<BlackjackGame>
  {
    if gs == [] then []
    else if gs[0].id == id then gs[1..]
    else [gs[0]] + RemoveFirst(gs[1..], id)
  }

  /** Removing the first match cuts out exactly the entry at FirstWithId and
      keeps every other entry in order; with no match it changes nothing. */
  lemma {:induction false} RemoveFirstCutsFirstMatch(gs: seq<BlackjackGame>, id: string)
    ensures var k := FirstWithId(gs, id);
      RemoveFirst(gs, id) == if k < |gs| then gs[..k] + gs[k + 1..] else gs
  {
    if gs != [] && gs[0].id != id {
      RemoveFirstCutsFirstMatch(gs[1..], id);
      var k := FirstWithId(gs, id);
      if k < |gs| {
        assert gs[1..][..k - 1] == gs[1..k];
        assert gs[1..][k..] == gs[k + 1..];
        assert [gs[0]] + gs[1..k] == gs[..k];
      }
    }
  }

  /** Removing the first match drops one entry when there is a match and none
      otherwise, and every game with another id survives. */
  lemma RemoveFirstKeepsOthers(gs: seq<BlackjackGame>, id: string)
    ensures |RemoveFirst(gs, id)| == if FirstWithId(gs, id) < |gs| then |gs| - 1 else |gs|
    ensures forall g :: g in gs && g.id != id ==> g in RemoveFirst(gs, id)
    ensures forall g :: g in RemoveFirst(gs, id) ==> g in gs
  {
    RemoveFirstCutsFirstMatch(gs, id);
    var k := FirstWithId(gs, id);
    if k < |gs| {
      forall g | g in gs && g.id != id
        ensures g in gs[..k] + gs[k + 1..]
      {
        var i :| 0 <= i < |gs| && gs[i] == g;
        if i < k { assert gs[..k][i] == g; } else { assert gs[k + 1..][i - k - 1] == g; }
      }
    }
  }

  /** Deleting a game just saved under a fresh id gives its table back the list
      it had (an empty one if the table was new). */
  lemma {:induction false} RemoveFirstUndoesAppend(gs: seq<BlackjackGame>, g: BlackjackGame)
    requires forall i :: 0 <= i < |gs| ==> gs[i].id != g.id
    ensures RemoveFirst(gs + [g], g.id) == gs
  {
    if gs == [] {
      assert [g][1..] == [];
    } else {
      assert (gs + [g])[0] == gs[0];
      assert (gs + [g])[1..] == gs[1..] + [g];
      RemoveFirstUndoesAppend(gs[1..], g);
      assert [gs[0]] + gs[1..] == gs;
    }
  }

  class MemoryStore {
    var games: map<string, BlackjackGame>
    var tables: map<string, seq<BlackjackGame>>

    /** Every stored game is filed under its own id and appears in the list of
        its own table. */
    predicate Valid()
      reads this
    {
      forall id :: id in games ==>
        && games[id].id == id
        && games[id].tableId in tables
        && games[id] in tables[games[id].tableId]
    }

    /** NewMemoryStore: both indices empty. */
    constructor ()
      ensures games == map[] && tables == map[]
      ensures Valid()
    {
      games := map[];
      tables := map[];
    }

    /** Files the game under its id, replacing any game stored under that id,
        and appends it to its table's list, even when it is there already. */
    method SaveGame(g: BlackjackGame)
      modifies this
      ensures games == old(games)[g.id := g]
      ensures tables == old(tables)[g.tableId := TableList(old(tables), g.tableId) + [g]]
      ensures |tables[g.tableId]| == |TableList(old(tables), g.tableId)| + 1
      ensures old(Valid()) ==> Valid()
    {
      games := games[g.id := g];
      var tableGames: seq<BlackjackGame>;
      if g.tableId in tables {
        tableGames := tables[g.tableId];
      } else {
        tableGames := [];
      }
      tables := tables[g.tableId := tableGames + [g]];
    }

    /** The game stored under the id, or GameNotFound. */
    method GetGame(id: string) returns (r: Result<BlackjackGame, StoreError>)
      ensures r.Ok? <==> id in games
      ensures r.Ok? ==> r.value == games[id]
      ensures r.Err? ==> r.error == GameNotFound
    {
      if id !in games {
        return Err(GameNotFound);
      }
      return Ok(games[id]);
    }

    /** The table's list in save order; an unknown table has an empty list and
        is not an error. */
    method GetTableGames(tableId: string) returns (gs: seq<BlackjackGame>)
      ensures tableId in tables ==> gs == tables[tableId]
      ensures tableId !in tables ==> gs == []
    {
      if tableId !in tables {
        return [];
      }
      return tables[tableId];
    }

    /** The earliest game of the table's list that is not Completed;
        TableNotFound for an unknown table, NoActiveGame when every game of the
        list is Completed. */
    method GetActiveTableGame(tableId: string) returns (r: Result<BlackjackGame, StoreError>)
      ensures tableId !in tables ==> r == Err(TableNotFound)
      ensures tableId in tables ==>
        var gs := tables[tableId]; var k := FirstOpen(gs);
        r == if k < |gs| then Ok(gs[k]) else Err(NoActiveGame)
    {
      if tableId !in tables {
        return Err(TableNotFound);
      }
      var gs := tables[tableId];
      for i := 0 to |gs|
        invariant forall j :: 0 <= j < i ==> gs[j].status == Completed
      {
        if gs[i].status != Completed {
          return Ok(gs[i]);
        }
      }
      return Err(NoActiveGame);
    }

    /** GameNotFound, changing nothing, for an unknown id. Otherwise drops the
        id from the map and the first entry with that id from the list of the
        stored game's table; the rest of that list keeps its order. */
    method DeleteGame(id: string) returns (err: Option<StoreError>)
      modifies this
      ensures id !in old(games) ==> err == Some(GameNotFound) && games == old(games) && tables == old(tables)
      ensures id in old(games) ==> err == None && games == old(games) - {id}
      ensures id in old(games) ==>
        var t := old(games)[id].tableId;
        tables == if t in old(tables) then old(tables)[t := RemoveFirst(old(tables)[t], id)] else old(tables)
      ensures old(Valid()) ==> Valid()
      ensures old(Valid()) && id in old(games) ==>
        var t := old(games)[id].tableId;
        t in old(tables) && t in tables && |tables[t]| == |old(tables)[t]| - 1
    {
      if id !in games {
        return Some(GameNotFound);
      }
      var g := games[id];
      ghost var valid := Valid();
      games := games - {id};
      if g.tableId in tables {
        var tableGames := tables[g.tableId];
        RemoveFirstCutsFirstMatch(tableGames, id);
        RemoveFirstKeepsOthers(tableGames, id);
        var i := 0;
        while i < |tableGames|
          invariant i <= |tableGames|
          invariant forall j :: 0 <= j < i ==> tableGames[j].id != id
          invariant tables == old(tables) && games == old(games) - {id}
        {
          if tableGames[i].id == id {
            assert FirstWithId(tableGames, id) == i;
            tables := tables[g.tableId := tableGames[..i] + tableGames[i + 1..]];
            break;
          }
          i := i + 1;
        }
        if i == |tableGames| {
          assert FirstWithId(tableGames, id) == i;
          assert tables == tables[g.tableId := RemoveFirst(tableGames, id)];
        }
      }
      if valid {
        var tableGames := old(tables)[g.tableId];
        var j :| 0 <= j < |tableGames| && tableGames[j] == g;
        assert FirstWithId(tableGames, id) <= j;
        forall k | k in games
          ensures games[k].tableId in tables && games[k] in tables[games[k].tableId]
        {
          assert games[k] == old(games)[k] && games[k].id == k != id;
        }
      }
      return None;
    }

    /** Every stored game once, in no particular order. */
    method GetAllGames() returns (gs: seq<BlackjackGame>, ghost ids: seq<string>)
      ensures |gs| == |ids| == |games|
      ensures forall i :: 0 <= i < |ids| ==> ids[i] in games && gs[i] == games[ids[i]]
      ensures forall i, j :: 0 <= i < j < |ids| ==> ids[i] != ids[j]
      ensures forall id :: id in games ==> games[id] in gs
    {
      gs, ids := [], [];
      var keys := games.Keys;
      while keys != {}
        invariant keys <= games.Keys
        invariant |gs| == |ids| && |ids| + |keys| == |games|
        invariant forall i :: 0 <= i < |ids| ==> ids[i] in games && ids[i] !in keys && gs[i] == games[ids[i]]
        invariant forall i, j :: 0 <= i < j < |ids| ==> ids[i] != ids[j]
        invariant forall id :: id in games && id !in keys ==> id in ids
        decreases |keys|
      {
        var id :| id in keys;
        gs, ids := gs + [games[id]], ids + [id];
        keys := keys - {id};
      }
      forall id | id in games
        ensures games[id] in gs
      {
        var i :| 0 <= i < |ids| && ids[i] == id;
        assert gs[i] == games[id];
      }
    }
  }
}
