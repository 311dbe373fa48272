/**
 * The in-memory repositories the engine runs against: the game store, the
 * read-side game store, the board store and the player-status service.
 * Each holds references to the same Board and Connect4Game objects the
 * handlers work on, so a change made through one is seen through the others
 * when they share an object.
 */
module Mocks {
  import opened Wrappers
  import opened Text
  import opened Errors
  import opened Model

  /** The ids of the games, in store order. */
  function IdsOf(games: seq<Connect4Game>): (ids: seq<int>)
    reads games
    ensures |ids| == |games| && forall i :: 0 <= i < |games| ==> ids[i] == games[i].id
  {
    seq(|games|, i requires 0 <= i < |games| reads games => games[i].id)
  }

  /** Position of the first occurrence of the id. */
  function FirstIndexOf(ids: seq<int>, id: int): (i: Option<nat>)
    ensures i.Some? ==> i.value < |ids| && ids[i.value] == id
    ensures i.Some? ==> forall j :: 0 <= j < i.value ==> ids[j] != id
    ensures i.None? ==> forall j :: 0 <= j < |ids| ==> ids[j] != id
  {
    if |ids| == 0 then None
    else if ids[0] == id then Some(0)
    else match FirstIndexOf(ids[1..], id)
      case None => None
      case Some(k) => Some(k + 1)
  }

  /**
   * Position of the first game with the id, as FirstOrDefault finds it; it
   * depends on the games' ids alone.
   */
  function FirstWithId(games: seq<Connect4Game>, id: int): (i: Option<nat>)
    reads games
    ensures i.Some? ==> i.value < |games| && games[i.value].id == id
    ensures i.Some? ==> forall j :: 0 <= j < i.value ==> games[j].id != id
    ensures i.None? ==> forall j :: 0 <= j < |games| ==> games[j].id != id
  {
    FirstIndexOf(IdsOf(games), id)
  }

  /** The ids of the boards, in store order. */
  function BoardIdsOf(boards: seq<Board>): (ids: seq<int>)
    reads boards
    ensures |ids| == |boards| && forall i :: 0 <= i < |boards| ==> ids[i] == boards[i].id
  {
    seq(|boards|, i requires 0 <= i < |boards| reads boards => boards[i].id)
  }

  /** Position of the first board with the id; it depends on the boards' ids alone. */
  function FirstBoardWithId(boards: seq<Board>, id: int): (i: Option<nat>)
    reads boards
    ensures i.Some? ==> i.value < |boards| && boards[i.value].id == id
    ensures i.Some? ==> forall j :: 0 <= j < i.value ==> boards[j].id != id
    ensures i.None? ==> forall j :: 0 <= j < |boards| ==> boards[j].id != id
  {
    FirstIndexOf(BoardIdsOf(boards), id)
  }

  /** The largest id in a non-empty list of games. */
  function MaxId(games: seq<Connect4Game>): (m: int)
    requires |games| > 0
    reads games
    ensures forall j :: 0 <= j < |games| ==> games[j].id <= m
    ensures exists j :: 0 <= j < |games| && games[j].id == m
  {
    if |games| == 1 then games[0].id
    else
      var rest := MaxId(games[1..]);
      if games[0].id < rest then rest else games[0].id
  }

  /** The generic exception a by-id write throws when no game has the id. */
  function NoGameWithId(id: int): Error {
    Unexpected("Game with ID " + IntToString(id) + " not found.")
  }

  /** The games satisfying the specification, in store order. */
  function Where(games: seq<Connect4Game>, spec: Specification): (r: seq<Connect4Game>)
    reads games
    ensures |r| <= |games|
    ensures forall g :: g in r ==> g in games && spec(GameDetailOf(g))
    ensures forall i :: 0 <= i < |games| && spec(GameDetailOf(games[i])) ==> games[i] in r
  {
    if games == [] then []
    else (if spec(GameDetailOf(games[0])) then [games[0]] else []) + Where(games[1..], spec)
  }

  /** The first game of the store that satisfies the specification heads the filtered list. */
  lemma {:induction false} WhereStartsWithFirstMatch(games: seq<Connect4Game>, spec: Specification, i: nat)
    requires i < |games| && spec(GameDetailOf(games[i]))
    requires forall j :: 0 <= j < i ==> !spec(GameDetailOf(games[j]))
    ensures Where(games, spec) != [] && Where(games, spec)[0] == games[i]
  {
    if i > 0 {
      WhereStartsWithFirstMatch(games[1..], spec, i - 1);
    }
  }

  /** `Enumerable.Skip`: a count of zero or less skips nothing. */
  function Skip<T>(s: seq<T>, n: int): seq<T> {
    if n <= 0 then s else if n >= |s| then [] else s[n..]
  }

  /** `Enumerable.Take`: a count of zero or less takes nothing. */
  function Take<T>(s: seq<T>, n: int): seq<T> {
    if n <= 0 then [] else if n >= |s| then s else s[..n]
  }

  /** The write-side store of games. */
  class GameRepositoryMock {
    var games: seq<Connect4Game>

    constructor ()
      ensures games == []
    {
      games := [];
    }

    /** The game a by-id write acts on: the first with that id, if any. */
    function Target(id: int): set<Connect4Game>
      reads this, games
    {
      match FirstWithId(games, id)
      case None => {}
      case Some(i) => {games[i]}
    }

    /** The id Create assigns: one more than the largest stored id, or 1 for an empty store. */
    function NextId(): (n: int)
      reads this, games
      ensures forall j :: 0 <= j < |games| ==> games[j].id < n
      ensures games == [] ==> n == 1
      ensures games != [] ==> exists j :: 0 <= j < |games| && games[j].id == n - 1
    {
      if games == [] then 1 else MaxId(games) + 1
    }

    /** Stores the game under a fresh id, written into the game itself. */
    method Create(entity: Connect4Game) returns (id: int)
      modifies this, entity`id
      ensures id == entity.id == old(NextId())
      ensures games == old(games) + [entity]
    {
      entity.id := if |games| > 0 then MaxId(games) + 1 else 1;
      games := games + [entity];
      return entity.id;
    }

    /** Replaces the first game with the id by `entity`, which goes to the end of the list. */
    method Update(id: int, entity: Connect4Game) returns (r: Outcome<Error>)
      modifies this
      ensures old(FirstWithId(games, id)).None? ==> r == Fail(NoGameWithId(id)) && games == old(games)
      ensures old(FirstWithId(games, id)).Some? ==>
        var i := old(FirstWithId(games, id)).value;
        r == Pass && games == old(games[..i] + games[i + 1..]) + [entity]
    {
      var found := FirstWithId(games, id);
      if found.None? {
        return Fail(NoGameWithId(id));
      }
      var i := found.value;
      games := games[..i] + games[i + 1..];
      games := games + [entity];
      return Pass;
    }

    method WaitingForPlayers(id: int) returns (r: Outcome<Error>)
      modifies Target(id)
      ensures FirstWithId(games, id) == old(FirstWithId(games, id))
      ensures old(FirstWithId(games, id)).None? ==> r == Fail(NoGameWithId(id))
      ensures old(FirstWithId(games, id)).Some? ==>
        var g := games[old(FirstWithId(games, id)).value];
        r == Pass && g.status == StatusWaiting
        && g.id == old(g.id) && g.guest == old(g.guest) && g.winner == old(g.winner)
    {
      var found := FirstWithId(games, id);
      if found.None? {
        return Fail(NoGameWithId(id));
      }
      games[found.value].WaitingForPlayers();
      assert IdsOf(games) == old(IdsOf(games));
      return Pass;
    }

    method InProgress(id: int, guest: string) returns (r: Outcome<Error>)
      modifies Target(id)
      ensures FirstWithId(games, id) == old(FirstWithId(games, id))
      ensures old(FirstWithId(games, id)).None? ==> r == Fail(NoGameWithId(id))
      ensures old(FirstWithId(games, id)).Some? ==>
        var g := games[old(FirstWithId(games, id)).value];
        r == Pass && g.status == StatusInProgress && g.guest == Some(guest)
        && g.id == old(g.id) && g.winner == old(g.winner)
    {
      var found := FirstWithId(games, id);
      if found.None? {
        return Fail(NoGameWithId(id));
      }
      games[found.value].InProgress(guest);
      assert IdsOf(games) == old(IdsOf(games));
      return Pass;
    }

    method Finished(id: int, winner: Option<string>) returns (r: Outcome<Error>)
      modifies Target(id)
      ensures FirstWithId(games, id) == old(FirstWithId(games, id))
      ensures old(FirstWithId(games, id)).None? ==> r == Fail(NoGameWithId(id))
      ensures old(FirstWithId(games, id)).Some? ==>
        var g := games[old(FirstWithId(games, id)).value];
        r == Pass && g.status == StatusFinished && g.winner == winner
        && g.id == old(g.id) && g.guest == old(g.guest)
    {
      var found := FirstWithId(games, id);
      if found.None? {
        return Fail(NoGameWithId(id));
      }
      games[found.value].Finished(winner);
      assert IdsOf(games) == old(IdsOf(games));
      return Pass;
    }

    /** Removes the first game with the id. */
    method Delete(id: int) returns (r: Outcome<Error>)
      modifies this
      ensures old(FirstWithId(games, id)).None? ==> r == Fail(NoGameWithId(id)) && games == old(games)
      ensures old(FirstWithId(games, id)).Some? ==>
        var i := old(FirstWithId(games, id)).value;
        r == Pass && games == old(games[..i] + games[i + 1..])
    {
      var found := FirstWithId(games, id);
      if found.None? {
        return Fail(NoGameWithId(id));
      }
      var i := found.value;
      games := games[..i] + games[i + 1..];
      return Pass;
    }

    method Add(game: Connect4Game)
      modifies this
      ensures games == old(games) + [game]
    {
      games := games + [game];
    }
  }

  /** The read-side store of games. */
  class GameQueryRepositoryMock {
    var games: seq<Connect4Game>

    constructor ()
      ensures games == []
    {
      games := [];
    }

    /** The boards of the stored games. */
    function Boards(): set<Board>
      reads this
    {
      set g | g in games :: g.board
    }

    /** The board of the game GetOne returns, if any. */
    function TargetBoard(id: int): set<Board>
      reads this, games
    {
      match FirstWithId(games, id)
      case None => {}
      case Some(i) => {games[i].board}
    }

    method AddGame(game: Connect4Game)
      modifies this
      ensures games == old(games) + [game]
    {
      games := games + [game];
    }

    method ClearGames()
      modifies this
      ensures games == []
    {
      games := [];
    }

    method Add(game: Connect4Game)
      modifies this
      ensures games == old(games) + [game]
    {
      games := games + [game];
    }

    /** The detailed view of the first game with the id; GameNotFound when there is none. */
    function GetOne(id: int): (r: Result<GameDetail, Error>)
      reads this, games
      ensures r.Failure? <==> forall j :: 0 <= j < |games| ==> games[j].id != id
      ensures r.Failure? ==> r.error == GameWithIdNotFound(id)
      ensures r.Success? ==> exists i :: 0 <= i < |games| && games[i].id == id && r.value == GameDetailOf(games[i])
      ensures r.Success? ==> r.value.gameId == id && TargetBoard(id) == {r.value.board}
    {
      match FirstWithId(games, id)
      case None => Failure(GameWithIdNotFound(id))
      case Some(i) => Success(GameDetailOf(games[i]))
    }

    /**
     * All stored games satisfying the specification, in store order; the
     * caller projects them to the view it asked for.
     */
    function FindAll(spec: Specification): (r: seq<Connect4Game>)
      reads this, games
      ensures forall g :: g in r ==> g in games && spec(GameDetailOf(g))
      ensures forall i :: 0 <= i < |games| && spec(GameDetailOf(games[i])) ==> games[i] in r
    {
      Where(games, spec)
    }

    /** One page of the matching games: `offset` of them skipped, at most `limit` kept. */
    function Find(limit: int, offset: int, spec: Specification): (r: seq<Connect4Game>)
      reads this, games
      ensures |r| <= (if limit < 0 then 0 else limit)
      ensures forall g :: g in r ==> g in games && spec(GameDetailOf(g))
    {
      Take(Skip(Where(games, spec), offset), limit)
    }

    /** Two consecutive pages of the same size make up the page of twice that size. */
    lemma ConsecutivePages(limit: int, offset: int, spec: Specification)
      requires limit >= 0 && offset >= 0
      ensures Find(limit, offset, spec) + Find(limit, offset + limit, spec) == Find(2 * limit, offset, spec)
    {
      var all := Where(games, spec);
      SkipSkip(all, offset, limit);
      TakeThenRest(Skip(all, offset), limit);
    }
  }

  lemma SkipSkip<T>(s: seq<T>, m: int, n: int)
    requires m >= 0 && n >= 0
    ensures Skip(Skip(s, m), n) == Skip(s, m + n)
  {
    if 0 < m < |s| && 0 < n < |s| - m {
      assert s[m..][n..] == s[m + n..];
    }
  }

  lemma TakeThenRest<T>(s: seq<T>, n: int)
    requires n >= 0
    ensures Take(s, n) + Take(Skip(s, n), n) == Take(s, 2 * n)
  {
    if 0 < n < |s| {
      if 2 * n < |s| {
        assert s[..n] + s[n..][..n] == s[..2 * n];
      } else {
        assert s[..n] + s[n..] == s;
      }
    }
  }

  /** The store of boards. */
  class BoardRepositoryMock {
    var boards: seq<Board>

    constructor ()
      ensures boards == []
    {
      boards := [];
    }

    /** The board UpdateBoard acts on: the first with that id, if any. */
    function Target(id: int): set<Board>
      reads this, boards
    {
      match FirstBoardWithId(boards, id)
      case None => {}
      case Some(i) => {boards[i]}
    }

    /** Writes the state and the next player into the first board with the id. */
    method UpdateBoard(id: int, boardState: string, nextPlayer: Option<string>) returns (r: Outcome<Error>)
      modifies Target(id)
      ensures old(FirstBoardWithId(boards, id)).None? ==>
        r == Fail(Unexpected("Board with ID " + IntToString(id) + " not found."))
      ensures old(FirstBoardWithId(boards, id)).Some? ==>
        var b := boards[old(FirstBoardWithId(boards, id)).value];
        r == Pass && b.state == boardState && b.currentPlayer == nextPlayer && b.id == old(b.id)
    {
      var found := FirstBoardWithId(boards, id);
      if found.None? {
        return Fail(Unexpected("Board with ID " + IntToString(id) + " not found."));
      }
      var board := boards[found.value];
      board.state := boardState;
      board.currentPlayer := nextPlayer;
      return Pass;
    }

    method Add(board: Board)
      modifies this
      ensures boards == old(boards) + [board]
    {
      boards := boards + [board];
    }
  }

  /**
   * The mock's busy test: a waiting or running game where the user is host
   * or guest, names compared ignoring case.
   */
  predicate BusyInMock(d: GameDetail, userName: string) {
    (d.status == StatusWaiting || d.status == StatusInProgress)
    && (EqualsIgnoreCase(d.host, userName) || (d.guest.Some? && EqualsIgnoreCase(d.guest.value, userName)))
  }

  /** The player-status service used by the acceptance tests: games keyed by id. */
  class PlayerStatusServiceMock {
    var games: map<int, Connect4Game>

    constructor ()
      ensures games == map[]
    {
      games := map[];
    }

    /** Stores the game under its current id, replacing any game stored under that id. */
    method AddGame(game: Connect4Game)
      modifies this
      ensures games == old(games)[game.id := game]
    {
      games := games[game.id := game];
    }

    method ClearGames()
      modifies this
      ensures games == map[]
    {
      games := map[];
    }

    /**
     * The id of some game keeping the user busy, or null. The dictionary's
     * enumeration order is unspecified, so which busy game is reported is
     * left open.
     */
    method CheckIfUserIsBusy(userName: string) returns (gameId: Option<int>)
      ensures gameId.None? <==> forall k :: k in games ==> !BusyInMock(GameDetailOf(games[k]), userName)
      ensures gameId.Some? ==>
        exists k :: k in games && BusyInMock(GameDetailOf(games[k]), userName) && games[k].id == gameId.value
    {
      if k :| k in games && BusyInMock(GameDetailOf(games[k]), userName) {
        return Some(games[k].id);
      }
      return None;
    }
  }
}
