/** The per-turn move decision of the snake agent: a safety filter over the four directions,
    a one-step food heuristic, the final pick with its taunt, and the small lookups and size
    comparison beside them. Each random draw is an input `roll`, and
    `nextInt(n)` is `roll % n`: every contract holds for every draw. */
module RequestController {
  import opened Int32
  import opened Data

  // ---------------------------------------------------------------------------------------
  // Specification functions
  // ---------------------------------------------------------------------------------------

  /** The wall test as the controller writes it: below zero, or exactly one past the last column or row. */
  predicate HitsWall(x: i32, y: i32, boardWidth: i32, boardHeight: i32)
  {
    x < 0 || x == boardWidth || y < 0 || y == boardHeight
  }

  /** (x, y) is a body segment of some snake other than that snake's tail. */
  predicate OnBody(snakes: seq<Snake>, x: i32, y: i32)
  {
    exists k, i :: 0 <= k < |snakes| && 0 <= i < |snakes[k].coords| - 1 && snakes[k].coords[i] == (x, y)
  }

  /** A head moved to (x, y) dies for sure. */
  predicate Lethal(snakes: seq<Snake>, x: i32, y: i32, boardWidth: i32, boardHeight: i32)
  {
    HitsWall(x, y, boardWidth, boardHeight) || OnBody(snakes, x, y)
  }

  /** The position of a direction in the fixed candidate order UP, DOWN, LEFT, RIGHT. */
  function Rank(m: Move): nat
  {
    match m
    case Up => 0
    case Down => 1
    case Left => 2
    case Right => 3
  }

  /** The directions whose target cell is not lethal, in candidate order. */
  ghost function SafeMoves(snakes: seq<Snake>, head: Coord, boardWidth: i32, boardHeight: i32): seq<Move>
  {
    (if Lethal(snakes, Step(head, Up).0, Step(head, Up).1, boardWidth, boardHeight) then [] else [Up]) +
    (if Lethal(snakes, Step(head, Down).0, Step(head, Down).1, boardWidth, boardHeight) then [] else [Down]) +
    (if Lethal(snakes, Step(head, Left).0, Step(head, Left).1, boardWidth, boardHeight) then [] else [Left]) +
    (if Lethal(snakes, Step(head, Right).0, Step(head, Right).1, boardWidth, boardHeight) then [] else [Right])
  }

  /** The directions the food heuristic draws from, in the order it lists them. */
  ghost function FoodMoves(head: Coord, food: Coord): seq<Move>
  {
    (if head.0 > food.0 then [Left] else []) +
    (if head.0 < food.0 then [Right] else []) +
    (if head.1 > food.1 then [Up] else []) +
    (if head.1 < food.1 then [Down] else [])
  }

  /** Whether a snake is on the side of the lookup: ours (`mine`) or any other. */
  predicate Matches(s: Snake, you: string, mine: bool)
  {
    (s.id == you) == mine
  }

  /** The first snake on the given side, or none. */
  ghost function FirstMatch(snakes: seq<Snake>, you: string, mine: bool): Option<Snake>
    decreases |snakes|
  {
    if |snakes| == 0 then None
    else if Matches(snakes[0], you, mine) then Some(snakes[0])
    else FirstMatch(snakes[1..], you, mine)
  }

  /** The size of the last snake on the given side, or 0 if there is none. */
  ghost function LastSize(snakes: seq<Snake>, you: string, mine: bool): i32
    decreases |snakes|
  {
    if |snakes| == 0 then 0
    else if Matches(snakes[|snakes| - 1], you, mine) then snakes[|snakes| - 1].size
    else LastSize(snakes[..|snakes| - 1], you, mine)
  }

  /** Distance on the grid with exact integers. */
  function Manhattan(a: Coord, b: Coord): (d: nat)
    ensures d == 0 <==> a == b
  {
    (if a.0 >= b.0 then a.0 as int - b.0 as int else b.0 as int - a.0 as int) +
    (if a.1 >= b.1 then a.1 as int - b.1 as int else b.1 as int - a.1 as int)
  }

  /** The taunt sent with a move when at least one direction is safe. */
  function OtherTaunt(otherSnake: Option<Snake>): string
  {
    if otherSnake.Some? then otherSnake.value.name + "'s mother was a garden hose!" else "Boo!"
  }

  // ---------------------------------------------------------------------------------------
  // Snake lookups
  // ---------------------------------------------------------------------------------------

  lemma {:induction false} FirstMatchSpec(snakes: seq<Snake>, you: string, mine: bool)
    ensures FirstMatch(snakes, you, mine).None? <==>
              forall k :: 0 <= k < |snakes| ==> !Matches(snakes[k], you, mine)
    ensures FirstMatch(snakes, you, mine).Some? ==>
              exists k :: 0 <= k < |snakes| && snakes[k] == FirstMatch(snakes, you, mine).value &&
                Matches(snakes[k], you, mine) && forall j :: 0 <= j < k ==> !Matches(snakes[j], you, mine)
    decreases |snakes|
  {
    if |snakes| > 0 && !Matches(snakes[0], you, mine) {
      var rest := snakes[1..];
      FirstMatchSpec(rest, you, mine);
      assert forall k :: 1 <= k < |snakes| ==> snakes[k] == rest[k - 1];
      if FirstMatch(rest, you, mine).Some? {
        var k :| 0 <= k < |rest| && rest[k] == FirstMatch(rest, you, mine).value &&
                 Matches(rest[k], you, mine) && forall j :: 0 <= j < k ==> !Matches(rest[j], you, mine);
        assert snakes[k + 1] == rest[k];
      }
    } else if |snakes| > 0 {
      assert snakes[0] == FirstMatch(snakes, you, mine).value;
    }
  }

  /** Steps the search from index k to k + 1 past a snake on the wrong side. */
  lemma FirstMatchSkip(snakes: seq<Snake>, you: string, mine: bool, k: nat)
    requires k < |snakes| && !Matches(snakes[k], you, mine)
    ensures FirstMatch(snakes[k..], you, mine) == FirstMatch(snakes[k + 1..], you, mine)
  {
    assert snakes[k..][1..] == snakes[k + 1..];
  }

  /** The first snake whose id is ours. */
  method GetMySnake(myId: string, snakes: seq<Snake>) returns (r: Option<Snake>)
    ensures r == FirstMatch(snakes, myId, true)
  {
    for k := 0 to |snakes|
      invariant FirstMatch(snakes, myId, true) == FirstMatch(snakes[k..], myId, true)
    {
      if snakes[k].id == myId {
        return Some(snakes[k]);
      }
      FirstMatchSkip(snakes, myId, true, k);
    }
    return None;
  }

  /** The first snake whose id is not ours. */
  method GetOtherSnake(myId: string, snakes: seq<Snake>) returns (r: Option<Snake>)
    ensures r == FirstMatch(snakes, myId, false)
  {
    for k := 0 to |snakes|
      invariant FirstMatch(snakes, myId, false) == FirstMatch(snakes[k..], myId, false)
    {
      if snakes[k].id != myId {
        return Some(snakes[k]);
      }
      FirstMatchSkip(snakes, myId, false, k);
    }
    return None;
  }

  /** The same search as `GetOtherSnake`, over a whole request. */
  method GetTheirSnake(request: MoveRequest) returns (r: Option<Snake>)
    ensures r == FirstMatch(request.snakes, request.you, false)
  {
    r := GetOtherSnake(request.you, request.snakes);
  }

  /** With our snake first and an opponent second, the two searches find exactly those two. */
  lemma TwoPlayerLookups(snakes: seq<Snake>, you: string)
    requires |snakes| == 2 && snakes[0].id == you && snakes[1].id != you
    ensures FirstMatch(snakes, you, true) == Some(snakes[0])
    ensures FirstMatch(snakes, you, false) == Some(snakes[1])
  {
  }

  // ---------------------------------------------------------------------------------------
  // Size comparison
  // ---------------------------------------------------------------------------------------

  /** With no snake on the given side, the size the loop keeps for that side is 0. */
  lemma {:induction false} LastSizeNone(snakes: seq<Snake>, you: string, mine: bool)
    requires forall k :: 0 <= k < |snakes| ==> !Matches(snakes[k], you, mine)
    ensures LastSize(snakes, you, mine) == 0
    decreases |snakes|
  {
    if |snakes| > 0 {
      var init := snakes[..|snakes| - 1];
      assert forall k :: 0 <= k < |init| ==> init[k] == snakes[k];
      LastSizeNone(init, you, mine);
    }
  }

  /** Otherwise it is the size of the last snake on that side. */
  lemma {:induction false} LastSizeLast(snakes: seq<Snake>, you: string, mine: bool, k: nat)
    requires k < |snakes| && Matches(snakes[k], you, mine)
    requires forall j :: k < j < |snakes| ==> !Matches(snakes[j], you, mine)
    ensures LastSize(snakes, you, mine) == snakes[k].size
    decreases |snakes|
  {
    var n := |snakes| - 1;
    if k < n {
      var init := snakes[..n];
      assert init[k] == snakes[k];
      assert forall j :: k < j < |init| ==> init[j] == snakes[j];
      LastSizeLast(init, you, mine, k);
    }
  }

  /** On a board holding only our snake `me` and one opponent `other` (each possibly listed
      more than once), the two sizes the comparison reads are theirs. */
  lemma TwoPlayerSizes(snakes: seq<Snake>, you: string, me: Snake, other: Snake)
    requires me in snakes && me.id == you
    requires other in snakes && other.id != you
    requires forall s :: s in snakes ==> s == me || s == other
    ensures LastSize(snakes, you, true) == me.size
    ensures LastSize(snakes, you, false) == other.size
  {
    LastSizeOfOnly(snakes, you, true, me);
    LastSizeOfOnly(snakes, you, false, other);
  }

  /** When every snake on one side is `x` and there is one, that side's size is `x`'s. */
  lemma {:induction false} LastSizeOfOnly(snakes: seq<Snake>, you: string, mine: bool, x: Snake)
    requires x in snakes && Matches(x, you, mine)
    requires forall s :: s in snakes && Matches(s, you, mine) ==> s == x
    ensures LastSize(snakes, you, mine) == x.size
    decreases |snakes|
  {
    var last := snakes[|snakes| - 1];
    if !Matches(last, you, mine) {
      var init := snakes[..|snakes| - 1];
      assert snakes == init + [last];
      assert x in init;
      LastSizeOfOnly(init, you, mine, x);
    }
  }

  /** Whether our snake is strictly longer than the last opponent listed (0 if none). */
  method AttackOrNot(request: MoveRequest) returns (r: bool)
    ensures r == (LastSize(request.snakes, request.you, true) > LastSize(request.snakes, request.you, false))
  {
    var snakes := request.snakes;
    var ourId := request.you;
    var theirSize: i32 := 0;
    var ourSize: i32 := 0;
    for k := 0 to |snakes|
      invariant theirSize == LastSize(snakes[..k], ourId, false)
      invariant ourSize == LastSize(snakes[..k], ourId, true)
    {
      assert snakes[..k + 1][..k] == snakes[..k];
      if snakes[k].id != ourId {
        theirSize := snakes[k].size;
      } else {
        ourSize := snakes[k].size;
      }
    }
    assert snakes[..|snakes|] == snakes;
    r := ourSize > theirSize;
  }

  // ---------------------------------------------------------------------------------------
  // Safety filter
  // ---------------------------------------------------------------------------------------

  /** Whether a head moved to (newX, newY) dies for sure. */
  method IsPositionSuicidal(snakes: seq<Snake>, newX: i32, newY: i32, boardWidth: i32, boardHeight: i32)
    returns (r: bool)
    ensures r == Lethal(snakes, newX, newY, boardWidth, boardHeight)
  {
    if newX < 0 || newX == boardWidth {
      return true;
    }
    if newY < 0 || newY == boardHeight {
      return true;
    }
    for k := 0 to |snakes|
      invariant forall k', i :: 0 <= k' < k && 0 <= i < |snakes[k'].coords| - 1 ==> snakes[k'].coords[i] != (newX, newY)
    {
      var coords := snakes[k].coords;
      var i := 0;
      while i < |coords| - 1
        invariant 0 <= i
        invariant forall i' :: 0 <= i' < i && i' < |coords| - 1 ==> coords[i'] != (newX, newY)
      {
        var snakeX := coords[i].0;
        var snakeY := coords[i].1;
        if newX == snakeX && newY == snakeY {
          return true;
        }
        i := i + 1;
      }
    }
    return false;
  }

  /** The candidate list: each direction whose target cell is not suicidal, tried in the order
      UP, DOWN, LEFT, RIGHT. */
  method CandidateMoves(snakes: seq<Snake>, headX: i32, headY: i32, boardWidth: i32, boardHeight: i32)
    returns (possibleMoves: seq<Move>)
    ensures possibleMoves == SafeMoves(snakes, (headX, headY), boardWidth, boardHeight)
  {
    ghost var head := (headX, headY);
    assert Step(head, Up) == (headX, Wrap(headY as int - 1));
    assert Step(head, Down) == (headX, Wrap(headY as int + 1));
    assert Step(head, Left) == (Wrap(headX as int - 1), headY);
    assert Step(head, Right) == (Wrap(headX as int + 1), headY);
    possibleMoves := [];
    var suicidal := IsPositionSuicidal(snakes, headX, Wrap(headY as int - 1), boardWidth, boardHeight);
    if !suicidal { possibleMoves := possibleMoves + [Up]; }
    suicidal := IsPositionSuicidal(snakes, headX, Wrap(headY as int + 1), boardWidth, boardHeight);
    if !suicidal { possibleMoves := possibleMoves + [Down]; }
    suicidal := IsPositionSuicidal(snakes, Wrap(headX as int - 1), headY, boardWidth, boardHeight);
    if !suicidal { possibleMoves := possibleMoves + [Left]; }
    suicidal := IsPositionSuicidal(snakes, Wrap(headX as int + 1), headY, boardWidth, boardHeight);
    if !suicidal { possibleMoves := possibleMoves + [Right]; }
  }

  /** A direction is a candidate exactly when its target cell is not lethal. */
  lemma SafeMovesSpec(snakes: seq<Snake>, head: Coord, boardWidth: i32, boardHeight: i32)
    ensures forall m :: m in SafeMoves(snakes, head, boardWidth, boardHeight) <==>
              !Lethal(snakes, Step(head, m).0, Step(head, m).1, boardWidth, boardHeight)
  {
  }

  /** The candidates appear in the order UP, DOWN, LEFT, RIGHT, each at most once. */
  lemma SafeMovesOrdered(snakes: seq<Snake>, head: Coord, boardWidth: i32, boardHeight: i32)
    ensures var safe := SafeMoves(snakes, head, boardWidth, boardHeight);
            forall i, j :: 0 <= i < j < |safe| ==> Rank(safe[i]) < Rank(safe[j])
  {
  }

  /** For a head inside the board, the controller's `==` tests on the far edges reject exactly
      the cells outside [0, width) x [0, height). */
  lemma OnBoardWallTest(head: Coord, m: Move, boardWidth: i32, boardHeight: i32)
    requires 0 <= head.0 < boardWidth && 0 <= head.1 < boardHeight
    ensures var c := Step(head, m);
            HitsWall(c.0, c.1, boardWidth, boardHeight) <==>
              !(0 <= c.0 < boardWidth && 0 <= c.1 < boardHeight)
  {
  }

  /** A head in the leftmost column never keeps LEFT as a candidate. */
  lemma LeftEdgeExcludesLeft(snakes: seq<Snake>, head: Coord, boardWidth: i32, boardHeight: i32)
    requires head.0 == 0
    ensures Left !in SafeMoves(snakes, head, boardWidth, boardHeight)
  {
    SafeMovesSpec(snakes, head, boardWidth, boardHeight);
    assert Step(head, Left).0 as int == -1;
  }

  /** A head whose four neighbours are all non-tail segments (of any snakes) has no safe direction. */
  lemma SurroundedHasNoSafeMove(snakes: seq<Snake>, head: Coord, boardWidth: i32, boardHeight: i32)
    requires forall m: Move :: OnBody(snakes, Step(head, m).0, Step(head, m).1)
    ensures SafeMoves(snakes, head, boardWidth, boardHeight) == []
  {
    SafeMovesSpec(snakes, head, boardWidth, boardHeight);
  }

  /** A distant opponent for the example boards, so that `getTheirSnake` finds a snake and the
      turn reaches the final pick. */
  function FarOpponent(): Snake
  {
    Snake("them", "them", [(0, 0), (0, 1), (0, 2)], 3)
  }

  /** A snake coiled round its own head: every neighbour of its head is one of its own segments,
      none of them its tail. */
  function CoiledSnake(): Snake
  {
    Snake("me", "me", [(5, 5), (5, 4), (4, 4), (4, 5), (4, 6), (5, 6), (6, 6), (6, 5), (6, 4)], 9)
  }

  /** A 10 x 10 board with the coiled snake and the distant opponent. */
  function CoiledRequest(): MoveRequest
  {
    MoveRequest(10, 10, "me", [CoiledSnake(), FarOpponent()], [(9, 9)])
  }

  /** On that board our head at (5, 5) is surrounded. */
  lemma CoiledSnakeIsSurrounded()
    ensures forall m: Move :: OnBody(CoiledRequest().snakes, Step((5, 5), m).0, Step((5, 5), m).1)
  {
    var snakes := CoiledRequest().snakes;
    forall m: Move ensures OnBody(snakes, Step((5, 5), m).0, Step((5, 5), m).1) {
      var i := match m case Up => 1 case Down => 5 case Left => 3 case Right => 7;
      assert snakes[0].coords[i] == Step((5, 5), m);
    }
  }

  /** The coiled snake's turn: DOWN with the forced-move taunt, whatever the random draws. */
  method CoiledSnakeDecision(foodRoll: nat, moveRoll: nat) returns (move: Move, taunt: string)
    ensures move == Down && taunt == "Nooooooo!"
  {
    var request := CoiledRequest();
    CoiledSnakeIsSurrounded();
    SurroundedHasNoSafeMove(request.snakes, (5, 5), 10, 10);
    move, taunt := ChooseMove(request, foodRoll, moveRoll);
  }

  // ---------------------------------------------------------------------------------------
  // Food heuristic
  // ---------------------------------------------------------------------------------------

  /** The heuristic's pick for a given draw of the random source, or none when the head is on the food. */
  ghost function FoodPick(head: Coord, food: Coord, roll: nat): Option<Move>
  {
    var foods := FoodMoves(head, food);
    if |foods| == 0 then None else Some(foods[roll % |foods|])
  }

  /** A random direction towards the first food cell, or none when the head is on it. */
  method GetFood(ourCoords: seq<Coord>, foodCoords: seq<Coord>, roll: nat) returns (r: Option<Move>)
    requires |ourCoords| > 0 && |foodCoords| > 0
    ensures r == FoodPick(ourCoords[0], foodCoords[0], roll)
    ensures r.None? <==> ourCoords[0] == foodCoords[0]
    ensures r.Some? ==> r.value in FoodMoves(ourCoords[0], foodCoords[0])
  {
    var foodMoves: seq<Move> := [];
    if ourCoords[0].0 > foodCoords[0].0 { foodMoves := foodMoves + [Left]; }
    if ourCoords[0].0 < foodCoords[0].0 { foodMoves := foodMoves + [Right]; }
    if ourCoords[0].1 > foodCoords[0].1 { foodMoves := foodMoves + [Up]; }
    if ourCoords[0].1 < foodCoords[0].1 { foodMoves := foodMoves + [Down]; }
    assert foodMoves == FoodMoves(ourCoords[0], foodCoords[0]);
    if |foodMoves| == 0 {
      return None;
    } else {
      return Some(foodMoves[roll % |foodMoves|]);
    }
  }

  /** Every direction the heuristic lists is the pick of some draw, so modelling the random
      index as `roll % n` leaves no choice of the source out. */
  lemma FoodPickReachesEveryChoice(head: Coord, food: Coord, m: Move)
    requires m in FoodMoves(head, food)
    ensures exists roll: nat :: FoodPick(head, food, roll) == Some(m)
  {
    var foods := FoodMoves(head, food);
    var i :| 0 <= i < |foods| && foods[i] == m;
    assert FoodPick(head, food, i) == Some(m);
  }

  /** Each direction the heuristic can pick points at the food along its own axis, and every
      such pick is one cell closer to it (no wrap-around can occur on such a step). */
  lemma FoodMovesSpec(head: Coord, food: Coord)
    ensures FoodMoves(head, food) == [] <==> head == food
    ensures Left in FoodMoves(head, food) <==> head.0 > food.0
    ensures Right in FoodMoves(head, food) <==> head.0 < food.0
    ensures Up in FoodMoves(head, food) <==> head.1 > food.1
    ensures Down in FoodMoves(head, food) <==> head.1 < food.1
    ensures forall m :: m in FoodMoves(head, food) ==> Manhattan(Step(head, m), food) + 1 == Manhattan(head, food)
  {
  }

  /** Head at (5, 5) on a 10 x 10 board, food straight up at (5, 2), the opponent far off. */
  function FoodAheadRequest(): MoveRequest
  {
    MoveRequest(10, 10, "me", [Snake("me", "me", [(5, 5), (5, 6)], 2), FarOpponent()], [(5, 2)])
  }

  /** On that board the heuristic's only direction is UP and UP is safe, so `ChooseMove` must
      answer UP. */
  lemma FoodStraightAhead()
    ensures var r := FoodAheadRequest();
            FoodMoves((5, 5), r.food[0]) == [Up] && Up in SafeMoves(r.snakes, (5, 5), r.width, r.height)
  {
    var snakes := FoodAheadRequest().snakes;
    SafeMovesSpec(snakes, (5, 5), 10, 10);
    assert Step((5, 5), Up) == (5, 4);
    assert !OnBody(snakes, 5, 4) by {
      forall k, i | 0 <= k < 2 && 0 <= i < |snakes[k].coords| - 1
        ensures snakes[k].coords[i] != (5, 4)
      {
        assert k == 0 || k == 1;
      }
    }
  }

  // ---------------------------------------------------------------------------------------
  // The move decision
  // ---------------------------------------------------------------------------------------

  /** Our own snake's head, for a request the decision can handle. */
  ghost function OwnHead(request: MoveRequest): Coord
    requires FirstMatch(request.snakes, request.you, true).Some?
    requires |FirstMatch(request.snakes, request.you, true).value.coords| > 0
  {
    FirstMatch(request.snakes, request.you, true).value.coords[0]
  }

  /** One turn's decision. `foodRoll` and `moveRoll` are the two draws of the random source;
      `nextInt(n)` yields `roll % n`. */
  method ChooseMove(request: MoveRequest, foodRoll: nat, moveRoll: nat) returns (move: Move, taunt: string)
    requires FirstMatch(request.snakes, request.you, true).Some?
    requires |FirstMatch(request.snakes, request.you, true).value.coords| > 0
    requires |request.food| > 0
    ensures var safe := SafeMoves(request.snakes, OwnHead(request), request.width, request.height);
            safe == [] ==> move == Down && taunt == "Nooooooo!"
    ensures var safe := SafeMoves(request.snakes, OwnHead(request), request.width, request.height);
            safe != [] ==>
              && move in safe
              && !Lethal(request.snakes, Step(OwnHead(request), move).0, Step(OwnHead(request), move).1,
                         request.width, request.height)
              && taunt == OtherTaunt(FirstMatch(request.snakes, request.you, false))
    ensures var safe := SafeMoves(request.snakes, OwnHead(request), request.width, request.height);
            var food := FoodPick(OwnHead(request), request.food[0], foodRoll);
            move == if food.Some? && food.value in safe then food.value
                    else if safe == [] then Down
                    else safe[moveRoll % |safe|]
    ensures var safe := SafeMoves(request.snakes, OwnHead(request), request.width, request.height);
            var foods := FoodMoves(OwnHead(request), request.food[0]);
            foods != [] && (forall m :: m in foods ==> m in safe) ==> move in foods
  {
    var boardWidth := request.width;
    var boardHeight := request.height;

    var me := GetMySnake(request.you, request.snakes);
    var otherSnake := GetOtherSnake(request.you, request.snakes);

    var head := me.value.coords[0];
    var headX := head.0;
    var headY := head.1;

    move := Down;
    var foodMove := GetFood(me.value.coords, request.food, foodRoll);
    var attack := AttackOrNot(request);

    var possibleMoves := CandidateMoves(request.snakes, headX, headY, boardWidth, boardHeight);
    SafeMovesSpec(request.snakes, head, boardWidth, boardHeight);

    taunt := "Boo!";
    if |possibleMoves| == 0 {
      taunt := "Nooooooo!";
      possibleMoves := possibleMoves + [Down];
    } else {
      if otherSnake.Some? {
        taunt := otherSnake.value.name + "'s mother was a garden hose!";
      }
    }

    if foodMove.Some? && foodMove.value in possibleMoves {
      move := foodMove.value;
    } else {
      move := possibleMoves[moveRoll % |possibleMoves|];
    }
  }

  /** With the food straight up and UP safe, the decision is UP whatever the random draws. */
  method FoodAheadDecision(foodRoll: nat, moveRoll: nat) returns (move: Move)
    ensures move == Up
  {
    var request := FoodAheadRequest();
    FoodStraightAhead();
    var taunt;
    move, taunt := ChooseMove(request, foodRoll, moveRoll);
  }

  /** Our body curls left of the head and the food is up and to the left; the opponent is far off. */
  function UnsafeFoodRequest(): MoveRequest
  {
    MoveRequest(10, 10, "me", [Snake("me", "me", [(5, 5), (5, 6), (4, 6), (4, 5), (3, 5)], 5), FarOpponent()], [(4, 4)])
  }

  /** On that board the first draw picks LEFT, which runs into our own body, so the pick is
      dropped; the candidates are UP and RIGHT, and UP, though safe and towards the food, is not
      preferred. */
  lemma UnsafeFoodPickIgnoresOtherFoodDirection()
    ensures var r := UnsafeFoodRequest();
            var safe := SafeMoves(r.snakes, (5, 5), r.width, r.height);
            && FoodMoves((5, 5), r.food[0]) == [Left, Up]
            && FoodPick((5, 5), r.food[0], 0) == Some(Left)
            && safe == [Up, Right]
  {
    var snakes := UnsafeFoodRequest().snakes;
    assert snakes[0].coords[1] == Step((5, 5), Down);
    assert snakes[0].coords[3] == Step((5, 5), Left);
    assert !OnBody(snakes, 5, 4) && !OnBody(snakes, 6, 5) by {
      forall k, i | 0 <= k < 2 && 0 <= i < |snakes[k].coords| - 1
        ensures snakes[k].coords[i] != (5, 4) && snakes[k].coords[i] != (6, 5)
      {
        assert k == 0 || k == 1;
      }
    }
  }

  /** That board's turn with the draws 0 and 1: the move is RIGHT, away from the food, with the
      opponent's taunt. */
  method UnsafeFoodPickDecision() returns (move: Move, taunt: string)
    ensures move == Right && taunt == FarOpponent().name + "'s mother was a garden hose!"
  {
    var request := UnsafeFoodRequest();
    UnsafeFoodPickIgnoresOtherFoodDirection();
    TwoPlayerLookups(request.snakes, request.you);
    move, taunt := ChooseMove(request, 0, 1);
  }

  // ---------------------------------------------------------------------------------------
  // Distance comparison
  // ---------------------------------------------------------------------------------------

  /** Coordinates far enough from the `int` limits that no step of a distance computation wraps. */
  predicate Small(c: Coord)
  {
    0 <= c.0 < 0x2000_0000 && 0 <= c.1 < 0x2000_0000
  }

  /** The controller's distance from a head to the food: `Math.abs((x - fx) + (y - fy))` in Java `int`. */
  function SumDistance(c: Coord, food: Coord): (d: i32)
    ensures var sum := (c.0 as int - food.0 as int) + (c.1 as int - food.1 as int);
            Small(c) && Small(food) ==> d as int == if sum < 0 then -sum else sum
  {
    Abs(Wrap(Wrap(c.0 as int - food.0 as int) as int + Wrap(c.1 as int - food.1 as int) as int))
  }

  /** Whether our head is at least as close to the food as the other head, by `SumDistance`. */
  function CloserToFood(ourCoords: seq<Coord>, otherCoords: seq<Coord>, foodCoords: Coord): (r: bool)
    requires |ourCoords| > 0 && |otherCoords| > 0
    ensures ourCoords[0] == otherCoords[0] ==> r
  {
    !(SumDistance(ourCoords[0], foodCoords) > SumDistance(otherCoords[0], foodCoords))
  }

  /** On realistic boards `CloserToFood` compares |dx + dy|, the absolute value of the summed offsets. */
  lemma CloserToFoodOnBoard(ourCoords: seq<Coord>, otherCoords: seq<Coord>, foodCoords: Coord)
    requires |ourCoords| > 0 && |otherCoords| > 0
    requires Small(ourCoords[0]) && Small(otherCoords[0]) && Small(foodCoords)
    ensures var ours := (ourCoords[0].0 as int - foodCoords.0 as int) + (ourCoords[0].1 as int - foodCoords.1 as int);
            var theirs := (otherCoords[0].0 as int - foodCoords.0 as int) + (otherCoords[0].1 as int - foodCoords.1 as int);
            CloserToFood(ourCoords, otherCoords, foodCoords) <==>
              (if ours < 0 then -ours else ours) <= (if theirs < 0 then -theirs else theirs)
  {
  }

  /** |dx + dy| is not a distance: here our head is two cells from the food and the other head
      one cell, yet the comparison says we are closer. */
  lemma CloserToFoodIsNotManhattan()
    ensures CloserToFood([(4, 6)], [(5, 4)], (5, 5))
    ensures Manhattan((4, 6), (5, 5)) > Manhattan((5, 4), (5, 5))
  {
  }

  /** The per-axis distance `Math.abs(x - fx) + Math.abs(y - fy)` in Java `int`. */
  function AxisDistance(c: Coord, food: Coord): i32
  {
    Wrap(Abs(Wrap(c.0 as int - food.0 as int)) as int + Abs(Wrap(c.1 as int - food.1 as int)) as int)
  }

  /** The comparison with the per-axis magnitudes summed, as `closerToFood` evidently means it. */
  function CloserToFoodManhattan(ourCoords: seq<Coord>, otherCoords: seq<Coord>, foodCoords: Coord): (r: bool)
    requires |ourCoords| > 0 && |otherCoords| > 0
    ensures ourCoords[0] == otherCoords[0] ==> r
  {
    !(AxisDistance(ourCoords[0], foodCoords) > AxisDistance(otherCoords[0], foodCoords))
  }

  /** On realistic boards the corrected comparison is the grid distance comparison. */
  lemma CloserToFoodManhattanOnBoard(ourCoords: seq<Coord>, otherCoords: seq<Coord>, foodCoords: Coord)
    requires |ourCoords| > 0 && |otherCoords| > 0
    requires Small(ourCoords[0]) && Small(otherCoords[0]) && Small(foodCoords)
    ensures CloserToFoodManhattan(ourCoords, otherCoords, foodCoords) <==>
              Manhattan(ourCoords[0], foodCoords) <= Manhattan(otherCoords[0], foodCoords)
  {
    AxisDistanceIsManhattan(ourCoords[0], foodCoords);
    AxisDistanceIsManhattan(otherCoords[0], foodCoords);
  }

  /** Away from the `int` limits none of the steps of `AxisDistance` wraps. */
  lemma AxisDistanceIsManhattan(c: Coord, food: Coord)
    requires Small(c) && Small(food)
    ensures AxisDistance(c, food) as int == Manhattan(c, food)
  {
    var dx := Wrap(c.0 as int - food.0 as int);
    var dy := Wrap(c.1 as int - food.1 as int);
    assert dx as int == c.0 as int - food.0 as int;
    assert dy as int == c.1 as int - food.1 as int;
    var ax := Abs(dx) as int;
    var ay := Abs(dy) as int;
    assert ax == (if c.0 >= food.0 then c.0 as int - food.0 as int else food.0 as int - c.0 as int);
    assert ay == (if c.1 >= food.1 then c.1 as int - food.1 as int else food.1 as int - c.1 as int);
    assert 0 <= ax + ay <= MAX;
  }
}
