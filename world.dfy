/**
 * The example game's world: a grid of walls with a solid border and a few
 * walls placed at random inside it, and a player who never walks into a wall.
 */
module ExampleWorld {

  /** A wall after `_make_walls`: a cell of the border, or one of the randomly drawn spots. */
  predicate WallAt(width: nat, height: nat, spots: seq<(int, int)>, x: int, y: int)
  {
    x == 0 || x == width - 1 || y == 0 || y == height - 1 || (x, y) in spots
  }

  /** What `randint(1, dim - 1)` can return: both bounds included. */
  predicate SpotsInRange(width: nat, height: nat, spots: seq<(int, int)>)
  {
    forall i | 0 <= i < |spots| :: 1 <= spots[i].0 <= width - 1 && 1 <= spots[i].1 <= height - 1
  }

  /** numpy's reading of an index from -n to n - 1: a negative one counts from the end. */
  function Wrap(i: int, n: nat): int { if i < 0 then i + n else i }

  /**
   * `_make_walls`: the top and bottom rows, then the left and right columns,
   * then one wall for each drawn spot.
   */
  method MakeWalls(width: nat, height: nat, spots: seq<(int, int)>) returns (walls: array2<bool>)
    requires 1 <= width && 1 <= height
    requires SpotsInRange(width, height, spots)
    ensures fresh(walls) && walls.Length0 == width && walls.Length1 == height
    ensures forall x, y | 0 <= x < width && 0 <= y < height :: walls[x, y] == WallAt(width, height, spots, x, y)
  {
    walls := new bool[width, height]((x, y) => false);
    for x := 0 to width
      invariant forall i, j | 0 <= i < width && 0 <= j < height :: walls[i, j] == (i < x && (j == 0 || j == height - 1))
    {
      walls[x, 0] := true;
      walls[x, height - 1] := true;
    }
    for y := 0 to height
      invariant forall i, j | 0 <= i < width && 0 <= j < height ::
        walls[i, j] == (j == 0 || j == height - 1 || (j < y && (i == 0 || i == width - 1)))
    {
      walls[0, y] := true;
      walls[width - 1, y] := true;
    }
    for k := 0 to |spots|
      invariant forall i, j | 0 <= i < width && 0 <= j < height ::
        walls[i, j] == (i == 0 || i == width - 1 || j == 0 || j == height - 1 || (i, j) in spots[..k])
    {
      walls[spots[k].0, spots[k].1] := true;
    }
    assert spots[..|spots|] == spots;
  }

  class World {
    const width: nat
    const height: nat
    var walls: array2<bool>
    var player: (int, int)

    /** Every border cell is a wall. */
    predicate Enclosed()
      reads this, walls
    {
      walls.Length0 == width && walls.Length1 == height && 1 <= width && 1 <= height
      && (forall x | 0 <= x < width :: walls[x, 0] && walls[x, height - 1])
      && (forall y | 0 <= y < height :: walls[0, y] && walls[width - 1, y])
    }

    /** The player stands inside the grid, on a cell that is not a wall. */
    predicate OnFloor()
      reads this, walls
    {
      walls.Length0 == width && walls.Length1 == height
      && 0 <= player.0 < width && 0 <= player.1 < height && !walls[player.0, player.1]
    }

    /** `World.__init__`: the walls, then the player in the middle, on a cell cleared of any wall. */
    constructor (width: nat, height: nat, spots: seq<(int, int)>)
      requires 1 <= width && 1 <= height && SpotsInRange(width, height, spots)
      ensures this.width == width && this.height == height && fresh(walls)
      ensures player == (width / 2, height / 2)
      ensures walls.Length0 == width && walls.Length1 == height
      ensures forall x, y | 0 <= x < width && 0 <= y < height ::
        walls[x, y] == (WallAt(width, height, spots, x, y) && (x, y) != (width / 2, height / 2))
      ensures OnFloor()
      ensures 3 <= width && 3 <= height ==> Enclosed()
    {
      this.width := width;
      this.height := height;
      var grid := MakeWalls(width, height, spots);
      walls := grid;
      player := (width / 2, height / 2);
      new;
      walls[width / 2, height / 2] := false;
    }

    /**
     * `move_player`: step by the offset unless the target is a wall. The
     * target must be an index numpy accepts (a negative one counts from the
     * far side); the walls never change.
     */
    method MovePlayer(dx: int, dy: int)
      requires walls.Length0 == width && walls.Length1 == height
      requires -(width as int) <= player.0 + dx < width && -(height as int) <= player.1 + dy < height
      modifies this
      ensures walls == old(walls)
      ensures walls[Wrap(old(player.0) + dx, width), Wrap(old(player.1) + dy, height)] ==> player == old(player)
      ensures !walls[Wrap(old(player.0) + dx, width), Wrap(old(player.1) + dy, height)] ==>
        player == (old(player.0) + dx, old(player.1) + dy)
      ensures Enclosed() == old(Enclosed())
      ensures old(Enclosed()) && old(OnFloor()) && -1 <= dx <= 1 && -1 <= dy <= 1 ==> OnFloor()
    {
      var target := (player.0 + dx, player.1 + dy);
      if walls[Wrap(target.0, width), Wrap(target.1, height)] {
        return;
      }
      player := target;
    }
  }
}
