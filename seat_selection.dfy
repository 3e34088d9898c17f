/**
 * The seat map: a 5 x 5 grid of seat ids, a fixed list of occupied seats,
 * and the one selected seat, which a tap on a free seat replaces.
 */
module SeatSelection {
  import opened Text
  import opened Wrappers

  const Columns: seq<string> := ["A", "B", "C", "D", "E"]

  /** Rows `1...5`. */
  const RowCount: nat := 5

  /** `"\(column)\(row)"`. */
  function SeatId(column: string, row: nat): (id: string)
  {
    column + NatToString(row)
  }

  /** Every seat, row by row, columns left to right. */
  function Grid(): (g: seq<string>)
    ensures |g| == |Columns| * RowCount
  {
    seq(|Columns| * RowCount, i requires 0 <= i < |Columns| * RowCount => SeatId(Columns[i % |Columns|], i / |Columns| + 1))
  }

  const Occupied: seq<string> := ["B2", "B3", "A5", "B5", "C5", "D2", "E2"]

  /** The id of seat (column c, row r) is the column letter followed by the row digit. */
  lemma SeatIdShape(c: nat, r: nat)
    requires c < |Columns| && 1 <= r <= RowCount
    ensures SeatId(Columns[c], r) == [Columns[c][0], DigitChar(r)]
    ensures 'A' <= Columns[c][0] <= 'E' && '1' <= DigitChar(r) <= '5'
  {
  }

  /** 25 seats, all distinct, each a letter A to E followed by a digit 1 to 5. */
  lemma GridShape()
    ensures |Grid()| == 25
    ensures forall i :: 0 <= i < |Grid()| ==>
              |Grid()[i]| == 2 && 'A' <= Grid()[i][0] <= 'E' && '1' <= Grid()[i][1] <= '5'
    ensures forall i, j :: 0 <= i < j < |Grid()| ==> Grid()[i] != Grid()[j]
  {
    var g := Grid();
    forall i | 0 <= i < |g|
      ensures g[i] == [Columns[i % 5][0], DigitChar(i / 5 + 1)]
      ensures 'A' <= g[i][0] <= 'E' && '1' <= g[i][1] <= '5'
    {
      SeatIdShape(i % 5, i / 5 + 1);
    }
    forall i, j | 0 <= i < j < |g| ensures g[i] != g[j] {
      if i % 5 != j % 5 {
        assert g[i][0] != g[j][0];
      } else {
        assert i / 5 != j / 5;
        assert g[i][1] != g[j][1];
      }
    }
  }

  /** Every occupied seat is a seat of the grid. */
  lemma OccupiedInGrid()
    ensures forall s :: s in Occupied ==> s in Grid()
  {
    var g := Grid();
    SeatIdShape(1, 2); assert g[6] == "B2";
    SeatIdShape(1, 3); assert g[11] == "B3";
    SeatIdShape(0, 5); assert g[20] == "A5";
    SeatIdShape(1, 5); assert g[21] == "B5";
    SeatIdShape(2, 5); assert g[22] == "C5";
    SeatIdShape(3, 2); assert g[8] == "D2";
    SeatIdShape(4, 2); assert g[9] == "E2";
  }

  /** The seat map's selection. */
  class SeatMap {
    var selectedSeat: Option<string>

    /** Nothing, or a free seat of the grid, is selected. */
    ghost predicate Valid()
      reads this
    {
      selectedSeat.Some? ==> selectedSeat.value in Grid() && selectedSeat.value !in Occupied
    }

    constructor ()
      ensures Valid() && selectedSeat == None
    {
      selectedSeat := None;
    }

    /** A seat shows as selected when it is the selected seat. */
    function IsSelected(seatId: string): bool
      reads this
    {
      selectedSeat == Some(seatId)
    }

    /** A tap on a seat button: ignored on an occupied seat, otherwise that seat becomes the selection. */
    method Tap(seatId: string)
      requires Valid() && seatId in Grid()
      modifies this
      ensures Valid()
      ensures seatId in Occupied ==> selectedSeat == old(selectedSeat)
      ensures seatId !in Occupied ==> selectedSeat == Some(seatId)
      ensures seatId !in Occupied ==> forall s :: IsSelected(s) <==> s == seatId
    {
      var isOccupied := seatId in Occupied;
      if !isOccupied {
        selectedSeat := Some(seatId);
      }
    }
  }
}
