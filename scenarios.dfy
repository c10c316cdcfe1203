/** What a client can conclude from the contracts of the hotel engine alone:
    worked examples of the booking and billing rules on a freshly
    constructed hotel. */
module Scenarios {
  import opened Entities
  import opened Ledger
  import opened Hotel

  /** Two Single rooms cost their plain sum. */
  method TwoRoomsFullPrice() returns (bill: real)
    ensures bill == 5000.0
  {
    var hotel := new HotelManagementSystem();
    ghost var rs0 := hotel.rooms[..];
    assert FirstMatch(hotel.customers[..], "") == 0;
    var b := hotel.BookRoom(2, "Alice", [1, 3], 1000);
    assert Usable(rs0, [1, 3], 0) && Usable(rs0, [1, 3], 1);
    assert [1, 3][..2] == [1, 3] && [1, 3][..1] == [1];
    bill := b.bill;
  }

  /** Three rooms in one booking get the 20% bulk discount. */
  method ThreeRoomsDiscounted() returns (bill: real)
    ensures bill == 6000.0
  {
    var hotel := new HotelManagementSystem();
    ghost var rs0 := hotel.rooms[..];
    assert FirstMatch(hotel.customers[..], "") == 0;
    var b := hotel.BookRoom(3, "Bob", [5, 7, 9], 1000);
    assert Usable(rs0, [5, 7, 9], 0) && Usable(rs0, [5, 7, 9], 1) && Usable(rs0, [5, 7, 9], 2);
    assert [5, 7, 9][..3] == [5, 7, 9] && [5, 7, 9][..2] == [5, 7] && [5, 7][..1] == [5];
    bill := b.bill;
  }

  /** Choosing two different listed dishes that were not yet ordered adds
      both prices to the bill. */
  lemma {:induction false} TwoNewDishesCostBoth(c: Customer, menu: seq<Food>, a: int, b: int)
    requires |menu| == MaxFoodItems
    requires 1 <= a <= MaxFoodItems && 1 <= b <= MaxFoodItems && a != b
    requires menu[a - 1].name != "" && menu[b - 1].name != ""
    requires !c.hasFoodOrdered[a - 1] && !c.hasFoodOrdered[b - 1]
    ensures OrderAll(c, menu, [a, b]).totalBill == c.totalBill + menu[a - 1].price + menu[b - 1].price
  {
    assert [a, b][..1] == [a] && [a][..0] == [];
    assert OrderAll(c, menu, [a]) == OrderStep(c, menu, a);
  }

  /** Ordering MacnCheese and Lobster adds 12.99 + 19.99 to the bill. */
  method OrderTwoDishes() returns (before: real, after: real)
    ensures after - before == 32.98
  {
    var hotel := new HotelManagementSystem();
    ghost var menu := hotel.foodItems[..];
    assert menu[0].price == 12.99 && menu[1].price == 19.99;
    assert menu[0].name != "" && menu[1].name != "";
    ghost var rs0 := hotel.rooms[..];
    assert FirstMatch(hotel.customers[..], "") == 0;
    var b := hotel.BookRoom(1, "Alice", [1], 1000);
    assert Usable(rs0, [1], 0);
    before := hotel.customers[0].totalBill;
    ghost var c1 := hotel.customers[0];
    assert FirstMatch(hotel.customers[..], "Alice") == 0;
    var o := hotel.OrderFood("Alice", [1, 2]);
    TwoNewDishesCostBoth(c1, menu, 1, 2);
    after := hotel.customers[0].totalBill;
  }

  /** A booking cancelled within the hour forfeits 20% of its bill and frees its room. */
  method CancelWithinAnHour() returns (bill: real, roomFreed: bool)
    ensures bill == 2000.0
    ensures roomFreed
  {
    var hotel := new HotelManagementSystem();
    ghost var rs0 := hotel.rooms[..];
    assert FirstMatch(hotel.customers[..], "") == 0;
    var b := hotel.BookRoom(1, "Carol", [1], 0);
    assert Usable(rs0, [1], 0);
    assert FirstMatch(hotel.customers[..], "Carol") == 0;
    var x := hotel.CancelRoomBooking("Carol", 3600);
    bill := hotel.customers[0].totalBill;
    roomFreed := !hotel.rooms[0].occupied;
  }

  /** A booking cancelled after fifty hours forfeits all of its bill. */
  method CancelAfterFiftyHours() returns (bill: real)
    ensures bill == 0.0
  {
    var hotel := new HotelManagementSystem();
    ghost var rs0 := hotel.rooms[..];
    assert FirstMatch(hotel.customers[..], "") == 0;
    var b := hotel.BookRoom(1, "Dave", [2], 0);
    assert Usable(rs0, [2], 0);
    assert FirstMatch(hotel.customers[..], "Dave") == 0;
    var x := hotel.CancelRoomBooking("Dave", 50 * 3600);
    bill := hotel.customers[0].totalBill;
  }

  /** Requesting room 1 twice in one booking aborts at the second request,
      but the first request has already occupied room 1 and the customer slot
      keeps the name, with no bill set. */
  method AbortedBookingKeepsRoom() returns (outcome: BookingOutcome, roomOneOccupied: bool, slotName: string, bill: real)
    ensures outcome == RoomUnavailable(0, 1)
    ensures roomOneOccupied
    ensures slotName == "Eve"
    ensures bill == 0.0
  {
    var hotel := new HotelManagementSystem();
    ghost var rs0 := hotel.rooms[..];
    assert FirstMatch(hotel.customers[..], "") == 0;
    outcome := hotel.BookRoom(2, "Eve", [1, 1], 0);
    assert Usable(rs0, [1, 1], 0) && !Usable(rs0, [1, 1], 1);
    assert [1, 1][..1] == [1];
    roomOneOccupied := hotel.rooms[0].occupied;
    slotName := hotel.customers[0].name;
    bill := hotel.customers[0].totalBill;
  }

  /** Cancelling a booking frees its room but keeps the customer's name,
      room count and room list. */
  method CancelKeepsRoomList() returns (hotel: HotelManagementSystem)
    ensures hotel.Valid() && fresh(hotel.rooms) && fresh(hotel.customers) && fresh(hotel.foodItems)
    ensures !hotel.rooms[0].occupied
    ensures hotel.customers[0].name == "Carol" && !hotel.customers[0].checkedIn
    ensures hotel.customers[0].roomCount == 1 && hotel.customers[0].roomNumbers[0] == 1
    ensures forall k :: 1 <= k < MaxCustomers ==> hotel.customers[k].name == ""
  {
    hotel := new HotelManagementSystem();
    ghost var rs0 := hotel.rooms[..];
    assert FirstMatch(hotel.customers[..], "") == 0;
    var b := hotel.BookRoom(1, "Carol", [1], 0);
    assert Usable(rs0, [1], 0);
    assert FirstMatch(hotel.customers[..], "Carol") == 0;
    assert hotel.customers[0].roomCount == 1 && hotel.customers[0].roomNumbers[0] == 1;
    var x := hotel.CancelRoomBooking("Carol", 60);
  }

  /** Because the room list survives cancellation, a later check-in and
      check-out of that customer vacates a room that another customer has
      booked in the meantime. */
  method StaleRoomListFreesOthersRoom() returns (heldByDave: bool, occupiedAfter: bool)
    ensures heldByDave
    ensures !occupiedAfter
  {
    var hotel := CancelKeepsRoomList();
    ghost var rs1 := hotel.rooms[..];
    assert FirstMatch(hotel.customers[..], "") == 1;
    var b2 := hotel.BookRoom(1, "Dave", [1], 120);
    assert Usable(rs1, [1], 0);
    heldByDave := hotel.rooms[0].occupied && hotel.customers[1].roomNumbers[0] == 1;
    assert hotel.customers[0].roomCount == 1 && hotel.customers[0].roomNumbers[0] == 1;

    assert FirstMatch(hotel.customers[..], "Carol") == 0;
    var c := hotel.CheckIn("Carol");
    assert FirstMatch(hotel.customers[..], "Carol") == 0;
    var o := hotel.CheckOut("Carol");
    occupiedAfter := hotel.rooms[0].occupied;
  }
}
