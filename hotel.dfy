/** The hotel engine: one object owning the room table, the customer ledger
    and the food menu, each a fixed-size array updated in place. Every menu
    operation of the console program is a method here whose operator input
    (names, counts, room and food numbers, prices, the clock) is passed in as
    parameters, and whose printed message is returned as an outcome value. */
module Hotel {
  import opened Entities
  import opened Ledger

  /** Names and prices of the menu the hotel starts with; the last two slots are free. */
  const InitialFoodNames: seq<string> :=
    ["MacnCheese", "Lobster", "Tiramisu", "Beef Steak", "Churro", "Pizza Bread", "Prawns", "Chowmein", "", ""]
  const InitialFoodPrices: seq<real> :=
    [12.99, 19.99, 22.99, 25.99, 15.99, 13.49, 10.99, 10.49, 0.0, 0.0]

  datatype BookingOutcome =
    | InvalidCount                          // "Invalid count."
    | CustomerListFull                      // "Customer list full."
    | RoomUnavailable(slot: nat, at: nat)   // "Invalid or occupied room." for the at-th requested room
    | Booked(slot: nat, bill: real)         // "Room(s) booked."

  datatype CheckInOutcome = CheckInNotFound | AlreadyCheckedIn(slot: nat) | CheckedIn(slot: nat)

  datatype CheckOutOutcome = CheckOutInvalid | CheckedOut(slot: nat, bill: real)

  datatype AddFoodOutcome = MenuFull | FoodAdded(slot: nat)

  datatype OrderOutcome = OrderNotFound | Ordered(slot: nat)

  datatype CancelRoomOutcome = CannotCancel | BookingCanceled(slot: nat, fee: real, total: real)

  datatype CancelFoodOutcome = CancelFoodInvalid | ChoiceInvalid(slot: nat) | FoodCanceled(slot: nat)

  /** The customer slot after a booking of `count` rooms under `name` has
      recorded the room numbers `booked` (a prefix of the request). */
  function Claimed(c: Customer, name: string, count: RoomCount, booked: seq<int>): Customer
    requires |booked| <= MaxRooms
  {
    c.(name := name, roomCount := count).WithRooms(booked)
  }

  /** A booking that got through all `count` rooms leaves a customer record
      whose room list is exactly the rooms booked, all in range, so that a
      later check-out or cancellation of that customer vacates precisely
      them and gives back the room table the booking started from. */
  lemma BookingIsReleasable(rs: seq<Room>, c: Customer, name: string, count: RoomCount, requested: seq<int>)
    requires |rs| == MaxRooms && 1 <= count <= |requested|
    requires forall j :: 0 <= j < count ==> Usable(rs, requested, j)
    ensures var booked := Claimed(c, name, count, requested[..count]);
      && booked.RoomsInRange()
      && booked.ListedRooms() == requested[..count]
      && Vacated(Occupied(rs, requested[..count]), booked.ListedRooms()) == rs
  {
    var booked := Claimed(c, name, count, requested[..count]);
    assert booked.ListedRooms() == requested[..count];
    forall j | 0 <= j < count
      ensures 1 <= requested[..count][j] <= |rs| && !rs[requested[..count][j] - 1].occupied
    {
      assert Usable(rs, requested, j);
    }
    VacateUndoesOccupy(rs, requested[..count]);
  }

  /** Writing the next requested room into the room list of a customer whose
      list starts with the rooms taken so far extends that prefix by one. */
  lemma RecordStep(c: Customer, req: seq<int>, taken: int)
    requires 0 <= taken < MaxRooms && taken < |req|
    ensures c.WithRooms(req[..taken]).SetRoom(taken, req[taken]) == c.WithRooms(req[..taken + 1])
  {
    assert (req[..taken] + c.roomNumbers[taken..])[taken := req[taken]] == req[..taken + 1] + c.roomNumbers[taken + 1..];
  }

  class HotelManagementSystem {
    const rooms: array<Room>
    const customers: array<Customer>
    const foodItems: array<Food>

    ghost predicate Valid() {
      rooms.Length == MaxRooms && customers.Length == MaxCustomers && foodItems.Length == MaxFoodItems
    }

    constructor ()
      ensures Valid()
      ensures fresh(rooms) && fresh(customers) && fresh(foodItems)
      ensures forall i :: 0 <= i < MaxRooms ==>
        && rooms[i].number == i + 1
        && !rooms[i].occupied
        && (i % 2 == 0 ==> rooms[i].roomType == "Single" && rooms[i].price == 2500.0)
        && (i % 2 == 1 ==> rooms[i].roomType == "Double" && rooms[i].price == 4000.0)
      ensures forall i :: 0 <= i < MaxFoodItems ==> foodItems[i] == Food(InitialFoodNames[i], InitialFoodPrices[i])
      ensures forall i :: 0 <= i < MaxFoodItems ==> (foodItems[i].name == "" <==> 8 <= i)
      ensures forall k :: 0 <= k < MaxCustomers ==> customers[k] == BlankCustomer
    {
      rooms := new Room[MaxRooms](_ => BlankRoom);
      customers := new Customer[MaxCustomers](_ => BlankCustomer);
      foodItems := new Food[MaxFoodItems](_ => BlankFood);
      new;
      InitializeRooms();
      InitializeFoodItems();
    }

    /** Numbers the rooms 1..10, odd numbers Single at 2500 and even numbers
        Double at 4000; occupancy is left as it was. */
    method InitializeRooms()
      requires rooms.Length == MaxRooms
      modifies rooms
      ensures forall i :: 0 <= i < MaxRooms ==>
        && rooms[i].number == i + 1
        && rooms[i].occupied == old(rooms[i].occupied)
        && (i % 2 == 0 ==> rooms[i].roomType == "Single" && rooms[i].price == 2500.0)
        && (i % 2 == 1 ==> rooms[i].roomType == "Double" && rooms[i].price == 4000.0)
    {
      for i := 0 to MaxRooms
        invariant forall k :: 0 <= k < i ==>
          && rooms[k].number == k + 1
          && rooms[k].occupied == old(rooms[k].occupied)
          && (k % 2 == 0 ==> rooms[k].roomType == "Single" && rooms[k].price == 2500.0)
          && (k % 2 == 1 ==> rooms[k].roomType == "Double" && rooms[k].price == 4000.0)
        invariant forall k :: i <= k < MaxRooms ==> rooms[k] == old(rooms[k])
      {
        rooms[i] := rooms[i].(number := i + 1,
                              roomType := if i % 2 == 0 then "Single" else "Double",
                              price := if i % 2 == 0 then 2500.0 else 4000.0);
      }
    }

    /** Fills every menu slot from the initial name and price lists. */
    method InitializeFoodItems()
      requires foodItems.Length == MaxFoodItems
      modifies foodItems
      ensures forall i :: 0 <= i < MaxFoodItems ==> foodItems[i] == Food(InitialFoodNames[i], InitialFoodPrices[i])
    {
      for i := 0 to MaxFoodItems
        invariant forall k :: 0 <= k < i ==> foodItems[k] == Food(InitialFoodNames[k], InitialFoodPrices[k])
      {
        foodItems[i] := Food(InitialFoodNames[i], InitialFoodPrices[i]);
      }
    }

    /** Linear scan of the customer slots for the first whose name is `name`. */
    method FindCustomerIndex(name: string) returns (idx: int)
      requires Valid()
      ensures idx == FirstMatch(customers[..], name)
    {
      var i := 0;
      while i < MaxCustomers
        invariant 0 <= i <= MaxCustomers
        invariant forall k :: 0 <= k < i ==> customers[k].name != name
      {
        if customers[i].name == name {
          return i;
        }
        i := i + 1;
      }
      return -1;
    }

    /** Books `count` rooms for `name`, taking the room numbers from
        `requested` one by one. The first free customer slot is claimed
        (name and count written) before any room is checked; each usable room
        is occupied and recorded as soon as it is read, and the first unusable
        one aborts the call without undoing what was already done. Only a
        booking that gets through all `count` rooms sets the bill (the sum of
        the room prices, 20% off for more than two rooms) and the booking time. */
    method BookRoom(count: int, name: string, requested: seq<int>, now: int) returns (outcome: BookingOutcome)
      requires Valid()
      requires 1 <= count <= MaxRooms ==> count <= |requested|
      modifies rooms, customers
      ensures Valid()
      ensures outcome == InvalidCount <==> count < 1 || count > MaxRooms
      ensures outcome == CustomerListFull <==> 1 <= count <= MaxRooms && FirstMatch(old(customers[..]), "") == -1
      ensures outcome.InvalidCount? || outcome.CustomerListFull? ==> unchanged(rooms, customers)
      ensures outcome.RoomUnavailable? || outcome.Booked? ==>
        var stop := if outcome.Booked? then count else outcome.at;
        && 1 <= count <= MaxRooms
        && outcome.slot == FirstMatch(old(customers[..]), "")
        && stop <= count
        && (forall j :: 0 <= j < stop ==> Usable(old(rooms[..]), requested, j))
        && (outcome.RoomUnavailable? ==> stop < count && !Usable(old(rooms[..]), requested, stop))
        && rooms[..] == Occupied(old(rooms[..]), requested[..stop])
        && var claimed := Claimed(old(customers[outcome.slot]), name, count, requested[..stop]);
           customers[..] == old(customers[..])[outcome.slot :=
             if outcome.Booked? then claimed.(totalBill := outcome.bill, bookingTime := now) else claimed]
      ensures outcome.Booked? ==>
        && 1 <= count <= MaxRooms
        && (forall j :: 0 <= j < count ==> Usable(old(rooms[..]), requested, j))
        && outcome.bill == (if count > 2 then SumPrices(old(rooms[..]), requested[..count]) * 0.8
                            else SumPrices(old(rooms[..]), requested[..count]))
    {
      if count < 1 || count > MaxRooms {
        return InvalidCount;
      }
      var custIndex := FindFreeCustomerSlot();
      if custIndex == -1 {
        return CustomerListFull;
      }
      customers[custIndex] := customers[custIndex].(name := name, roomCount := count);
      var taken, bill := TakeRequestedRooms(custIndex, count, requested, rooms[..], customers[..]);
      if taken < count {
        return RoomUnavailable(custIndex, taken);
      }
      if count > 2 {
        bill := bill * 0.8;
      }
      customers[custIndex] := customers[custIndex].(totalBill := bill, bookingTime := now);
      outcome := Booked(custIndex, bill);
    }

    /** The scan at the start of a booking for the first customer slot with an empty name. */
    method FindFreeCustomerSlot() returns (idx: int)
      requires Valid()
      ensures idx == FirstMatch(customers[..], "")
    {
      idx := -1;
      var i := 0;
      while i < MaxCustomers
        invariant 0 <= i <= MaxCustomers
        invariant forall k :: 0 <= k < i ==> customers[k].name != ""
      {
        if |customers[i].name| == 0 {
          idx := i;
          break;
        }
        i := i + 1;
      }
    }

    /** The room loop of a booking for customer slot `custIndex`: reads the
        requested room numbers in order, and for each one that exists and is
        free occupies it, records it as the customer's next room and adds its
        price to the running total; stops at the first one that does not, or
        after `count` rooms. Returns how many rooms were taken and their total. */
    method TakeRequestedRooms(custIndex: int, count: int, requested: seq<int>, ghost rs0: seq<Room>, ghost cs0: seq<Customer>)
      returns (taken: int, bill: real)
      requires Valid()
      requires 0 <= custIndex < MaxCustomers && 1 <= count <= MaxRooms && count <= |requested|
      requires rooms[..] == rs0 && customers[..] == cs0
      modifies rooms, customers
      ensures Valid()
      ensures 0 <= taken <= count
      ensures forall j :: 0 <= j < taken ==> Usable(rs0, requested, j)
      ensures taken < count ==> !Usable(rs0, requested, taken)
      ensures rooms[..] == Occupied(rs0, requested[..taken])
      ensures customers[..] == cs0[custIndex := cs0[custIndex].WithRooms(requested[..taken])]
      ensures bill == SumPrices(rs0, requested[..taken])
    {
      ghost var c0 := cs0[custIndex];
      assert c0.WithRooms(requested[..0]) == c0 by {
        assert requested[..0] + c0.roomNumbers[0..] == c0.roomNumbers;
      }
      bill := 0.0;
      taken := 0;
      while taken < count
        invariant 0 <= taken <= count
        invariant AllUsable(rs0, requested, taken)
        invariant rooms[..] == Occupied(rs0, requested[..taken])
        invariant customers[..] == cs0[custIndex := c0.WithRooms(requested[..taken])]
        invariant bill == SumPrices(rs0, requested[..taken])
      {
        var ok, price := TakeNextRoom(custIndex, taken, requested, rs0, cs0, c0);
        if !ok {
          AllUsableMeans(rs0, requested, taken);
          return;
        }
        SumPricesPrefix(rs0, requested, taken);
        bill := bill + price;
        taken := taken + 1;
      }
      AllUsableMeans(rs0, requested, taken);
    }

    /** One pass of the room loop of a booking, for the request at position
        `taken` when the earlier requests are already occupied and recorded:
        a room that is out of range or occupied stops the booking and changes
        nothing; otherwise the room is occupied, recorded as the customer's
        next room, and its price returned. */
    method TakeNextRoom(custIndex: int, taken: int, requested: seq<int>,
                        ghost rs0: seq<Room>, ghost cs0: seq<Customer>, ghost c0: Customer)
      returns (ok: bool, price: real)
      requires Valid() && 0 <= custIndex < MaxCustomers && 0 <= taken < MaxRooms && taken < |requested|
      requires |rs0| == MaxRooms && |cs0| == MaxCustomers
      requires rooms[..] == Occupied(rs0, requested[..taken])
      requires customers[..] == cs0[custIndex := c0.WithRooms(requested[..taken])]
      modifies rooms, customers
      ensures Valid()
      ensures ok == Usable(rs0, requested, taken)
      ensures !ok ==> unchanged(rooms, customers)
      ensures ok ==>
        && rooms[..] == Occupied(rs0, requested[..taken + 1])
        && customers[..] == cs0[custIndex := c0.WithRooms(requested[..taken + 1])]
        && price == PriceOf(rs0, requested[taken])
    {
      var r := requested[taken];
      UsableNow(rs0, requested, taken, rooms[..]);
      if r < 1 || r > MaxRooms || rooms[r - 1].occupied {
        return false, 0.0;
      }
      OccupiedPrefix(rs0, requested, taken);
      RecordStep(c0, requested, taken);
      rooms[r - 1] := rooms[r - 1].Occupy();
      customers[custIndex] := customers[custIndex].SetRoom(taken, r);
      assert customers[..] == cs0[custIndex := c0.WithRooms(requested[..taken + 1])];
      ok, price := true, rooms[r - 1].price;
    }

    /** Marks the first customer called `name` as checked in, unless absent or already in. */
    method CheckIn(name: string) returns (outcome: CheckInOutcome)
      requires Valid()
      modifies customers
      ensures Valid()
      ensures var i := FirstMatch(old(customers[..]), name);
        && (i == -1 ==> outcome == CheckInNotFound && unchanged(customers))
        && (i != -1 && old(customers[i]).checkedIn ==> outcome == AlreadyCheckedIn(i) && unchanged(customers))
        && (i != -1 && !old(customers[i]).checkedIn ==>
              outcome == CheckedIn(i) && customers[..] == old(customers[..])[i := old(customers[i]).(checkedIn := true)])
    {
      var i := FindCustomerIndex(name);
      if i == -1 {
        return CheckInNotFound;
      }
      if customers[i].checkedIn {
        outcome := AlreadyCheckedIn(i);
      } else {
        customers[i] := customers[i].(checkedIn := true);
        outcome := CheckedIn(i);
      }
    }

    /** Checks out the first customer called `name`, who must be checked in:
        vacates each of the rooms the customer lists and clears the
        checked-in flag; the bill is reported and kept. */
    method CheckOut(name: string) returns (outcome: CheckOutOutcome)
      requires Valid()
      requires var i := FirstMatch(customers[..], name);
        i != -1 && customers[i].checkedIn ==> customers[i].RoomsInRange()
      modifies rooms, customers
      ensures Valid()
      ensures var i := FirstMatch(old(customers[..]), name);
        && (i == -1 || !old(customers[i]).checkedIn ==> outcome == CheckOutInvalid && unchanged(rooms, customers))
        && (i != -1 && old(customers[i]).checkedIn ==>
              var c := old(customers[i]);
              && outcome == CheckedOut(i, c.totalBill)
              && rooms[..] == Vacated(old(rooms[..]), c.ListedRooms())
              && customers[..] == old(customers[..])[i := c.(checkedIn := false)])
    {
      var i := FindCustomerIndex(name);
      if i == -1 || !customers[i].checkedIn {
        return CheckOutInvalid;
      }
      VacateListedRooms(i);
      outcome := CheckedOut(i, customers[i].totalBill);
      customers[i] := customers[i].(checkedIn := false);
    }

    /** The loop shared by check-out and cancellation: calls `vacate()` on
        the room of each of the first `roomCount` numbers customer `i` lists. */
    method VacateListedRooms(i: int)
      requires Valid()
      requires 0 <= i < MaxCustomers && customers[i].RoomsInRange()
      modifies rooms
      ensures rooms[..] == Vacated(old(rooms[..]), customers[i].ListedRooms())
    {
      ghost var rs0 := rooms[..];
      var j := 0;
      while j < customers[i].roomCount
        invariant 0 <= j <= customers[i].roomCount
        invariant rooms[..] == Vacated(rs0, customers[i].roomNumbers[..j])
      {
        var r := customers[i].roomNumbers[j];
        assert customers[i].roomNumbers[..j + 1] == customers[i].roomNumbers[..j] + [r];
        VacatedAppend(rs0, customers[i].roomNumbers[..j], r);
        rooms[r - 1] := rooms[r - 1].Vacate();
        j := j + 1;
      }
    }

    /** Writes a new item into the first free menu slot, if there is one. */
    method AddFoodItem(name: string, price: real) returns (outcome: AddFoodOutcome)
      requires Valid()
      modifies foodItems
      ensures Valid()
      ensures outcome == MenuFull <==> forall k :: 0 <= k < MaxFoodItems ==> old(foodItems[k]).name != ""
      ensures outcome == MenuFull ==> unchanged(foodItems)
      ensures outcome.FoodAdded? ==>
        && outcome.slot < MaxFoodItems
        && old(foodItems[outcome.slot]).name == ""
        && (forall k :: 0 <= k < outcome.slot ==> old(foodItems[k]).name != "")
        && foodItems[..] == old(foodItems[..])[outcome.slot := Food(name, price)]
      ensures forall k :: 0 <= k < MaxFoodItems && old(foodItems[k]).name != "" ==> foodItems[k] == old(foodItems[k])
    {
      var i := 0;
      while i < MaxFoodItems
        invariant 0 <= i <= MaxFoodItems
        invariant forall k :: 0 <= k < i ==> foodItems[k].name != ""
      {
        if foodItems[i].name == "" {
          foodItems[i] := Food(name, price);
          return FoodAdded(i);
        }
        i := i + 1;
      }
      return MenuFull;
    }

    /** The food-ordering dialogue for the first customer called `name`: each
        food number in `choices` is handled in turn as one pass of the
        "order more?" loop, which always runs at least once. */
    method OrderFood(name: string, choices: seq<int>) returns (outcome: OrderOutcome)
      requires Valid()
      requires choices != []
      modifies customers
      ensures Valid()
      ensures var i := FirstMatch(old(customers[..]), name);
        && (i == -1 ==> outcome == OrderNotFound && unchanged(customers))
        && (i != -1 ==>
              outcome == Ordered(i)
              && customers[..] == old(customers[..])[i := OrderAll(old(customers[i]), foodItems[..], choices)])
    {
      var i := FindCustomerIndex(name);
      if i == -1 {
        return OrderNotFound;
      }
      ghost var c0 := customers[i];
      var n := 0;
      while n < |choices|
        invariant 0 <= n <= |choices|
        invariant customers[..] == old(customers[..])[i := OrderAll(c0, foodItems[..], choices[..n])]
      {
        var ch := choices[n];
        if 1 <= ch <= MaxFoodItems && foodItems[ch - 1].name != "" {
          if !customers[i].hasFoodOrdered[ch - 1] {
            customers[i] := customers[i].OrderFood(ch - 1);
            customers[i] := customers[i].AddToBill(foodItems[ch - 1].price);
          }
        }
        assert choices[..n + 1][..n] == choices[..n];
        n := n + 1;
      }
      assert choices[..|choices|] == choices;
      outcome := Ordered(i);
    }

    /** Cancels the booking of the first customer called `name`, who must not
        be checked in: the fee for the time elapsed since booking is taken off
        the bill and each listed room is vacated. The room list, room count
        and checked-in flag are kept. */
    method CancelRoomBooking(name: string, now: int) returns (outcome: CancelRoomOutcome)
      requires Valid()
      requires var i := FirstMatch(customers[..], name);
        i != -1 && !customers[i].checkedIn ==> customers[i].RoomsInRange()
      modifies rooms, customers
      ensures Valid()
      ensures var i := FirstMatch(old(customers[..]), name);
        && (i == -1 || old(customers[i]).checkedIn ==> outcome == CannotCancel && unchanged(rooms, customers))
        && (i != -1 && !old(customers[i]).checkedIn ==>
              var c := old(customers[i]);
              var rate := CalculateCancellationFee(c.bookingTime, now);
              && outcome == BookingCanceled(i, c.totalBill * rate, c.totalBill * (1.0 - rate))
              && rooms[..] == Vacated(old(rooms[..]), c.ListedRooms())
              && customers[..] == old(customers[..])[i := c.(totalBill := c.totalBill * (1.0 - rate))])
    {
      var i := FindCustomerIndex(name);
      if i == -1 || customers[i].checkedIn {
        return CannotCancel;
      }
      var percent := CalculateCancellationFee(customers[i].bookingTime, now);
      var fee := customers[i].totalBill * percent;
      assert customers[i].totalBill + -fee == customers[i].totalBill * (1.0 - percent);
      customers[i] := customers[i].AddToBill(-fee);
      assert customers[i].ListedRooms() == old(customers[i]).ListedRooms();
      VacateListedRooms(i);
      outcome := BookingCanceled(i, fee, customers[i].totalBill);
    }

    /** Cancels food number `ch` for the first customer called `name`, who
        must be checked in and must have ordered it. */
    method CancelFoodOrder(name: string, ch: int) returns (outcome: CancelFoodOutcome)
      requires Valid()
      modifies customers
      ensures Valid()
      ensures var i := FirstMatch(old(customers[..]), name);
        && (i == -1 || !old(customers[i]).checkedIn ==> outcome == CancelFoodInvalid && unchanged(customers))
        && (i != -1 && old(customers[i]).checkedIn ==>
              && outcome == (if 1 <= ch <= MaxFoodItems && old(customers[i]).hasFoodOrdered[ch - 1]
                             then FoodCanceled(i) else ChoiceInvalid(i))
              && customers[..] == old(customers[..])[i := CancelStep(old(customers[i]), foodItems[..], ch)])
    {
      var i := FindCustomerIndex(name);
      if i == -1 || !customers[i].checkedIn {
        return CancelFoodInvalid;
      }
      if 1 <= ch <= MaxFoodItems && customers[i].hasFoodOrdered[ch - 1] {
        customers[i] := customers[i].CancelFood(ch - 1);
        customers[i] := customers[i].AddToBill(-foodItems[ch - 1].price);
        outcome := FoodCanceled(i);
      } else {
        outcome := ChoiceInvalid(i);
      }
    }
  }
}
