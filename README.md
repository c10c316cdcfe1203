# BookAndStay hotel ledger, modelled in Dafny

BookAndStay is a console hotel ledger. Everything it knows lives in one
`HotelManagementSystem` object, which holds three fixed-size arrays:

- 10 rooms: number, type, price and an occupied flag;
- 10 customer slots: name, booked room numbers, room count, bill, food-order
  flags, booking time and a checked-in flag;
- a 10-slot food menu.

An empty name marks a free customer slot or a free menu slot. The operator
books rooms (20% off for more than two rooms), checks customers in and out,
orders and cancels food, and cancels bookings. A cancellation forfeits 20%,
50% or all of the bill, depending on the time elapsed since booking.

The model keeps that shape:

- `entities.dfy` (module `Entities`): the three records as datatypes (`Room`,
  `Food`, `Customer`) and the capacities. The customer's two C arrays are
  sequences whose length is fixed by their type.
- `ledger.dfy` (module `Ledger`): the pure rules and the properties proved
  about them.
  - `FirstMatch` is the customer lookup.
  - `Occupied` and `Vacated` are the room table after `occupy()`/`vacate()`
    calls.
  - `Usable` says when a requested room may be taken, and `SumPrices` is the
    room total.
  - `OrderStep`, `OrderAll` and `CancelStep` are the food-order steps, and
    `Charges` is what new food flags cost.
  - `CalculateCancellationFee` gives the fee tiers.
- `hotel.dfy` (module `Hotel`): class `HotelManagementSystem`, whose `rooms`,
  `customers` and `foodItems` arrays its methods update in place.
  - Each console command is a method. The operator's typed input (counts,
    names, room and food numbers, prices) and the clock are parameters.
  - Most commands return an outcome value that says which message they would
    print. `OrderFood` is the exception: it returns only the customer found.
  - Each method's `ensures` gives the new arrays in terms of the old ones.
    The booking, check-out, cancellation and food-order methods use the
    `Ledger` functions for this. `CheckIn`, `AddFoodItem` and the
    initialisers state their updates directly.
- `scenarios.dfy` (module `Scenarios`): worked examples that a client derives
  from the contracts alone, on a freshly constructed hotel.

The model keeps three behaviours of the program as they are:

- A booking is not atomic.
  - The free slot gets the name and room count before any room is checked.
  - Each room is occupied and recorded as soon as it is read.
  - The first unusable room ends the call with nothing undone. The slot keeps
    the name, the count and the rooms recorded so far, but no bill and no
    booking time.
  - This is `AbortedBookingKeepsRoom`. The slot keeps a name, so
    `FirstMatch` still finds it afterwards.
- Cancelling a booking keeps the customer's room list, room count and name.
  A later check-in and check-out of the same customer then vacates a room
  that someone else may have booked in the meantime
  (`CancelKeepsRoomList`, `StaleRoomListFreesOthersRoom`).
- Customer slots are never freed: no operation clears a name.

## Model

| member | source | states |
|---|---|---|
| Hotel.HotelManagementSystem.constructor | Source.cpp:129-132 | A new hotel has rooms 1..10, all free: odd numbers are Single at 2500, even numbers Double at 4000. The menu holds the eight initial dishes at their prices, and only slots 9 and 10 are free. Every customer slot is blank: no name, no rooms, bill 0, nothing ordered, not checked in. |
| Hotel.HotelManagementSystem.InitializeRooms | Source.cpp:155-159 | Room i+1 is numbered i+1 and is Single at 2500 when i is even, Double at 4000 when odd. Occupancy is left as it was. |
| Hotel.HotelManagementSystem.InitializeFoodItems | Source.cpp:161-172 | Every menu slot holds the name and price at the same position of the initial lists. |
| Ledger.FirstMatch | Source.cpp:190-195 | The result is -1 exactly when no slot has the name. Otherwise it is a slot with that name, and no earlier slot has it. |
| Hotel.HotelManagementSystem.FindCustomerIndex | Source.cpp:190-195 | The scan returns the first slot with the given name, or -1 (`FirstMatch`). |
| Hotel.HotelManagementSystem.BookRoom | Source.cpp:222-271 | A count outside 1..10 is refused, and so is a booking when no slot is free; both change nothing. Otherwise the first free slot is claimed and the requested rooms are taken in order up to the first unusable one, without rollback. Exactly the taken rooms become occupied and the slot lists them. The bill and booking time are set only when all `count` rooms were taken; the bill is the sum of their prices, times 0.8 when count > 2. |
| Hotel.HotelManagementSystem.FindFreeCustomerSlot | Source.cpp:237-243 | The scan returns the first slot with an empty name, or -1 when the ledger is full. |
| Hotel.HotelManagementSystem.TakeRequestedRooms | Source.cpp:254-265 | The loop stops at the first requested room that is out of range, occupied before the call, or already taken in this call. Every earlier room is occupied, recorded in request order and priced into the running total. |
| Hotel.HotelManagementSystem.TakeNextRoom | Source.cpp:255-264 | One pass of the room loop. It reports whether the next request is usable. If not, nothing changes. If so, exactly that room becomes occupied, the customer's list grows by it, and its price is returned. |
| Ledger.Usable | Source.cpp:258 | A request is usable exactly when it names a room of the table that was free when the booking began and that no earlier request of the same booking named. |
| Ledger.AllUsableMeans | Source.cpp:254-261 | The one-request-at-a-time form of "every request so far was usable" says the same as the quantified form. |
| Ledger.Occupied | Source.cpp:262 | The table keeps its size. A room is occupied afterwards exactly when it was before or its number is listed, and nothing else about any room changes. |
| Entities.Room.Occupy | Source.cpp:34 | The room becomes occupied; number, type and price stay. |
| Ledger.UsableNow | Source.cpp:258 | A requested room is usable exactly when it exists and is free in the table as the loop sees it, with the earlier requests already occupied. |
| Ledger.OccupiedPrefix | Source.cpp:262 | Taking one more requested room changes the room table in that room only. |
| Ledger.OccupiedAppend | Source.cpp:262 | Occupying one more room changes the room table in that room only. |
| Ledger.SumPricesPrefix | Source.cpp:264 | Taking one more requested room adds exactly its price to the total. |
| Ledger.SumPricesAppend | Source.cpp:264 | Adding a room number to the list adds exactly that room's price to the total. |
| Ledger.SumPrices | Source.cpp:252-264 | The total is never negative when no price is. A list naming one room k times totals k times that room's price. |
| Entities.Customer.SetRoom | Source.cpp:85-87 | Exactly the given entry of the room list becomes the given number; the other entries and every other field stay. |
| Hotel.RecordStep | Source.cpp:263 | Writing the next requested room into a customer's list extends the recorded prefix by that room. The rest of the list is untouched. |
| Hotel.BookingIsReleasable | Source.cpp:254-265 | A completed booking lists exactly the requested rooms, all in range. Vacating them afterwards restores the room table the booking started from. |
| Hotel.HotelManagementSystem.CheckIn | Source.cpp:273-282 | An unknown name or an already checked-in customer changes nothing. Otherwise only that customer's checked-in flag is set. |
| Hotel.HotelManagementSystem.CheckOut | Source.cpp:284-297 | An unknown or not checked-in customer changes nothing. Otherwise exactly the rooms the customer lists are vacated and the flag is cleared. The bill is reported and kept. |
| Hotel.HotelManagementSystem.VacateListedRooms | Source.cpp:292-293 | The new room table is the old one with exactly the customer's first `roomCount` listed rooms vacated. |
| Ledger.VacatedAppend | Source.cpp:293 | Vacating one more room changes the room table in that room only. |
| Ledger.Vacated | Source.cpp:292-293 | The table keeps its size. A room is occupied afterwards exactly when it was before and its number is not listed, and nothing else about any room changes. |
| Entities.Room.Vacate | Source.cpp:35 | The room becomes free; number, type and price stay. |
| Ledger.VacateUndoesOccupy | Source.cpp:377-378 | Vacating the rooms a booking found free and occupied gives back the original room table. |
| Hotel.HotelManagementSystem.AddFoodItem | Source.cpp:311-328 | A full menu is left unchanged. Otherwise the first empty slot, and only it, receives the new item. Named items never change. |
| Hotel.HotelManagementSystem.OrderFood | Source.cpp:330-362 | An unknown name changes nothing. Otherwise the customer becomes `OrderAll` of the choices, handled in turn, and no other slot changes. |
| Ledger.OrderStep | Source.cpp:345-357 | One pass of the ordering loop. A food becomes flagged exactly when it was flagged or it is the chosen, listed item. The bill grows by that item's price when the flags changed, and by nothing otherwise. No other field changes. |
| Ledger.OrderAll | Source.cpp:340-361 | A run of the ordering loop never clears a flag and changes nothing but the flags and the bill. |
| Entities.Customer.OrderFood | Source.cpp:106 | Exactly the given food flag becomes set; every other field stays. |
| Entities.Customer.AddToBill | Source.cpp:97 | The bill moves by exactly the given amount; every other field stays. |
| Ledger.OrderAllEffect | Source.cpp:340-361 | After the ordering loop, a food is flagged exactly when it was flagged before or is a listed item that was chosen. The bill grows by the price of each newly flagged item, once however often it was chosen. Nothing else about the customer changes. |
| Ledger.OrderTwiceChargesOnce | Source.cpp:345-353 | Choosing the same food twice leaves the customer as choosing it once. |
| Ledger.ChargesAddOne | Source.cpp:346-348 | Flagging one more item adds exactly its price to the charges. |
| Ledger.ChargesNone | Source.cpp:345-357 | When no flag changed, nothing is charged. |
| Hotel.HotelManagementSystem.CancelRoomBooking | Source.cpp:364-381 | An unknown or checked-in customer changes nothing. Otherwise the fee is bill × rate and the bill becomes bill × (1 − rate). Exactly the listed rooms are vacated; the room list, count, name and flag are kept. |
| Ledger.CalculateCancellationFee | Source.cpp:383-388 | The rate is 0.20 under one day since booking, 0.50 from one day to under two days, and 1.00 from two days on. |
| Ledger.FeeRateMonotone | Source.cpp:383-388 | The rate lies in (0, 1] and never decreases as the cancellation time grows. |
| Hotel.HotelManagementSystem.CancelFoodOrder | Source.cpp:390-410 | An unknown or not checked-in customer changes nothing. For an ordered food number, its flag is cleared and its menu price taken off the bill; any other number changes nothing. |
| Ledger.CancelStep | Source.cpp:402-404 | A food stays flagged exactly when it was flagged and is not the chosen number. The bill drops by that item's menu price when the flags changed, and by nothing otherwise. No other field changes. |
| Entities.Customer.CancelFood | Source.cpp:107 | Exactly the given food flag becomes clear; every other field stays. |
| Ledger.CancelUndoesOrder | Source.cpp:402-405 | Ordering a listed, unordered food and then cancelling it gives back the customer exactly: same flags, same bill. |
| Scenarios.TwoRoomsFullPrice | Source.cpp:264-267 | Two Single rooms on a new hotel cost 5000, with no discount. |
| Scenarios.ThreeRoomsDiscounted | Source.cpp:267 | Three Single rooms in one booking cost 3 × 2500 × 0.8 = 6000. |
| Scenarios.TwoNewDishesCostBoth | Source.cpp:345-348 | Choosing two different listed dishes that were not yet ordered adds both their prices to the bill. |
| Scenarios.OrderTwoDishes | Source.cpp:345-348 | Ordering dishes 1 and 2 adds 12.99 + 19.99 = 32.98 to the bill. |
| Scenarios.CancelWithinAnHour | Source.cpp:372-378 | Cancelling a 2500 booking after an hour leaves a bill of 2000 and frees the room. |
| Scenarios.CancelAfterFiftyHours | Source.cpp:384-387 | Cancelling after fifty hours forfeits the whole bill. |
| Scenarios.AbortedBookingKeepsRoom | Source.cpp:250-260 | Requesting room 1 twice aborts at the second request. Room 1 stays occupied, and the slot keeps the name with bill 0. |
| Scenarios.CancelKeepsRoomList | Source.cpp:370-378 | After Carol books room 1 and cancels, room 1 is free again, but her slot still holds her name, a room count of 1 and room 1 in its list. |
| Scenarios.StaleRoomListFreesOthersRoom | Source.cpp:290-293 | After Carol cancels, Dave books her room. Carol's check-in and check-out then vacate Dave's room. |

## Left out

- Console input and output are not modelled: the prompts, `cin` parsing, the
  menu loop `run`, `main`, `displayMenu`, `displayRooms` and
  `displayFoodMenu`. Typed input becomes method parameters, and each printed
  message becomes an outcome value.
- `viewBill`, `viewCustomerDetails` and the printing body of
  `Customer::showDetails` are not modelled. They only print, and change
  nothing.
- The abstract `Person` base class and its virtual dispatch are not modelled.
  Only `Customer` derives from it, and the dispatch has no behaviour to model.
- The getters and setters of `Room`, `Food` and `Customer` are not separate
  members. They become field reads and datatype updates, and the model keeps
  only the ones that name a step: `Occupy`, `Vacate`, `SetRoom`,
  `AddToBill`, `OrderFood`, `CancelFood`.
- `time(0)` and `difftime` are not modelled. The clock is an integer number
  of seconds passed in as `now`.
- Money is `real`, so IEEE double rounding of the prices, the discount and
  the fee is not modelled.
- The C++ `Customer` constructor leaves `roomNumbers` and `bookingTime`
  uninitialised. The model starts them at 0, which is not a room number.
- Hotel.HotelManagementSystem.CheckOut: requires that the first `roomCount`
  room numbers of the customer it would vacate are 1..10. A booking that
  aborted part-way leaves a count larger than the number of rooms recorded.
  Vacating then reads room-list entries that were never written, and in
  `Source.cpp` those are uninitialised, so the result is undefined. In the
  model the same entries hold the sentinel 0, which would index outside the
  room table. The requires clause excludes that case. Stale entries left by
  an earlier booking in the same slot are real room numbers, so the model
  does cover them.
- Hotel.HotelManagementSystem.CancelRoomBooking: the same requirement and
  reason as for `CheckOut`.
- Hotel.HotelManagementSystem.OrderFood: the "order more? (y/n)" answers are
  not modelled. The list of food numbers stands for the do/while loop, so it
  holds at least one choice.
- Hotel.HotelManagementSystem.OrderFood: the message printed for each choice
  is not returned ("ordered", "Already ordered.", "Invalid choice."). Which
  choices took effect can be read from the new food flags instead
  (`OrderAllEffect`).
