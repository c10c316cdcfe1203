/** The three record kinds of the hotel ledger and their capacities.
    In the C++ program rooms, customers and food items are objects stored by
    value in fixed-size arrays; here each is a datatype value, and the arrays
    that hold them live in the HotelManagementSystem class (module Hotel). */
module Entities {

  const MaxRooms := 10
  const MaxCustomers := 10
  const MaxFoodItems := 10

  /** A hotel room: its number (1-based), type, nightly price and occupancy. */
  datatype Room = Room(number: int, roomType: string, price: real, occupied: bool)
  {
    /** `occupy()`: the room becomes occupied; number, type and price stay. */
    function Occupy(): (r: Room)
      ensures r.occupied && r.(occupied := occupied) == this
    {
      this.(occupied := true)
    }

    /** `vacate()`: the room becomes free; number, type and price stay. */
    function Vacate(): (r: Room)
      ensures !r.occupied && r.(occupied := occupied) == this
    {
      this.(occupied := false)
    }
  }

  /** The room as the default constructor leaves it, before initialisation. */
  const BlankRoom := Room(0, "", 0.0, false)

  /** An item of the food menu; an empty name marks a free slot. */
  datatype Food = Food(name: string, price: real)

  const BlankFood := Food("", 0.0)

  /** The fixed-size arrays of a customer record: one room number per room
      of the hotel, one "ordered" flag per menu slot. */
  type RoomNumbers = s: seq<int> | |s| == MaxRooms witness seq(MaxRooms, _ => 0)
  type FoodFlags = s: seq<bool> | |s| == MaxFoodItems witness seq(MaxFoodItems, _ => false)

  /** A room count is only ever 0 (no booking yet) or a validated booking size. */
  type RoomCount = n: int | 0 <= n <= MaxRooms

  /** A customer slot; an empty name marks a free slot. */
  datatype Customer = Customer(
    name: string,
    roomNumbers: RoomNumbers,
    roomCount: RoomCount,
    totalBill: real,
    hasFoodOrdered: FoodFlags,
    bookingTime: int,
    checkedIn: bool)
  {
    /** The first `roomCount` room numbers are real rooms, so they may be used
        to index the room table. */
    predicate RoomsInRange() {
      forall j :: 0 <= j < roomCount ==> 1 <= roomNumbers[j] <= MaxRooms
    }

    /** The rooms this customer lists, in booking order. */
    function ListedRooms(): seq<int> {
      roomNumbers[..roomCount]
    }

    /** `setRoom(index, roomNumber)`: one entry of the room list is replaced. */
    function SetRoom(index: int, roomNumber: int): (r: Customer)
      requires 0 <= index < MaxRooms
      ensures r.roomNumbers[index] == roomNumber
      ensures forall k :: 0 <= k < MaxRooms && k != index ==> r.roomNumbers[k] == roomNumbers[k]
      ensures r.(roomNumbers := roomNumbers) == this
    {
      this.(roomNumbers := roomNumbers[index := roomNumber])
    }

    /** The room list with its first entries replaced by `booked`. */
    function WithRooms(booked: seq<int>): Customer
      requires |booked| <= MaxRooms
    {
      this.(roomNumbers := booked + roomNumbers[|booked|..])
    }

    /** `addToBill(amount)`: the bill moves by `amount` (negative for a refund or fee). */
    function AddToBill(amount: real): (r: Customer)
      ensures r.totalBill - totalBill == amount
      ensures r.(totalBill := totalBill) == this
    {
      this.(totalBill := totalBill + amount)
    }

    /** `orderFood(index)`: one food flag is set. */
    function OrderFood(index: int): (r: Customer)
      requires 0 <= index < MaxFoodItems
      ensures forall k :: 0 <= k < MaxFoodItems ==> r.hasFoodOrdered[k] == (k == index || hasFoodOrdered[k])
      ensures r.(hasFoodOrdered := hasFoodOrdered) == this
    {
      this.(hasFoodOrdered := hasFoodOrdered[index := true])
    }

    /** `cancelFood(index)`: one food flag is cleared. */
    function CancelFood(index: int): (r: Customer)
      requires 0 <= index < MaxFoodItems
      ensures forall k :: 0 <= k < MaxFoodItems ==> r.hasFoodOrdered[k] == (k != index && hasFoodOrdered[k])
      ensures r.(hasFoodOrdered := hasFoodOrdered) == this
    {
      this.(hasFoodOrdered := hasFoodOrdered[index := false])
    }
  }

  /** The customer as the default constructor leaves it. The C++ constructor
      does not initialise the room numbers or the booking time; the model
      gives them the sentinel 0 (0 is not a room number). */
  const BlankCustomer := Customer("", seq(MaxRooms, _ => 0), 0, 0.0, seq(MaxFoodItems, _ => false), 0, false)
}
