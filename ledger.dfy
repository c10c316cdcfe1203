/** Pure rules of the hotel ledger: the lookups, room-table updates, billing
    and food-ordering steps that the HotelManagementSystem methods (module
    Hotel) carry out in place, and the properties proved about them. */
module Ledger {
  import opened Entities

  const SecondsPerDay := 86400

  // ---------------------------------------------------------------------------
  // Customer lookup

  /** Index of the first customer slot whose name equals `name`, or -1.
      With `name == ""` this is the first free slot. */
  ghost function FirstMatch(cs: seq<Customer>, name: string): (r: int)
    ensures -1 <= r < |cs|
    ensures r == -1 <==> forall k :: 0 <= k < |cs| ==> cs[k].name != name
    ensures r != -1 ==> cs[r].name == name && forall k :: 0 <= k < r ==> cs[k].name != name
    decreases |cs|
  {
    if |cs| == 0 then -1
    else if cs[0].name == name then 0
    else
      var r := FirstMatch(cs[1..], name);
      if r == -1 then -1 else r + 1
  }

  // ---------------------------------------------------------------------------
  // Room table

  /** The room table after `occupy()` was called on the room of each number in `nums`. */
  function Occupied(rs: seq<Room>, nums: seq<int>): (r: seq<Room>)
    ensures |r| == |rs|
    ensures forall k :: 0 <= k < |rs| ==>
      r[k].occupied == (rs[k].occupied || k + 1 in nums) && r[k].(occupied := rs[k].occupied) == rs[k]
  {
    seq(|rs|, k requires 0 <= k < |rs| => if k + 1 in nums then rs[k].Occupy() else rs[k])
  }

  /** The room table after `vacate()` was called on the room of each number in `nums`. */
  function Vacated(rs: seq<Room>, nums: seq<int>): (r: seq<Room>)
    ensures |r| == |rs|
    ensures forall k :: 0 <= k < |rs| ==>
      r[k].occupied == (rs[k].occupied && k + 1 !in nums) && r[k].(occupied := rs[k].occupied) == rs[k]
  {
    seq(|rs|, k requires 0 <= k < |rs| => if k + 1 in nums then rs[k].Vacate() else rs[k])
  }

  /** The j-th requested room can be booked in a call that has already
      occupied the rooms requested before it: it exists, it was free when the
      call began, and it was not requested earlier in the same call. */
  predicate Usable(rs: seq<Room>, req: seq<int>, j: int)
    requires 0 <= j < |req|
    ensures Usable(rs, req, j) <==>
      1 <= req[j] <= |rs| && !rs[req[j] - 1].occupied && forall t :: 0 <= t < j ==> req[t] != req[j]
  {
    1 <= req[j] <= |rs| && !rs[req[j] - 1].occupied && req[j] !in req[..j]
  }

  /** Every one of the first `n` requests is usable, stated one request at a time. */
  predicate AllUsable(rs: seq<Room>, req: seq<int>, n: int)
    requires 0 <= n <= |req|
    decreases n
  {
    n == 0 || (AllUsable(rs, req, n - 1) && Usable(rs, req, n - 1))
  }

  lemma {:induction false} AllUsableMeans(rs: seq<Room>, req: seq<int>, n: int)
    requires 0 <= n <= |req|
    ensures AllUsable(rs, req, n) <==> forall t :: 0 <= t < n ==> Usable(rs, req, t)
    decreases n
  {
    if n > 0 {
      AllUsableMeans(rs, req, n - 1);
    }
  }

  /** Price of the room numbered `n`; a number outside the table (which a
      booking never accepts) has none. */
  function PriceOf(rs: seq<Room>, n: int): real
  {
    if 1 <= n <= |rs| then rs[n - 1].price else 0.0
  }

  /** Sum of the prices of the rooms numbered in `nums`, one term per entry. */
  function SumPrices(rs: seq<Room>, nums: seq<int>): (total: real)
    ensures (forall k :: 0 <= k < |rs| ==> rs[k].price >= 0.0) ==> total >= 0.0
    ensures (forall j :: 0 <= j < |nums| ==> nums[j] == nums[0]) ==> total == |nums| as real * PriceOf(rs, if nums == [] then 0 else nums[0])
    decreases |nums|
  {
    if nums == [] then 0.0
    else SumPrices(rs, nums[..|nums| - 1]) + PriceOf(rs, nums[|nums| - 1])
  }

  lemma OccupiedAppend(rs: seq<Room>, nums: seq<int>, r: int)
    requires 1 <= r <= |rs|
    ensures Occupied(rs, nums + [r]) == Occupied(rs, nums)[r - 1 := Occupied(rs, nums)[r - 1].Occupy()]
  {
  }

  lemma VacatedAppend(rs: seq<Room>, nums: seq<int>, r: int)
    requires 1 <= r <= |rs|
    ensures Vacated(rs, nums + [r]) == Vacated(rs, nums)[r - 1 := Vacated(rs, nums)[r - 1].Vacate()]
  {
  }

  lemma SumPricesAppend(rs: seq<Room>, nums: seq<int>, r: int)
    ensures SumPrices(rs, nums + [r]) == SumPrices(rs, nums) + PriceOf(rs, r)
  {
    assert (nums + [r])[..|nums|] == nums;
  }

  /** Whether the j-th request is usable can be read off the room table as
      the booking loop sees it, with the earlier requests already occupied. */
  lemma UsableNow(rs: seq<Room>, req: seq<int>, j: int, cur: seq<Room>)
    requires 0 <= j < |req|
    requires cur == Occupied(rs, req[..j])
    ensures Usable(rs, req, j) <==> 1 <= req[j] <= |rs| && !cur[req[j] - 1].occupied
  {
    var r := req[j];
    if 1 <= r <= |rs| {
      assert cur[r - 1] == if r in req[..j] then rs[r - 1].Occupy() else rs[r - 1];
    }
  }

  lemma OccupiedPrefix(rs: seq<Room>, req: seq<int>, j: int)
    requires 0 <= j < |req| && 1 <= req[j] <= |rs|
    ensures Occupied(rs, req[..j + 1]) == Occupied(rs, req[..j])[req[j] - 1 := Occupied(rs, req[..j])[req[j] - 1].Occupy()]
  {
    assert req[..j + 1] == req[..j] + [req[j]];
    OccupiedAppend(rs, req[..j], req[j]);
  }

  lemma SumPricesPrefix(rs: seq<Room>, req: seq<int>, j: int)
    requires 0 <= j < |req|
    ensures SumPrices(rs, req[..j + 1]) == SumPrices(rs, req[..j]) + PriceOf(rs, req[j])
  {
    assert req[..j + 1] == req[..j] + [req[j]];
    SumPricesAppend(rs, req[..j], req[j]);
  }

  /** Releasing the rooms of a booking that found them all free gives back the
      room table as it was before the booking: check-out and cancellation undo
      the occupancy a successful booking created. */
  lemma VacateUndoesOccupy(rs: seq<Room>, nums: seq<int>)
    requires forall j :: 0 <= j < |nums| ==> 1 <= nums[j] <= |rs| && !rs[nums[j] - 1].occupied
    ensures Vacated(Occupied(rs, nums), nums) == rs
  {
    var after := Vacated(Occupied(rs, nums), nums);
    forall k | 0 <= k < |rs|
      ensures after[k] == rs[k]
    {
      if k + 1 in nums {
        var j :| 0 <= j < |nums| && nums[j] == k + 1;
        assert !rs[k].occupied;
      }
    }
  }

  // ---------------------------------------------------------------------------
  // Cancellation fee

  /** The share of the bill forfeited when a booking made at `bookTime` is
      cancelled at `now`: 20% within a day, 50% within two days, all of it
      afterwards. */
  function CalculateCancellationFee(bookTime: int, now: int): (rate: real)
    ensures now - bookTime < SecondsPerDay ==> rate == 0.20
    ensures SecondsPerDay <= now - bookTime < 2 * SecondsPerDay ==> rate == 0.50
    ensures 2 * SecondsPerDay <= now - bookTime ==> rate == 1.00
  {
    var diff := now - bookTime;
    if diff < 86400 then 0.20
    else if diff < 172800 then 0.50
    else 1.00
  }

  /** The later a booking is cancelled, the larger the share of the bill it forfeits. */
  lemma FeeRateMonotone(bookTime: int, now1: int, now2: int)
    requires now1 <= now2
    ensures 0.0 < CalculateCancellationFee(bookTime, now1) <= CalculateCancellationFee(bookTime, now2) <= 1.0
  {
  }

  // ---------------------------------------------------------------------------
  // Food orders

  /** One pass of the ordering loop for food number `ch` (1-based): a listed,
      not yet ordered item is flagged and its price added to the bill;
      anything else leaves the customer as it was. */
  function OrderStep(c: Customer, menu: seq<Food>, ch: int): (r: Customer)
    requires |menu| == MaxFoodItems
    ensures forall k :: 0 <= k < MaxFoodItems ==>
      r.hasFoodOrdered[k] == (c.hasFoodOrdered[k] || (k + 1 == ch && menu[k].name != ""))
    ensures r.totalBill == c.totalBill + (if r.hasFoodOrdered == c.hasFoodOrdered then 0.0 else menu[ch - 1].price)
    ensures r.(hasFoodOrdered := c.hasFoodOrdered, totalBill := c.totalBill) == c
  {
    if 1 <= ch <= MaxFoodItems && menu[ch - 1].name != "" then
      if !c.hasFoodOrdered[ch - 1] then c.OrderFood(ch - 1).AddToBill(menu[ch - 1].price)
      else c
    else c
  }

  /** The customer after the ordering loop has handled each food number of `chs` in turn. */
  function OrderAll(c: Customer, menu: seq<Food>, chs: seq<int>): (r: Customer)
    requires |menu| == MaxFoodItems
    ensures forall k :: 0 <= k < MaxFoodItems && c.hasFoodOrdered[k] ==> r.hasFoodOrdered[k]
    ensures r.(hasFoodOrdered := c.hasFoodOrdered, totalBill := c.totalBill) == c
    decreases |chs|
  {
    if chs == [] then c
    else OrderStep(OrderAll(c, menu, chs[..|chs| - 1]), menu, chs[|chs| - 1])
  }

  /** Cancelling food number `ch` (1-based): an ordered item is unflagged and
      its current menu price taken off the bill; anything else changes nothing. */
  function CancelStep(c: Customer, menu: seq<Food>, ch: int): (r: Customer)
    requires |menu| == MaxFoodItems
    ensures forall k :: 0 <= k < MaxFoodItems ==> r.hasFoodOrdered[k] == (c.hasFoodOrdered[k] && k + 1 != ch)
    ensures r.totalBill == c.totalBill - (if r.hasFoodOrdered == c.hasFoodOrdered then 0.0 else menu[ch - 1].price)
    ensures r.(hasFoodOrdered := c.hasFoodOrdered, totalBill := c.totalBill) == c
  {
    if 1 <= ch <= MaxFoodItems && c.hasFoodOrdered[ch - 1] then
      c.CancelFood(ch - 1).AddToBill(-menu[ch - 1].price)
    else c
  }

  /** Total price of the items among the first `n` slots that are flagged in
      `after` but were not in `before`. */
  function Charges(before: seq<bool>, after: seq<bool>, menu: seq<Food>, n: nat): real
    requires n <= |before| && n <= |after| && n <= |menu|
  {
    if n == 0 then 0.0
    else Charges(before, after, menu, n - 1) + (if after[n - 1] && !before[n - 1] then menu[n - 1].price else 0.0)
  }

  lemma {:induction false} ChargesNone(flags: seq<bool>, menu: seq<Food>, n: nat)
    requires n <= |flags| && n <= |menu|
    ensures Charges(flags, flags, menu, n) == 0.0
  {
    if n > 0 {
      ChargesNone(flags, menu, n - 1);
    }
  }

  lemma {:induction false} ChargesAddOne(before: seq<bool>, after: seq<bool>, menu: seq<Food>, n: nat, k: int)
    requires n <= |before| && n <= |after| && n <= |menu|
    requires 0 <= k < |after| && k < |before| && !after[k] && !before[k]
    ensures Charges(before, after[k := true], menu, n) ==
            Charges(before, after, menu, n) + (if k < n then menu[k].price else 0.0)
  {
    if n > 0 {
      ChargesAddOne(before, after, menu, n - 1, k);
    }
  }

  /** Ordering an item a second time charges nothing more. */
  lemma OrderTwiceChargesOnce(c: Customer, menu: seq<Food>, ch: int)
    requires |menu| == MaxFoodItems
    ensures OrderStep(OrderStep(c, menu, ch), menu, ch) == OrderStep(c, menu, ch)
  {
  }

  /** Ordering a listed item that was not yet ordered and then cancelling it
      gives back the customer as it was: same flags, same bill. */
  lemma CancelUndoesOrder(c: Customer, menu: seq<Food>, ch: int)
    requires |menu| == MaxFoodItems
    requires 1 <= ch <= MaxFoodItems && menu[ch - 1].name != "" && !c.hasFoodOrdered[ch - 1]
    ensures CancelStep(OrderStep(c, menu, ch), menu, ch) == c
  {
    assert c.hasFoodOrdered[ch - 1 := true][ch - 1 := false] == c.hasFoodOrdered;
  }

  /** After any run of the ordering loop, exactly the listed items that were
      chosen are flagged (besides those flagged before), the bill grew by the
      price of each newly flagged item once, however often it was chosen, and
      nothing else about the customer changed. */
  lemma {:induction false} OrderAllEffect(c: Customer, menu: seq<Food>, chs: seq<int>)
    requires |menu| == MaxFoodItems
    ensures var r := OrderAll(c, menu, chs);
      && (forall k :: 0 <= k < MaxFoodItems ==>
            r.hasFoodOrdered[k] == (c.hasFoodOrdered[k] || (menu[k].name != "" && k + 1 in chs)))
      && r.totalBill == c.totalBill + Charges(c.hasFoodOrdered, r.hasFoodOrdered, menu, MaxFoodItems)
      && r.(hasFoodOrdered := c.hasFoodOrdered, totalBill := c.totalBill) == c
    decreases |chs|
  {
    if chs == [] {
      ChargesNone(c.hasFoodOrdered, menu, MaxFoodItems);
    } else {
      var prefix := chs[..|chs| - 1];
      var ch := chs[|chs| - 1];
      assert chs == prefix + [ch];
      var p := OrderAll(c, menu, prefix);
      OrderAllEffect(c, menu, prefix);
      var r := OrderAll(c, menu, chs);
      assert r == OrderStep(p, menu, ch);
      if 1 <= ch <= MaxFoodItems && menu[ch - 1].name != "" && !p.hasFoodOrdered[ch - 1] {
        ChargesAddOne(c.hasFoodOrdered, p.hasFoodOrdered, menu, MaxFoodItems, ch - 1);
      }
    }
  }
}
