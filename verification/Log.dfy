/** The process-wide vector of events, with the reserve-then-push policy of the register macro. */
module Log {
  import opened Types

  // What the buffer looks like: events held, places allocated, elements copied by reallocations so far.
  datatype Shape = Shape(len: nat, capacity: nat, moved: nat)

  datatype Outcome = Registered | ReserveFailed | Aborted

  // Asking for at least two free places for every event already held.
  function AfterReserve(s: Shape): Shape {
    if s.capacity >= 3 * s.len then s else Shape(s.len, 3 * s.len, s.moved + s.len)
  }

  predicate PushAllocates(s: Shape) {
    s.len >= s.capacity
  }

  // A push into a full vector doubles it, from 4 places upwards.
  function AfterPush(s: Shape): Shape {
    if PushAllocates(s) then Shape(s.len + 1, if 2 * s.len < 4 then 4 else 2 * s.len, s.moved + s.len)
    else s.(len := s.len + 1)
  }

  function ShapeAfter(n: nat): Shape {
    if n == 0 then Shape(0, 0, 0) else AfterPush(AfterReserve(ShapeAfter(n - 1)))
  }

  function CapacityAfter(n: nat): nat {
    if n == 0 then 0 else if n < 3 then 4 else 3 * (n - 1)
  }

  function MovedAfter(n: nat): nat {
    if n < 3 then 0 else MovedAfter(n - 1) + n - 1
  }

  // What one registration makes of the buffer, in terms of lengths and capacities only.
  lemma OneMore(n: nat, moved: nat)
    ensures var s := Shape(n, CapacityAfter(n), moved);
            && (PushAllocates(AfterReserve(s)) <==> n == 0)
            && AfterPush(AfterReserve(s)) == Shape(n + 1, CapacityAfter(n + 1), moved + if n < 2 then 0 else n)
  {
  }

  lemma ShapeNext(n: nat)
    requires n > 0
    ensures ShapeAfter(n) == AfterPush(AfterReserve(ShapeAfter(n - 1)))
    ensures MovedAfter(n) == MovedAfter(n - 1) + if n < 3 then 0 else n - 1
  {
  }

  // The policy, followed n times.
  lemma {:induction false} ShapeExact(n: nat)
    ensures ShapeAfter(n) == Shape(n, CapacityAfter(n), MovedAfter(n))
  {
    if n > 0 {
      ShapeExact(n - 1);
      ShapeNext(n);
      OneMore(n - 1, MovedAfter(n - 1));
    }
  }

  lemma {:induction false} MovedClosedForm(n: nat)
    requires n >= 3
    ensures 2 * (MovedAfter(n) + 1) == n * (n - 1)
  {
    if n > 3 {
      MovedClosedForm(n - 1);
      assert n * (n - 1) == (n - 1) * (n - 2) + 2 * (n - 1);
    } else {
      assert MovedAfter(3) == MovedAfter(2) + 2;
    }
  }

  // The buffer is reallocated for every event from the third on, so the copying is quadratic.
  lemma ShapeClosedForm(n: nat)
    requires n >= 3
    ensures ShapeAfter(n).len == n && ShapeAfter(n).capacity == 3 * (n - 1)
    ensures 2 * (ShapeAfter(n).moved + 1) == n * (n - 1)
  {
    ShapeExact(n);
    MovedClosedForm(n);
  }

  // The push itself has to move the buffer for the first event only.
  lemma PushAllocatesOnce(n: nat)
    ensures ShapeAfter(n).len == n
    ensures PushAllocates(AfterReserve(ShapeAfter(n))) <==> n == 0
  {
    ShapeExact(n);
    OneMore(n, MovedAfter(n));
  }

  predicate HasRoom(s: Shape) {
    s.capacity >= 3 * s.len
  }

  // A failed reservation is reported; a box or a buffer that the push cannot allocate ends the process.
  function OutcomeOf(s: Shape, grows: bool, boxes: bool): Outcome {
    if !HasRoom(s) && !grows then ReserveFailed
    else if !boxes || (PushAllocates(AfterReserve(s)) && !grows) then Aborted
    else Registered
  }

  // The process ends exactly if the reservation succeeds and there is no memory for the box or, for the first event,
  // for the buffer.
  lemma AbortsExactly(n: nat, grows: bool, boxes: bool)
    ensures OutcomeOf(ShapeAfter(n), grows, boxes) == Aborted <==>
              (grows || HasRoom(ShapeAfter(n))) && (!boxes || (n == 0 && !grows))
  {
    PushAllocatesOnce(n);
  }

  // With one event held and no memory left at all the reservation succeeds, because the buffer has room, and the
  // process ends nevertheless.
  lemma SecondEventAborts()
    ensures ShapeAfter(1) == Shape(1, 4, 0) && OutcomeOf(ShapeAfter(1), false, false) == Aborted
  {
    ShapeExact(1);
    AbortsExactly(1, false, false);
  }

  class TraceLog {
    var data: array<Event>  // the buffer: its length is the vector's capacity
    var len: nat
    ghost var moved: nat

    ghost predicate Valid()
      reads this
    {
      len <= data.Length && data.Length == CapacityAfter(len) && moved == MovedAfter(len)
    }

    // The buffer is what the policy makes of it.
    lemma ValidShape()
      requires Valid()
      ensures GetShape() == ShapeAfter(len)
    {
      ShapeExact(len);
    }

    ghost function GetShape(): Shape
      reads this
    {
      Shape(len, data.Length, moved)
    }

    function Contents(): seq<Event>
      requires len <= data.Length
      reads this, data
    {
      data[..len]
    }

    constructor ()
      ensures Valid() && fresh(data) && Contents() == []
    {
      data := new Event[0];
      len := 0;
      moved := 0;
    }

    // Moves the events to a new buffer.
    method Grow(capacity: nat)
      requires len <= data.Length && len <= capacity
      modifies this
      ensures fresh(data) && data.Length == capacity && len == old(len) && moved == old(moved) + len
      ensures Contents() == old(Contents())
    {
      var bigger := new Event[capacity];
      var i := 0;
      while i < len
        invariant 0 <= i <= len
        invariant bigger[..i] == data[..i]
        modifies bigger
      {
        bigger[i] := data[i];
        i := i + 1;
      }
      data := bigger;
      moved := moved + len;
    }

    method TryReserveExact(additional: nat, grows: bool) returns (ok: bool)
      requires len <= data.Length
      modifies this
      ensures len == old(len) && len <= data.Length && Contents() == old(Contents())
      ensures ok == (additional <= old(data.Length) - len || grows)
      ensures additional <= old(data.Length) - len || !ok ==> data == old(data) && moved == old(moved)
      ensures additional > old(data.Length) - len && ok ==>
                fresh(data) && data.Length == len + additional && moved == old(moved) + len
    {
      if additional <= data.Length - len {
        ok := true;
      } else if grows {
        Grow(len + additional);
        ok := true;
      } else {
        ok := false;
      }
    }

    // A push into a full buffer that cannot be moved to a larger one ends the process.
    method Push(e: Event, grows: bool) returns (ok: bool)
      requires len <= data.Length
      modifies this, data
      ensures data == old(data) || fresh(data)
      ensures ok == (old(len) < old(data.Length) || grows)
      ensures ok ==> GetShape() == AfterPush(old(GetShape())) && len <= data.Length
                     && Contents() == old(Contents()) + [e]
      ensures !ok ==> GetShape() == old(GetShape()) && data == old(data) && data[..] == old(data[..])
    {
      if len == data.Length {
        if !grows {
          return false;
        }
        Grow(if 2 * len < 4 then 4 else 2 * len);
      }
      data[len] := e;
      len := len + 1;
      ok := true;
    }

    // Reserving twice the number of events held, before one more is pushed.
    method ReserveDouble(grows: bool) returns (ok: bool)
      requires Valid()
      modifies this
      ensures len == old(len) && len <= data.Length && Contents() == old(Contents())
      ensures data == old(data) || fresh(data)
      ensures ok == (grows || HasRoom(old(GetShape())))
      ensures ok ==> GetShape() == AfterReserve(old(GetShape()))
      ensures !ok || HasRoom(old(GetShape())) ==> GetShape() == old(GetShape()) && data == old(data)
    {
      ok := TryReserveExact(2 * len, grows);
    }

    // The event is put in a box of its own before it is pushed.
    method PushBoxed(e: Event, grows: bool, boxes: bool) returns (ok: bool)
      requires len <= data.Length
      modifies this, data
      ensures len <= data.Length && (data == old(data) || fresh(data))
      ensures ok == (boxes && (!PushAllocates(old(GetShape())) || grows))
      ensures GetShape() == if ok then AfterPush(old(GetShape())) else old(GetShape())
      ensures Contents() == if ok then old(Contents()) + [e] else old(Contents())
    {
      ok := false;
      if boxes {
        ok := Push(e, grows);
      }
    }

    // Whether there is memory for a larger buffer and whether there is memory for the box are separate questions.
    method Register(e: Event, grows: bool, boxes: bool) returns (outcome: Outcome)
      requires Valid()
      modifies this, data
      ensures len <= data.Length && (outcome != Aborted ==> Valid())
      ensures data == old(data) || fresh(data)
      ensures outcome == OutcomeOf(old(GetShape()), grows, boxes)
      ensures outcome == Aborted <==>
                (grows || HasRoom(old(GetShape()))) && (!boxes || (old(len) == 0 && !grows))
      ensures outcome == Registered ==> Contents() == old(Contents()) + [e]
      ensures outcome == ReserveFailed ==> data == old(data) && moved == old(moved)
      ensures outcome != Registered ==> Contents() == old(Contents())
    {
      ghost var s := GetShape();
      ValidShape();
      AbortsExactly(s.len, grows, boxes);
      var ok := ReserveDouble(grows);
      outcome := ReserveFailed;
      if ok {
        ok := PushBoxed(e, grows, boxes);
        outcome := if ok then Registered else Aborted;
        assert outcome == OutcomeOf(s, grows, boxes);
      }
      assert outcome != Aborted ==> Valid() by {
        OneMore(s.len, s.moved);
      }
    }
  }
}
