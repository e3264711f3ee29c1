/** The node-side shipper (gui-and-app/backend/app/ids_shipper.py). */
module Shipper {
  datatype Event = Event(id: string, at: int, message: string)

  /** `seq` and `seen` of the state file; `order` is the list behind the seen-set. */
  datatype Progress = Progress(seqNo: nat, order: seq<string>)

  /** A post that never reached the hub, one whose answer was lost, one acknowledged. */
  datatype Outcome = Lost | AckLost | Acked

  datatype Shipper = Shipper(mem: Progress, disk: Progress, todo: seq<Event>, shipped: nat)

  const NEW_SHIPPER := Shipper(Progress(0, []), Progress(0, []), [], 0)

  // ---- the source: sorted newest first, the first `limit` of it ----

  /** Python's sort by `at` with reverse=True: descending, ties in source order. */
  function InsertDesc(e: Event, es: seq<Event>): seq<Event> {
    if |es| > 0 && es[0].at > e.at then [es[0]] + InsertDesc(e, es[1..]) else [e] + es
  }

  function SortDesc(es: seq<Event>): seq<Event> {
    if |es| == 0 then [] else InsertDesc(es[0], SortDesc(es[1..]))
  }

  /** What `ids(limit)` answers when the source holds `src`. */
  function Recent(src: seq<Event>, limit: nat): seq<Event> {
    var newest := SortDesc(src);
    if |newest| <= limit then newest else newest[..limit]
  }

  /** How many events are as new as `t` or newer. */
  function NotOlder(src: seq<Event>, t: int): nat {
    if |src| == 0 then 0 else NotOlder(src[..|src| - 1], t) + if src[|src| - 1].at >= t then 1 else 0
  }

  /** The first unshipped event, with all that share its time or are newer, fits the window. */
  predicate Fits(src: seq<Event>, k: nat, window: nat)
    requires k <= |src|
  {
    k == |src| || NotOlder(src, src[k].at) <= window
  }

  // ---- picking and ordering what to ship ----

  function Unseen(events: seq<Event>, order: seq<string>): seq<Event> {
    if |events| == 0 then []
    else if events[0].id in order then Unseen(events[1..], order)
    else [events[0]] + Unseen(events[1..], order)
  }

  /** Python's stable sort by `at`. */
  function InsertByAt(e: Event, es: seq<Event>): seq<Event> {
    if |es| > 0 && es[0].at < e.at then [es[0]] + InsertByAt(e, es[1..]) else [e] + es
  }

  function SortByAt(es: seq<Event>): seq<Event> {
    if |es| == 0 then [] else InsertByAt(es[0], SortByAt(es[1..]))
  }

  function ToShip(recent: seq<Event>, order: seq<string>): seq<Event> {
    SortByAt(Unseen(recent, order))
  }

  // ---- one cycle ----

  function Begin(s: Shipper, recent: seq<Event>): Shipper {
    s.(todo := ToShip(recent, s.mem.order), shipped := 0)
  }

  /** One turn of the loop: an unacknowledged post ends the cycle and consumes nothing. */
  function Post(s: Shipper, o: Outcome): Shipper
    requires |s.todo| > 0
  {
    if o.Acked? then
      s.(mem := Progress(s.mem.seqNo + 1, s.mem.order + [s.todo[0].id]), todo := s.todo[1..], shipped := s.shipped + 1)
    else s.(todo := [])
  }

  /** `order[-cap:]`; a slice from -0 is the whole list. */
  function Bound(order: seq<string>, window: nat): seq<string> {
    var cap := window * 2;
    if |order| > cap > 0 then order[|order| - cap..] else order
  }

  /** After the loop: trim and save if anything was shipped. Saving may fail. */
  function End(s: Shipper, window: nat, saved: bool): Shipper {
    if s.shipped == 0 then s.(todo := [])
    else
      var mem := s.mem.(order := Bound(s.mem.order, window));
      s.(mem := mem, disk := if saved then mem else s.disk, todo := [])
  }

  function Reload(s: Shipper): Shipper {
    Shipper(s.disk, s.disk, [], 0)
  }

  /** The loop as a whole; without an answer left the hub is down. */
  function PostAll(s: Shipper, outs: seq<Outcome>): Shipper
    decreases |s.todo|
  {
    if |s.todo| == 0 then s
    else if |outs| == 0 then Post(s, Lost)
    else PostAll(Post(s, outs[0]), outs[1..])
  }

  class ShipperProcess {
    const window: nat
    var seqNo: nat
    var seen: set<string>
    var order: seq<string>
    var saved: Progress  // the state file

    ghost predicate Valid()
      reads this
    {
      seen == set x | x in order
    }

    constructor (window: nat, file: Progress)
      ensures this.window == window && Valid()
      ensures Progress(seqNo, order) == file == saved
    {
      this.window := window;
      seqNo, order, saved := file.seqNo, file.order, file;
      seen := set x | x in file.order;
    }

    /** The list comprehension over the feed. */
    method PickUnseen(recent: seq<Event>) returns (events: seq<Event>)
      requires Valid()
      ensures events == Unseen(recent, order)
    {
      events := [];
      var i := 0;
      while i < |recent|
        invariant 0 <= i <= |recent|
        invariant events + Unseen(recent[i..], order) == Unseen(recent, order)
      {
        assert recent[i..][1..] == recent[i + 1..];
        if recent[i].id !in seen { events := events + [recent[i]]; }
        i := i + 1;
      }
    }

    /** `ship_once` on what the source returned; `outs` is how the hub answers. */
    method ShipOnce(recent: seq<Event>, outs: seq<Outcome>, saveWorks: bool) returns (shipped: nat)
      requires Valid()
      modifies this
      ensures Valid()
      ensures var r := End(PostAll(Begin(Shipper(Progress(old(seqNo), old(order)), old(saved), [], 0), recent), outs), window, saveWorks);
              Progress(seqNo, order) == r.mem && saved == r.disk && shipped == r.shipped
    {
      var unseen := PickUnseen(recent);
      var events := SortByAt(unseen);
      ghost var first := Begin(Shipper(Progress(seqNo, order), saved, [], 0), recent);
      ghost var now := first;
      shipped := 0;
      while shipped < |events|
        invariant shipped <= |events| && Valid()
        invariant now == Shipper(Progress(seqNo, order), saved, events[shipped..], shipped)
        invariant saved == old(saved)
        invariant shipped <= |outs| && PostAll(first, outs) == PostAll(now, outs[shipped..])
      {
        var e := events[shipped];
        if shipped >= |outs| || !outs[shipped].Acked? {
          now := if shipped >= |outs| then Post(now, Lost) else Post(now, outs[shipped]);
          break;
        }
        assert events[shipped..][1..] == events[shipped + 1..] && outs[shipped..][1..] == outs[shipped + 1..];
        now := Post(now, Acked);
        seqNo := seqNo + 1;
        seen := seen + {e.id};
        order := order + [e.id];
        shipped := shipped + 1;
      }
      assert PostAll(first, outs) == now.(todo := []);
      if shipped > 0 {
        BoundSeen();
        if saveWorks { saved := Progress(seqNo, order); }
      }
    }

    method BoundSeen()
      requires Valid()
      modifies this`order, this`seen
      ensures Valid() && order == Bound(old(order), window)
    {
      var cap := window * 2;
      if |order| > cap {
        if cap > 0 { order := order[|order| - cap..]; }
        seen := set x | x in order;
      }
    }
  }
}
