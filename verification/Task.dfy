/** blockchain/task.go: a range of heights that are reported in any order, with one callback when all of
    them have been reported.  Each method is one critical section of the mutex. */
module Tasks {
  import opened Options

  datatype Error = Running | StartBigThanEnd | NotRunning

  /** What can happen to a running task: a reported height, or a stop by Cancel or by the timer. */
  datatype Event = Report(height: int) | Halt

  /** The events before the first stop. */
  ghost function BeforeHalt(events: seq<Event>): seq<Event> {
    if events == [] || events[0].Halt? then [] else [events[0]] + BeforeHalt(events[1..])
  }

  lemma {:induction false} BeforeHaltPush(events: seq<Event>, e: Event)
    ensures BeforeHalt(events + [e]) ==
            if Halt in events || e.Halt? then BeforeHalt(events) else BeforeHalt(events) + [e]
  {
    if events == [] {
      assert [] + [e] == [e];
    } else if events[0].Report? {
      assert (events + [e])[1..] == events[1..] + [e];
      assert Halt in events <==> Halt in events[1..];
      BeforeHaltPush(events[1..], e);
    }
  }

  /** The events before the first stop are the longest beginning without one. */
  lemma {:induction false} BeforeHaltIs(events: seq<Event>)
    ensures BeforeHalt(events) <= events && Halt !in BeforeHalt(events)
    ensures Halt in events ==> |BeforeHalt(events)| < |events| && events[|BeforeHalt(events)|] == Halt
    ensures Halt !in events ==> BeforeHalt(events) == events
  {
    if events != [] && events[0].Report? {
      BeforeHaltIs(events[1..]);
      assert events == [events[0]] + events[1..];
    }
  }

  /** They cover the range exactly if some beginning without a stop does. */
  lemma CoversIff(events: seq<Event>, first: int, end: int)
    ensures Covers(BeforeHalt(events), first, end) <==>
      exists k | 0 <= k <= |events| ::
        Halt !in events[..k] && forall h | first <= h <= end :: Report(h) in events[..k]
  {
    BeforeHaltIs(events);
    var n := |BeforeHalt(events)|;
    assert events[..n] == BeforeHalt(events);
    if k :| 0 <= k <= |events| && Halt !in events[..k] && forall h | first <= h <= end :: Report(h) in events[..k] {
      assert events[..k] <= events[..n];
    }
  }

  ghost predicate Covers(events: seq<Event>, first: int, end: int) {
    forall h | first <= h <= end :: Report(h) in events
  }

  class Task {
    var start: int
    var end: int
    var isruning: bool
    var hasCallback: bool
    var donelist: set<int>
    /** How often a callback was launched. */
    var launched: nat

    /** The first height of the current range. */
    ghost var first: int
    /** The heights of the range reported since the start. */
    ghost var reported: set<int>

    /** While it runs, `start` is the least height that has not been reported. */
    ghost predicate Valid()
      reads this
    {
      isruning ==>
        && first <= start <= end
        && start !in reported && (forall h | first <= h < start :: h in reported)
        && (forall h | start < h <= end :: h in donelist <==> h in reported)
    }

    constructor ()
      ensures Valid() && !isruning && launched == 0
    {
      start, end, isruning, hasCallback, donelist, launched := 0, 0, false, false, {}, 0;
      first, reported := 0, {};
    }

    method Start(start: int, end: int, hasCallback: bool) returns (err: Option<Error>)
      requires Valid()
      modifies this
      ensures Valid() && launched == old(launched)
      ensures err == if old(isruning) then Some(Running) else if start > end then Some(StartBigThanEnd) else None
      ensures if err.None? then
                && isruning && this.start == first == start && this.end == end && reported == {} && donelist == {}
                && this.hasCallback == hasCallback
              else
                && isruning == old(isruning) && this.start == old(this.start) && this.end == old(this.end)
                && this.hasCallback == old(this.hasCallback) && donelist == old(donelist)
                && first == old(first) && reported == old(reported)
    {
      if isruning {
        return Some(Running);
      }
      if start > end {
        return Some(StartBigThanEnd);
      }
      isruning := true;
      this.start, this.end, this.hasCallback := start, end, hasCallback;
      donelist := {};
      first, reported := start, {};
      return None;
    }

    /** The callback is launched by the report that completes the range, and by no other. */
    method Done(height: int)
      requires Valid()
      modifies this`start, this`isruning, this`donelist, this`launched, this`reported
      ensures Valid()
      ensures !old(isruning) ==> !isruning && launched == old(launched) && reported == old(reported)
      ensures old(isruning) ==>
        && reported == old(reported) + (if first <= height <= end then {height} else {})
        && (isruning <==> exists h :: first <= h <= end && h !in reported)
        && launched == old(launched) + if !isruning && hasCallback then 1 else 0
    {
      if !isruning {
        return;
      }
      if first <= height <= end {
        reported := reported + {height};
      }
      if height >= start && height <= end {
        DoneInRange(height);
      } else {
        assert first <= start <= end && start !in reported;
      }
    }

    /** The part of done that follows the range check: moves the frontier over what was reported. */
    method DoneInRange(height: int)
      requires isruning && start <= height <= end && first <= start && height in reported
      requires forall h | first <= h < start :: h in reported
      requires start in reported ==> start == height
      requires forall h | start < h <= end && h != height :: h in donelist <==> h in reported
      modifies this`start, this`isruning, this`donelist, this`launched
      ensures Valid()
      ensures isruning <==> exists h :: first <= h <= end && h !in reported
      ensures launched == old(launched) + if !isruning && hasCallback then 1 else 0
    {
      if height == start {
        start := start + 1;
        var i := start;
        while i <= end
          invariant start == i && height < i <= end + 1 && isruning && launched == old(launched)
          invariant forall h | first <= h < start :: h in reported
          invariant forall h | start <= h <= end :: h in donelist <==> h in reported
          decreases end + 1 - i
        {
          if i !in donelist {
            break;
          }
          donelist := donelist - {i};
          start := i + 1;
          i := i + 1;
        }
        if start > end {
          var err := Stop(true);
        }
      }
      donelist := donelist + {height};
      assert isruning ==> first <= start <= end && start !in reported;
    }

    method Stop(runcb: bool) returns (err: Option<Error>)
      modifies this`isruning, this`launched
      ensures !isruning && err == if old(isruning) then None else Some(NotRunning)
      ensures launched == old(launched) + if old(isruning) && hasCallback && runcb then 1 else 0
    {
      if !isruning {
        return Some(NotRunning);
      }
      isruning := false;
      if hasCallback && runcb {
        launched := launched + 1;
      }
      return None;
    }

    /** A cancel, and the timer when it fires, stop it without a callback. */
    method Cancel() returns (err: Option<Error>)
      requires Valid()
      modifies this`isruning, this`launched
      ensures Valid() && !isruning && launched == old(launched)
      ensures err == if old(isruning) then None else Some(NotRunning)
    {
      err := Stop(false);
    }

    /** State and reports agree with the events so far. */
    ghost predicate Followed(events: seq<Event>)
      reads this
    {
      var given := BeforeHalt(events);
      if isruning then
        && Halt !in events && (forall h | first <= h <= end :: h in reported <==> Report(h) in given)
        && !Covers(given, first, end)
      else Halt in events || Covers(given, first, end)
    }

    method HandleOne(ghost events: seq<Event>, e: Event)
      requires Valid() && Followed(events)
      modifies this`start, this`isruning, this`donelist, this`launched, this`reported
      ensures Valid() && Followed(events + [e])
      ensures var before, after := Covers(BeforeHalt(events), first, end), Covers(BeforeHalt(events + [e]), first, end);
        (before ==> after) && launched == old(launched) + if hasCallback && !before && after then 1 else 0
    {
      hide BeforeHalt;
      BeforeHaltPush(events, e);
      match e
      case Report(height) =>
        ghost var running, given := isruning, BeforeHalt(events + [e]);
        assert forall h :: Report(h) in BeforeHalt(events) + [e] <==> Report(h) in BeforeHalt(events) || h == height;
        Done(height);
        assert running ==> forall h | first <= h <= end :: h in reported <==> Report(h) in given;
      case Halt =>
        var err := Cancel();
    }

    lemma Uncovered()
      requires Valid() && isruning && reported == {}
      ensures Followed([]) && !Covers(BeforeHalt([]), first, end)
    {
      assert Report(start) !in BeforeHalt([]);
    }

    /** Any events, in any order and with repetitions: one callback if the reports before the first stop
        cover the range, none if they do not; it runs on as long as neither has happened. */
    method Handle(events: seq<Event>)
      requires Valid() && isruning && reported == {}
      modifies this`start, this`isruning, this`donelist, this`launched, this`reported
      ensures Valid()
      ensures var covered := exists k | 0 <= k <= |events| ::
          Halt !in events[..k] && forall h | first <= h <= end :: Report(h) in events[..k];
        && launched == old(launched) + (if hasCallback && covered then 1 else 0)
        && (isruning <==> Halt !in events && !covered)
    {
      hide Covers, BeforeHalt;
      Uncovered();
      assert events[..0] == [];
      for k := 0 to |events|
        invariant Valid() && Followed(events[..k])
        invariant launched ==
          old(launched) + if hasCallback && Covers(BeforeHalt(events[..k]), first, end) then 1 else 0
      {
        assert events[..k + 1] == events[..k] + [events[k]];
        HandleOne(events[..k], events[k]);
      }
      assert events[..|events|] == events;
      CoversIff(events, first, end);
    }
  }
}
