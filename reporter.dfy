/** The per-class counters of ant_nest/reporter.py: how many things of each class were seen
    and dropped, and the per-slot rates logged from them. */
module Reporting {
  import opened Common

  /** The four counters of one `Record`. */
  datatype Counters = Counters(lastCount: nat, count: nat, droppedLastCount: nat, droppedCount: nat)

  /** A new record: everything at zero. */
  const Zero := Counters(0, 0, 0, 0)

  /** What `add` does to the counters. */
  function AfterAdd(c: Counters, dropped: bool): Counters {
    if dropped then c.(droppedCount := c.droppedCount + 1) else c.(count := c.count + 1)
  }

  /** A report raises exactly one of the two counters by one, the one `dropped` selects, and
      leaves the marks where they are, so they still trail. */
  lemma AddCountsOne(c: Counters, dropped: bool)
    ensures AfterAdd(c, dropped).lastCount == c.lastCount
    ensures AfterAdd(c, dropped).droppedLastCount == c.droppedLastCount
    ensures AfterAdd(c, dropped).count + AfterAdd(c, dropped).droppedCount == c.count + c.droppedCount + 1
    ensures dropped ==> AfterAdd(c, dropped).droppedCount == c.droppedCount + 1
    ensures !dropped ==> AfterAdd(c, dropped).count == c.count + 1
    ensures Consistent(c) ==> Consistent(AfterAdd(c, dropped))
  {
  }

  /** What one slot of `_log` does to the counters: both "last" marks catch up. */
  function AfterSlot(c: Counters): Counters {
    c.(lastCount := c.count, droppedLastCount := c.droppedCount)
  }

  /** After a slot the next one starts from two zero rates, and the counters are kept. */
  lemma SlotCatchesUp(c: Counters)
    ensures AfterSlot(c).count == c.count && AfterSlot(c).droppedCount == c.droppedCount
    ensures Consistent(AfterSlot(c)) && CountDelta(AfterSlot(c)) == 0 && IntendedDroppedDelta(AfterSlot(c)) == 0
  {
  }

  /** The logged rate of things seen in the slot: never negative while the marks trail. */
  function CountDelta(c: Counters): (r: int)
    ensures Consistent(c) ==> 0 <= r
  {
    c.count - c.lastCount
  }

  /** The logged rate of things dropped in the slot, as written: measured from `last_count`,
      the mark of the things seen, not from `dropped_last_count`. It agrees with the intended
      rate exactly when the two marks coincide (`DroppedDeltaAgrees`). */
  function DroppedDelta(c: Counters): int {
    c.droppedCount - c.lastCount
  }

  /** The logged dropped rate is the intended one exactly when the two marks coincide. */
  lemma DroppedDeltaAgrees(c: Counters)
    ensures DroppedDelta(c) == IntendedDroppedDelta(c) <==> c.lastCount == c.droppedLastCount
  {
  }

  /** The dropped rate as evidently intended: measured from `dropped_last_count`, and so never
      negative while the marks trail. */
  function IntendedDroppedDelta(c: Counters): (r: int)
    ensures Consistent(c) ==> 0 <= r
  {
    c.droppedCount - c.droppedLastCount
  }

  /** The "last" marks never pass the counters they follow. */
  ghost predicate Consistent(c: Counters) {
    c.lastCount <= c.count && c.droppedLastCount <= c.droppedCount
  }

  /** `Record`. */
  class Record {
    /** `last_count`: `count` at the end of the last slot. */
    var lastCount: nat
    var count: nat
    /** `dropped_last_count`: `dropped_count` at the end of the last slot. */
    var droppedLastCount: nat
    var droppedCount: nat

    function Snapshot(): Counters
      reads this
    {
      Counters(lastCount, count, droppedLastCount, droppedCount)
    }

    /** `Record.__init__`: all four counters at zero. */
    constructor ()
      ensures Snapshot() == Zero
    {
      lastCount := 0;
      count := 0;
      droppedLastCount := 0;
      droppedCount := 0;
    }

    /** `add`: a dropped thing counts in `dropped_count`, any other in `count`; nothing else
        changes. */
    method Add(dropped: bool)
      modifies this
      ensures dropped ==> droppedCount == old(droppedCount) + 1 && count == old(count)
      ensures !dropped ==> count == old(count) + 1 && droppedCount == old(droppedCount)
      ensures lastCount == old(lastCount) && droppedLastCount == old(droppedLastCount)
      ensures Snapshot() == AfterAdd(old(Snapshot()), dropped)
    {
      if dropped {
        droppedCount := droppedCount + 1;
      } else {
        count := count + 1;
      }
    }

    /** The body of `_log`'s loop for this record: the two rates it logs, computed before the
        marks catch up with the counters. */
    method Slot() returns (countDelta: int, droppedDelta: int)
      modifies this
      ensures countDelta == old(count) - old(lastCount)
      ensures droppedDelta == old(droppedCount) - old(lastCount)
      ensures lastCount == count == old(count) && droppedLastCount == droppedCount == old(droppedCount)
      ensures Snapshot() == AfterSlot(old(Snapshot()))
    {
      countDelta := count - lastCount;
      droppedDelta := droppedCount - lastCount;
      lastCount := count;
      droppedLastCount := droppedCount;
    }
  }

  /** No two names share a record: `defaultdict(Record)` builds a new one per name. */
  ghost predicate Separate(records: map<string, Record>) {
    forall a, b :: a in records && b in records && a != b ==> records[a] != records[b]
  }

  /** `Reporter`: the records by class name; `names` is the dictionary's insertion order. */
  class Reporter {
    var names: seq<string>
    var records: map<string, Record>

    ghost predicate Valid()
      reads this
    {
      && (forall n :: n in names <==> n in records)
      && (forall a, b :: 0 <= a < b < |names| ==> names[a] != names[b])
      && Separate(records)
    }

    /** The counters of every record, by name. */
    ghost function Snapshots(): map<string, Counters>
      reads this, records.Values
    {
      map n | n in records :: records[n].Snapshot()
    }

    constructor ()
      ensures Valid() && names == [] && records == map[]
    {
      names := [];
      records := map[];
    }

    /** `report`: the record of the object's class counts it, a zeroed record being created
        on the first report of that class; every other record is left as it was. `dropped`
        defaults to false. */
    method Report(className: string, dropped: Option<bool>)
      requires Valid()
      modifies this, records.Values
      ensures Valid()
      ensures className in old(records) ==> names == old(names) && records == old(records)
      ensures className !in old(records) ==>
        && names == old(names) + [className] && fresh(records[className])
        && records == old(records)[className := records[className]]
      ensures className in old(records) ==>
        Snapshots() == old(Snapshots())[className := AfterAdd(old(Snapshots())[className], dropped.GetOr(false))]
      ensures className !in old(records) ==>
        Snapshots() == old(Snapshots())[className := AfterAdd(Zero, dropped.GetOr(false))]
    {
      if className in records {
        ReportKnown(className, dropped.GetOr(false));
      } else {
        ReportNew(className, dropped.GetOr(false));
      }
    }

    /** `report` for a class seen for the first time. */
    method ReportNew(className: string, dropped: bool)
      requires Valid() && className !in records
      modifies this
      ensures Valid()
      ensures names == old(names) + [className] && fresh(records[className])
      ensures records == old(records)[className := records[className]]
      ensures Snapshots() == old(Snapshots())[className := AfterAdd(Zero, dropped)]
    {
      ghost var before := Snapshots();
      AddRecord(className);
      ReportKnown(className, dropped);
      assert Snapshots() == before[className := Zero][className := AfterAdd(Zero, dropped)];
    }

    /** `report` for a class that already has a record. */
    method ReportKnown(className: string, dropped: bool)
      requires Valid() && className in records
      modifies records[className]
      ensures names == old(names) && records == old(records)
      ensures Snapshots() == old(Snapshots())[className := AfterAdd(old(Snapshots())[className], dropped)]
    {
      records[className].Add(dropped);
    }

    /** The `defaultdict` default for a class seen for the first time: a zeroed record at the
        end of the insertion order. */
    method AddRecord(className: string)
      requires Valid() && className !in records
      modifies this
      ensures Valid()
      ensures names == old(names) + [className] && fresh(records[className])
      ensures records == old(records)[className := records[className]]
      ensures Snapshots() == old(Snapshots())[className := Zero]
    {
      var r := new Record();
      names := names + [className];
      records := records[className := r];
    }

    /** The records as they stand after the first `i` names of a slot have been logged. */
    ghost predicate SlotDoneUpTo(i: nat, before: map<string, Counters>)
      requires i <= |names|
      reads this, records.Values
    {
      && (forall n :: n in records <==> n in before)
      && forall n :: n in records ==>
           records[n].Snapshot() == if n in names[..i] then AfterSlot(before[n]) else before[n]
    }

    /** One turn of `_log`'s loop: the record of the `i`-th name logs its rates and catches up;
        no other record changes. */
    method SlotAt(i: nat, ghost before: map<string, Counters>) returns (countDelta: int, droppedDelta: int)
      requires Valid() && i < |names| && SlotDoneUpTo(i, before)
      modifies records[names[i]]
      ensures names == old(names) && records == old(records)
      ensures SlotDoneUpTo(i + 1, before)
      ensures countDelta == CountDelta(before[names[i]]) && droppedDelta == DroppedDelta(before[names[i]])
    {
      var name := names[i];
      var r := records[name];
      assert names[..i + 1] == names[..i] + [name];
      assert name !in names[..i];
      label BeforeSlot:
      countDelta, droppedDelta := r.Slot();
      forall n | n in records
        ensures records[n].Snapshot() == if n in names[..i + 1] then AfterSlot(before[n]) else before[n]
      {
        if n != name {
          assert records[n] != r;
          assert records[n].Snapshot() == old@BeforeSlot(records[n].Snapshot());
        }
      }
    }

    /** `_log`'s loop over the records, with `before` the counters as the slot began. */
    method SlotAll(ghost before: map<string, Counters>) returns (countDeltas: seq<int>, droppedDeltas: seq<int>)
      requires Valid() && SlotDoneUpTo(0, before)
      modifies records.Values
      ensures names == old(names) && records == old(records)
      ensures SlotDoneUpTo(|names|, before)
      ensures LoggedUpTo(countDeltas, |names|, names, before, false)
      ensures LoggedUpTo(droppedDeltas, |names|, names, before, true)
    {
      countDeltas, droppedDeltas := [], [];
      var i := 0;
      while i < |names|
        invariant 0 <= i <= |names|
        invariant forall j :: 0 <= j < |names| ==> names[j] in before
        invariant LoggedUpTo(countDeltas, i, names, before, false)
        invariant LoggedUpTo(droppedDeltas, i, names, before, true)
        invariant SlotDoneUpTo(i, before)
      {
        var c, d := SlotAt(i, before);
        DeltasSnoc(countDeltas, c, i, names, before, false);
        DeltasSnoc(droppedDeltas, d, i, names, before, true);
        countDeltas := countDeltas + [c];
        droppedDeltas := droppedDeltas + [d];
        i := i + 1;
      }
    }

    /** One slot of `_log`: in insertion order, each record logs its two rates and its marks
        catch up with its counters. */
    method LogSlot() returns (countDeltas: seq<int>, droppedDeltas: seq<int>)
      requires Valid()
      modifies records.Values
      ensures Valid() && names == old(names) && records == old(records)
      ensures |countDeltas| == |droppedDeltas| == |names|
      ensures forall i :: 0 <= i < |names| ==>
        && countDeltas[i] == CountDelta(old(Snapshots())[names[i]])
        && droppedDeltas[i] == DroppedDelta(old(Snapshots())[names[i]])
      ensures Snapshots() == map n | n in old(Snapshots()) :: AfterSlot(old(Snapshots())[n])
    {
      ghost var before := Snapshots();
      assert names[..0] == [];
      countDeltas, droppedDeltas := SlotAll(before);
      assert names[..|names|] == names;
    }
  }

  /** The rates logged for the first `i` names, with the counters as they stood when the slot
      began. */
  ghost predicate LoggedUpTo(deltas: seq<int>, i: nat, names: seq<string>, before: map<string, Counters>, dropped: bool) {
    && i <= |names| && |deltas| == i
    && forall j :: 0 <= j < i ==>
         && names[j] in before
         && deltas[j] == if dropped then DroppedDelta(before[names[j]]) else CountDelta(before[names[j]])
  }

  lemma DeltasSnoc(deltas: seq<int>, d: int, i: nat, names: seq<string>, before: map<string, Counters>, dropped: bool)
    requires LoggedUpTo(deltas, i, names, before, dropped) && i < |names| && names[i] in before
    requires d == if dropped then DroppedDelta(before[names[i]]) else CountDelta(before[names[i]])
    ensures LoggedUpTo(deltas + [d], i + 1, names, before, dropped)
  {
  }

  /** What happens to one record between two looks at it: a report, or the end of a slot. */
  datatype Event = Added(dropped: bool) | SlotEnded

  /** The rates one slot logs. */
  datatype Rate = Rate(seen: int, dropped: int)

  function Step(c: Counters, e: Event): Counters {
    match e
    case Added(dropped) => AfterAdd(c, dropped)
    case SlotEnded => AfterSlot(c)
  }

  /** The counters after a run of events. */
  function Run(c: Counters, events: seq<Event>): Counters
    decreases |events|
  {
    if events == [] then c else Run(Step(c, events[0]), events[1..])
  }

  /** The rates logged over a run of events, as written (`intended` false) or with the dropped
      rate measured from `dropped_last_count` (`intended` true). */
  function Logged(c: Counters, events: seq<Event>, intended: bool): seq<Rate>
    decreases |events|
  {
    if events == [] then []
    else
      var rest := Logged(Step(c, events[0]), events[1..], intended);
      if events[0].SlotEnded? then
        [Rate(CountDelta(c), if intended then IntendedDroppedDelta(c) else DroppedDelta(c))] + rest
      else rest
  }

  function SumSeen(rs: seq<Rate>): int
    decreases |rs|
  {
    if rs == [] then 0 else rs[0].seen + SumSeen(rs[1..])
  }

  function SumDropped(rs: seq<Rate>): int
    decreases |rs|
  {
    if rs == [] then 0 else rs[0].dropped + SumDropped(rs[1..])
  }

  /** Reports and slots keep the marks behind the counters, and the counters only grow. */
  lemma {:induction false} RunConsistent(c: Counters, events: seq<Event>)
    requires Consistent(c)
    decreases |events|
    ensures Consistent(Run(c, events))
    ensures c.count <= Run(c, events).count && c.droppedCount <= Run(c, events).droppedCount
  {
    if events != [] {
      RunConsistent(Step(c, events[0]), events[1..]);
    }
  }

  /** The seen rates logged add up to the things seen up to the last slot. */
  lemma {:induction false} SeenTelescopes(c: Counters, events: seq<Event>, intended: bool)
    decreases |events|
    ensures SumSeen(Logged(c, events, intended)) == Run(c, events).lastCount - c.lastCount
  {
    if events != [] {
      SeenTelescopes(Step(c, events[0]), events[1..], intended);
    }
  }

  /** With the dropped rate measured from `dropped_last_count`, the dropped rates logged add up
      to the things dropped up to the last slot. */
  lemma {:induction false} IntendedDropsTelescope(c: Counters, events: seq<Event>)
    decreases |events|
    ensures SumDropped(Logged(c, events, true)) == Run(c, events).droppedLastCount - c.droppedLastCount
  {
    if events != [] {
      IntendedDropsTelescope(Step(c, events[0]), events[1..]);
    }
  }

  /** With the dropped rate measured from `dropped_last_count`, no logged rate is negative. */
  lemma {:induction false} IntendedRatesNonNegative(c: Counters, events: seq<Event>)
    requires Consistent(c)
    decreases |events|
    ensures forall k :: 0 <= k < |Logged(c, events, true)| ==>
      Logged(c, events, true)[k].seen >= 0 && Logged(c, events, true)[k].dropped >= 0
  {
    if events != [] {
      RunConsistent(c, events[..1]);
      assert Run(c, events[..1]) == Step(c, events[0]);
      IntendedRatesNonNegative(Step(c, events[0]), events[1..]);
    }
  }

  /** The first event of a run, taken on its own. */
  lemma Unfold(c: Counters, e: Event, rest: seq<Event>)
    ensures Run(c, [e] + rest) == Run(Step(c, e), rest)
    ensures Logged(c, [e] + rest, false) ==
      (if e.SlotEnded? then [Rate(CountDelta(c), DroppedDelta(c))] else []) + Logged(Step(c, e), rest, false)
  {
    assert ([e] + rest)[1..] == rest;
  }

  /** One thing dropped after a slot, then a slot: as written, no drop is logged. */
  lemma DropAfterSlot()
    ensures Logged(Counters(1, 1, 0, 0), [Added(true), SlotEnded], false) == [Rate(0, 0)]
    ensures Run(Counters(1, 1, 0, 0), [Added(true), SlotEnded]) == Counters(1, 1, 1, 1)
  {
    Unfold(Counters(1, 1, 0, 1), SlotEnded, []);
    assert [SlotEnded] == [SlotEnded] + [];
    Unfold(Counters(1, 1, 0, 0), Added(true), [SlotEnded]);
    assert [Added(true), SlotEnded] == [Added(true)] + [SlotEnded];
  }

  /** As written, the dropped rate is wrong: one thing seen, a slot, one thing dropped and a
      slot log no drop at all. */
  lemma ReportedDropsMiscount()
    ensures Logged(Zero, [Added(false), SlotEnded, Added(true), SlotEnded], false) == [Rate(1, 0), Rate(0, 0)]
    ensures Run(Zero, [Added(false), SlotEnded, Added(true), SlotEnded]).droppedCount == 1
  {
    var e2 := [Added(true), SlotEnded];
    DropAfterSlot();
    var e1 := [SlotEnded] + e2;
    assert Step(Counters(0, 1, 0, 0), SlotEnded) == Counters(1, 1, 0, 0);
    Unfold(Counters(0, 1, 0, 0), SlotEnded, e2);
    assert Logged(Counters(0, 1, 0, 0), e1, false) == [Rate(1, 0)] + [Rate(0, 0)];
    assert Run(Counters(0, 1, 0, 0), e1) == Counters(1, 1, 1, 1);
    var e0 := [Added(false)] + e1;
    assert Step(Zero, Added(false)) == Counters(0, 1, 0, 0);
    Unfold(Zero, Added(false), e1);
    assert e0 == [Added(false), SlotEnded, Added(true), SlotEnded];
  }

  /** As written, a slot in which nothing happened after one in which something was seen logs
      a negative dropped rate. */
  lemma ReportedDropsNegative()
    ensures Logged(Zero, [Added(false), SlotEnded, SlotEnded], false) == [Rate(1, 0), Rate(0, -1)]
  {
    var e2 := [SlotEnded];
    var e1 := [SlotEnded] + e2;
    var e0 := [Added(false)] + e1;
    assert e0 == [Added(false), SlotEnded, SlotEnded];
    Unfold(Counters(1, 1, 0, 0), SlotEnded, []);
    assert e2 == [SlotEnded] + [];
    Unfold(Counters(0, 1, 0, 0), SlotEnded, e2);
    Unfold(Zero, Added(false), e1);
  }
}
