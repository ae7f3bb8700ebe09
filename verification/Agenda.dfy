/** The daily agenda optimiser (`apps/api/src/services/agendaIntelligenceService.ts`): the items of a day, the
    conflicts reported about them and the order suggested for them. */
module Agenda {
  import opened Text
  import opened StableSort
  import opened Grouping

  const MINUTE := 60 * 1000
  const DAY := 1440 * MINUTE
  const DEFAULT_DURATION_MINUTES := 60
  const MAX_STOPS_PER_PERIOD := 4

  datatype Client = Client(id: string, city: Option<string>)

  /** `checkIn` and `checkOut` positions are (latitude, longitude) in degrees. */
  datatype Stop = Stop(id: string, clientId: Option<string>, client: Option<Client>, city: Option<string>,
                       plannedTime: Option<int>, checkInLat: Option<real>, checkInLng: Option<real>,
                       checkOutLat: Option<real>, checkOutLng: Option<real>, resultStatus: Option<string>)

  /** `route` says that the event is of type `roteiro_visita`. Instants count milliseconds of UTC. */
  datatype Event = Event(id: string, route: bool, start: int, end: int, status: string, clientId: Option<string>,
                         client: Option<Client>, city: Option<string>, stops: seq<Stop>)

  datatype Period = Morning | Afternoon

  datatype Item = Item(eventId: string, stopId: Option<string>, clientId: Option<string>, city: Option<string>,
                       latitude: Option<real>, longitude: Option<real>, order: nat, score: real, period: Period,
                       movable: bool, start: Option<int>, end: Option<int>, territory: Option<string>)

  /** What the service takes from elsewhere: priority scores, the territory of a city name and the collation of
      `localeCompare`. */
  datatype Rules = Rules(score: (Option<Client>, Event) -> real, territory: string -> Option<string>,
                         collate: (string, string) -> bool)

  // ----- The items of the day -----

  /** Minutes since midnight UTC. */
  function Minutes(t: int): (m: int)
    ensures 0 <= m < 1440
  {
    t / MINUTE % 1440
  }

  function PeriodOf(m: int): Period {
    if m < 12 * 60 then Morning else Afternoon
  }

  predicate IsDone(status: string) {
    status in ["realizado", "completed", "cancelled", "cancelado", "em_andamento"]
  }

  /** JavaScript's `a ?? b`. */
  function Else<T>(a: Option<T>, b: Option<T>): Option<T> {
    if a.Some? then a else b
  }

  /** One event, seen as a visit of one of its stops or, when it has none, as itself. */
  datatype Slot = Slot(event: Event, stop: Option<Stop>)

  function Planned(s: Slot): Option<int> {
    if s.stop.Some? then s.stop.value.plannedTime else None
  }

  /** A planned stop and any event that is not a visit route have a fixed time. */
  predicate Fixed(s: Slot) {
    Planned(s).Some? || !s.event.route
  }

  function ClientOf(s: Slot): Option<Client> {
    if s.stop.Some? && s.stop.value.client.Some? then s.stop.value.client else s.event.client
  }

  function CityOf(s: Slot): Option<string> {
    var own := if s.stop.Some? then s.stop.value.city else None;
    var clients := if ClientOf(s).Some? then ClientOf(s).value.city else None;
    var city := OrText(own, OrText(clients, s.event.city));
    if city == Some("") then None else city
  }

  function StatusOf(s: Slot): string {
    if s.stop.Some? then TextOr(s.stop.value.resultStatus, s.event.status) else s.event.status
  }

  /** The item pushed for a slot, when `order` is next. */
  function MakeItem(rules: Rules, s: Slot, order: nat): Item {
    var start := Minutes(if Planned(s).Some? then Planned(s).value else s.event.start);
    var end := if Planned(s).Some? then start + DEFAULT_DURATION_MINUTES else Minutes(s.event.end);
    Item(
      s.event.id,
      if s.stop.Some? && s.stop.value.id != "" then Some(s.stop.value.id) else None,
      if s.stop.Some? then OrText(s.stop.value.clientId, s.event.clientId) else s.event.clientId,
      CityOf(s),
      if s.stop.Some? then Else(s.stop.value.checkInLat, s.stop.value.checkOutLat) else None,
      if s.stop.Some? then Else(s.stop.value.checkInLng, s.stop.value.checkOutLng) else None,
      order,
      rules.score(ClientOf(s), s.event),
      PeriodOf(start),
      !Fixed(s) && !IsDone(StatusOf(s)),
      if Fixed(s) then Some(start) else None,
      if Fixed(s) then Some(end) else None,
      if CityOf(s).Some? then rules.territory(CityOf(s).value) else None)
  }

  predicate Concluded(status: string) {
    || status == "realizado" || status == "completed" || status == "cancelled" || status == "cancelado"
    || status == "em_andamento"
  }

  predicate NonEmpty(text: Option<string>) {
    text.Some? && text.value != ""
  }

  /** A stop's own text, failing it the client's and failing that the event's. */
  predicate CityFrom(actual: Option<string>, own: Option<string>, ofClient: Option<string>, ofEvent: Option<string>) {
    actual == if NonEmpty(own) then own else if NonEmpty(ofClient) then ofClient else if NonEmpty(ofEvent) then ofEvent
              else None
  }

  /** What an item shows of a visit to a stop: the planned time, when there is one, fixes it for sixty minutes;
      otherwise it has the times of its event, fixed unless that is a visit route. It may move when nothing fixes it
      and neither the visit's result nor, without one, the event's status concludes it. */
  lemma StopShows(rules: Rules, e: Event, stop: Stop, order: nat)
    ensures var i, planned := MakeItem(rules, Slot(e, Some(stop)), order), stop.plannedTime;
            var client := if stop.client.Some? then stop.client else e.client;
            && i.eventId == e.id && i.order == order && (stop.id != "" ==> i.stopId == Some(stop.id))
            && i.clientId == (if NonEmpty(stop.clientId) then stop.clientId else e.clientId)
            && CityFrom(i.city, stop.city, if client.Some? then client.value.city else None, e.city)
            && i.latitude == (if stop.checkInLat.Some? then stop.checkInLat else stop.checkOutLat)
            && i.longitude == (if stop.checkInLng.Some? then stop.checkInLng else stop.checkOutLng)
            && i.score == rules.score(client, e)
            && match planned
               case Some(t) =>
                 && i.start == Some(t / 60_000 % 1440) && i.end == Some(t / 60_000 % 1440 + 60) && !i.movable
                 && (i.period == Morning <==> t / 60_000 % 1440 < 720)
               case None =>
                 && (i.period == Morning <==> e.start / 60_000 % 1440 < 720)
                 && i.start == (if e.route then None else Some(e.start / 60_000 % 1440))
                 && i.end == (if e.route then None else Some(e.end / 60_000 % 1440))
                 && (i.movable <==>
                       e.route && !Concluded(if NonEmpty(stop.resultStatus) then stop.resultStatus.value else e.status))
  {
    ConcludedIsDone(if NonEmpty(stop.resultStatus) then stop.resultStatus.value else e.status);
    hide IsDone, Concluded;
  }

  /** And of an event without stops. */
  lemma EventShows(rules: Rules, e: Event, order: nat)
    ensures var i := MakeItem(rules, Slot(e, None), order);
            && i.eventId == e.id && i.order == order && i.stopId == None && i.clientId == e.clientId
            && CityFrom(i.city, None, if e.client.Some? then e.client.value.city else None, e.city)
            && i.latitude == None && i.longitude == None && i.score == rules.score(e.client, e)
            && (i.period == Morning <==> e.start / 60_000 % 1440 < 720)
            && i.start == (if e.route then None else Some(e.start / 60_000 % 1440))
            && i.end == (if e.route then None else Some(e.end / 60_000 % 1440))
            && (i.movable <==> e.route && !Concluded(e.status))
  {
    ConcludedIsDone(e.status);
    hide IsDone, Concluded;
  }

  lemma ConcludedIsDone(status: string)
    ensures IsDone(status) <==> Concluded(status)
  {
  }

  /** The slots of one event, in the order of its stops. */
  function SlotsOf(e: Event): (r: seq<Slot>)
    ensures |r| == if e.stops == [] then 1 else |e.stops|
    ensures forall i | 0 <= i < |r| :: r[i] == Slot(e, if e.stops == [] then None else Some(e.stops[i]))
  {
    if e.stops == [] then [Slot(e, None)]
      else seq(|e.stops|, i requires 0 <= i < |e.stops| => Slot(e, Some(e.stops[i])))
  }

  function Slots(events: seq<Event>): seq<Slot> {
    if events == [] then [] else Slots(events[..|events| - 1]) + SlotsOf(events[|events| - 1])
  }

  function Items(rules: Rules, slots: seq<Slot>): (r: seq<Item>)
    ensures |r| == |slots|
    ensures forall i | 0 <= i < |r| :: r[i] == MakeItem(rules, slots[i], i + 1)
  {
    seq(|slots|, i requires 0 <= i < |slots| => MakeItem(rules, slots[i], i + 1))
  }

  lemma ItemsEmpty(rules: Rules)
    ensures Items(rules, []) == []
  {
  }

  lemma ItemsAppend(rules: Rules, slots: seq<Slot>, s: Slot)
    ensures Items(rules, slots + [s]) == Items(rules, slots) + [MakeItem(rules, s, |slots| + 1)]
  {
    hide MakeItem;
  }

  /** The two nested loops list every stop, or stopless event, once, numbered from 1. */
  method BuildItems(rules: Rules, events: seq<Event>) returns (items: seq<Item>)
    ensures items == Items(rules, Slots(events))
  {
    hide MakeItem, Items;
    ItemsEmpty(rules);
    items := [];
    var order := 1;
    for i := 0 to |events|
      invariant items == Items(rules, Slots(events[..i])) && order == |items| + 1
    {
      assert events[..i + 1][..i] == events[..i];
      ghost var before := items;
      var slots := SlotsOf(events[i]);
      assert Slots(events[..i]) + slots[..0] == Slots(events[..i]);
      for j := 0 to |slots|
        invariant items == Items(rules, Slots(events[..i]) + slots[..j]) && order == |items| + 1
      {
        ItemsAppend(rules, Slots(events[..i]) + slots[..j], slots[j]);
        items := items + [MakeItem(rules, slots[j], order)];
        order := order + 1;
        assert Slots(events[..i]) + slots[..j + 1] == (Slots(events[..i]) + slots[..j]) + [slots[j]];
      }
      assert slots[..|slots|] == slots;
    }
    assert events[..|events|] == events;
  }

  function OrderOf(): Item -> int {
    (i: Item) => i.order
  }

  // ----- Conflicts -----

  datatype Conflict = TimeOverlap | MissingLocation | OverCapacity(period: Period)

  function Abs(x: real): real {
    if x < 0.0 then -x else x
  }

  predicate Located(i: Item) {
    && i.latitude.Some? && i.longitude.Some?
    && Abs(i.latitude.value) <= 90.0 && Abs(i.longitude.value) <= 180.0
  }

  /** Both coordinates are there, and on the globe. */
  lemma LocatedExactly(i: Item)
    ensures Located(i) <==>
              && i.latitude != None && -90.0 <= i.latitude.value <= 90.0
              && i.longitude != None && -180.0 <= i.longitude.value <= 180.0
  {
  }

  predicate Timed(i: Item) {
    i.start.Some? && i.end.Some?
  }

  function HasTime(): Item -> bool {
    (i: Item) => Timed(i)
  }

  function IsUnlocated(): Item -> bool {
    (i: Item) => !Located(i)
  }

  function InPeriod(p: Period): Item -> bool {
    (i: Item) => i.period == p
  }

  /** `a.startMinutes ?? 9999`. */
  function StartOr(i: Item): int {
    if i.start.Some? then i.start.value else 9999
  }

  function ByStart(): (Item, Item) -> bool {
    ByNumber(StartOr)
  }

  /** The timed items in scanning order. */
  function Timeline(items: seq<Item>): seq<Item> {
    Sort(ByStart(), Filter(items, HasTime()))
  }

  /** The test made on neighbours. */
  predicate Clash(earlier: Item, later: Item) {
    Timed(earlier) && Timed(later) && later.start.value < earlier.end.value
  }

  /** How many neighbours clash. */
  function Clashes(line: seq<Item>): nat {
    if |line| < 2 then 0
    else Clashes(line[..|line| - 1]) + (if Clash(line[|line| - 2], line[|line| - 1]) then 1 else 0)
  }

  function Repeat(c: Conflict, n: nat): seq<Conflict> {
    if n == 0 then [] else Repeat(c, n - 1) + [c]
  }

  function Overfull(items: seq<Item>, p: Period): seq<Conflict> {
    if |Filter(items, InPeriod(p))| > MAX_STOPS_PER_PERIOD then [OverCapacity(p)] else []
  }

  function Conflicts(items: seq<Item>): seq<Conflict> {
    Repeat(TimeOverlap, Clashes(Timeline(items))) + Repeat(MissingLocation, |Filter(items, IsUnlocated())|)
    + Overfull(items, Morning) + Overfull(items, Afternoon)
  }

  lemma ClashesStep(line: seq<Item>, i: nat)
    requires i < |line|
    ensures Clashes(line[..i + 1]) == Clashes(line[..i]) + (if i > 0 && Clash(line[i - 1], line[i]) then 1 else 0)
    ensures Clashes(line[..0]) == 0 && line[..|line|] == line
  {
    hide Clash;
    assert line[..i + 1][..i] == line[..i];
  }

  lemma NoClashes(line: seq<Item>)
    requires |line| < 2
    ensures Clashes(line) == 0
  {
  }

  lemma FilterNothing(p: Item -> bool)
    ensures Filter([], p) == []
  {
  }

  lemma RepeatStep(c: Conflict, n: nat)
    ensures Repeat(c, 0) == [] && Repeat(c, n + 1) == Repeat(c, n) + [c]
  {
  }

  method DetectConflicts(items: seq<Item>) returns (conflicts: seq<Conflict>)
    ensures conflicts == Conflicts(items)
  {
    hide Timeline, Filter, Located, Clash, Clashes, Repeat;
    conflicts := [];
    RepeatStep(TimeOverlap, 0);
    RepeatStep(MissingLocation, 0);
    var fixed := Timeline(items);
    var i := 1;
    if |fixed| > 0 {
      ClashesStep(fixed, 0);
    } else {
      NoClashes(fixed);
    }
    while i < |fixed|
      invariant 1 <= i && (|fixed| > 0 ==> i <= |fixed|)
      invariant conflicts == Repeat(TimeOverlap, Clashes(fixed[..if i <= |fixed| then i else 0]))
    {
      ClashesStep(fixed, i);
      if Clash(fixed[i - 1], fixed[i]) {
        RepeatStep(TimeOverlap, Clashes(fixed[..i]));
        conflicts := conflicts + [TimeOverlap];
      }
      i := i + 1;
    }
    assert fixed[..|fixed|] == fixed;
    ghost var overlaps := conflicts;
    assert items[..0] == [];
    FilterNothing(IsUnlocated());
    for j := 0 to |items|
      invariant conflicts == overlaps + Repeat(MissingLocation, |Filter(items[..j], IsUnlocated())|)
    {
      FilterStep(items, j, IsUnlocated());
      if !Located(items[j]) {
        RepeatStep(MissingLocation, |Filter(items[..j], IsUnlocated())|);
        conflicts := conflicts + [MissingLocation];
      }
    }
    assert items[..|items|] == items;
    if |Filter(items, InPeriod(Morning))| > MAX_STOPS_PER_PERIOD {
      conflicts := conflicts + [OverCapacity(Morning)];
    }
    if |Filter(items, InPeriod(Afternoon))| > MAX_STOPS_PER_PERIOD {
      conflicts := conflicts + [OverCapacity(Afternoon)];
    }
  }

  // ----- The scan of neighbours against all pairs -----

  /** `a` comes before `b` in the scan: it starts earlier, or at the same minute and was listed earlier. */
  predicate Precedes(a: Item, b: Item) {
    StartOr(a) < StartOr(b) || (StartOr(a) == StartOr(b) && a.order < b.order)
  }

  ghost predicate Chronological(line: seq<Item>) {
    forall i, j | 0 <= i < j < |line| :: Precedes(line[i], line[j])
  }

  lemma {:induction false} FilterIncreasing(items: seq<Item>, p: Item -> bool)
    requires Increasing(OrderOf(), items)
    ensures Increasing(OrderOf(), Filter(items, p))
  {
    if items != [] {
      var init, last := items[..|items| - 1], items[|items| - 1];
      FilterIncreasing(init, p);
      LastIsLater(items);
      AppendIncreasing(Filter(init, p), last);
      hide Increasing;
    }
  }

  lemma LastIsLater(items: seq<Item>)
    requires Increasing(OrderOf(), items) && items != []
    ensures var init, last := items[..|items| - 1], items[|items| - 1];
            Increasing(OrderOf(), init) && forall x | x in init :: x.order < last.order
  {
    var init, last := items[..|items| - 1], items[|items| - 1];
    forall x | x in init ensures x.order < last.order {
      var i :| 0 <= i < |init| && init[i] == x;
      assert OrderOf()(items[i]) < OrderOf()(last);
    }
  }

  lemma AppendIncreasing(items: seq<Item>, x: Item)
    requires Increasing(OrderOf(), items)
    ensures (forall y | y in items :: y.order < x.order) ==> Increasing(OrderOf(), items + [x])
  {
  }

  lemma ItemsIncreasing(rules: Rules, slots: seq<Slot>)
    ensures Increasing(OrderOf(), Items(rules, slots))
  {
  }

  lemma TimelineIsChronological(items: seq<Item>)
    requires Increasing(OrderOf(), items)
    ensures Chronological(Timeline(items))
    ensures forall i :: i in Timeline(items) <==> i in items && Timed(i)
  {
    var timed := Filter(items, HasTime());
    FilterIncreasing(items, HasTime());
    SameElements(timed, Timeline(items));
    SortIsChronological(timed);
    hide Sort, Filter;
  }

  lemma SortIsChronological(timed: seq<Item>)
    requires Increasing(OrderOf(), timed)
    ensures Chronological(Sort(ByStart(), timed))
  {
    SortBreaksTiesByOrder(ByStart(), OrderOf(), timed);
    ThenPreorder(ByStart(), ByNumber(OrderOf()));
    SortSorted(Then(ByStart(), ByNumber(OrderOf())), timed);
    SortDistinct(ByStart(), OrderOf(), timed);
    hide Sort;
    var line := Sort(ByStart(), timed);
    forall i, j | 0 <= i < j < |line| ensures Precedes(line[i], line[j]) {
      assert Then(ByStart(), ByNumber(OrderOf()))(line[i], line[j]);
      assert OrderOf()(line[i]) != OrderOf()(line[j]);
    }
  }

  predicate ClashAt(line: seq<Item>, i: int) {
    0 < i < |line| && Clash(line[i - 1], line[i])
  }

  lemma {:induction false} ClashesFound(line: seq<Item>)
    ensures Clashes(line) > 0 <==> exists i :: ClashAt(line, i)
  {
    if |line| >= 2 {
      var n := |line| - 1;
      ClashesFound(line[..n]);
      hide Clash;
      forall i ensures ClashAt(line, i) <==> ClashAt(line[..n], i) || (i == n && ClashAt(line, n)) {
      }
      assert ClashAt(line, n) <==> Clash(line[|line| - 2], line[|line| - 1]);
    }
  }

  /** In a chronological line some neighbours clash as soon as any earlier item outlasts the start of a later one. */
  lemma NeighboursSuffice(line: seq<Item>, i: nat, j: nat)
    requires Chronological(line) && i < j < |line| && Clash(line[i], line[j]) && forall x | x in line :: Timed(x)
    ensures Clashes(line) > 0
  {
    ClashesFound(line);
    if i + 1 < j {
      assert Precedes(line[i + 1], line[j]);
    }
    assert Timed(line[i + 1]) && ClashAt(line, i + 1);
  }

  predicate ClashingPair(items: seq<Item>, a: Item, b: Item) {
    a in items && b in items && Precedes(a, b) && Clash(a, b)
  }

  /** The scan reports an overlap exactly when, of some two timed items, the one scanned first ends after the
      other starts, however far apart they stand. */
  lemma ScanSeesAllPairs(items: seq<Item>)
    requires Increasing(OrderOf(), items)
    ensures Clashes(Timeline(items)) > 0 <==> exists a, b :: ClashingPair(items, a, b)
  {
    TimelineIsChronological(items);
    hide Timeline, Clash, Timed, Precedes;
    var line := Timeline(items);
    ClashesFound(line);
    if Clashes(line) > 0 {
      var i :| ClashAt(line, i);
      assert line[i - 1] in line && line[i] in line;
      assert ClashingPair(items, line[i - 1], line[i]);
    }
    forall a, b | ClashingPair(items, a, b) ensures Clashes(line) > 0 {
      PairIsSeen(items, a, b);
    }
  }

  lemma PairIsSeen(items: seq<Item>, a: Item, b: Item)
    requires Increasing(OrderOf(), items) && ClashingPair(items, a, b)
    ensures Clashes(Timeline(items)) > 0
  {
    TimelineIsChronological(items);
    hide Timeline, Clashes, Chronological, Increasing, Precedes, Clash;
    var line := Timeline(items);
    assert a in line && b in line;
    var i :| 0 <= i < |line| && line[i] == a;
    var j :| 0 <= j < |line| && line[j] == b;
    if j <= i {
      NotEarlier(line, i, j);
    }
    NeighboursSuffice(line, i, j);
  }

  lemma NotEarlier(line: seq<Item>, i: nat, j: nat)
    requires Chronological(line) && j <= i < |line|
    ensures !Precedes(line[i], line[j])
  {
  }

  // ----- The symmetric reading -----

  /** `b` starts while `a` is under way. */
  predicate StartsDuring(a: Item, b: Item) {
    Timed(a) && Timed(b) && a.start.value <= b.start.value < a.end.value
  }

  predicate OverlappingPair(items: seq<Item>, a: Item, b: Item) {
    a in items && b in items && a.order != b.order && StartsDuring(a, b)
  }

  /** An item that ends no later than it starts, listed before one that starts at the same minute and lasts. */
  predicate Trap(items: seq<Item>, a: Item, b: Item) {
    && a in items && b in items && Timed(a) && Timed(b) && a.order < b.order
    && a.end.value <= a.start.value == b.start.value < b.end.value
  }

  ghost predicate Reported(items: seq<Item>) {
    Clashes(Timeline(items)) > 0
  }

  ghost predicate Overlap(items: seq<Item>) {
    exists a, b :: OverlappingPair(items, a, b)
  }

  ghost predicate NoTrap(items: seq<Item>) {
    forall a, b :: !Trap(items, a, b)
  }

  /** What is reported is an overlap; an overlap is reported unless the day holds a trap. */
  lemma ScanAgainstOverlap(items: seq<Item>)
    requires Increasing(OrderOf(), items)
    ensures Reported(items) ==> Overlap(items)
    ensures NoTrap(items) ==> (Reported(items) <==> Overlap(items))
  {
    ScanSeesAllPairs(items);
    forall a, b
      ensures ClashingPair(items, a, b) ==> OverlappingPair(items, a, b)
      ensures OverlappingPair(items, a, b) ==>
                ClashingPair(items, a, b) || ClashingPair(items, b, a) || Trap(items, b, a)
    {
      PairJudged(items, a, b);
    }
    hide Clashes, Timeline, Increasing, ClashingPair, OverlappingPair, Trap;
    if a, b :| ClashingPair(items, a, b) {
      assert OverlappingPair(items, a, b);
    }
    if NoTrap(items) && Overlap(items) {
      var a, b :| OverlappingPair(items, a, b);
      assert !Trap(items, b, a);
    }
  }

  lemma PairJudged(items: seq<Item>, a: Item, b: Item)
    requires Increasing(OrderOf(), items)
    ensures ClashingPair(items, a, b) ==> OverlappingPair(items, a, b)
    ensures OverlappingPair(items, a, b) ==> ClashingPair(items, a, b) || ClashingPair(items, b, a) || Trap(items, b, a)
    ensures Trap(items, a, b) ==> OverlappingPair(items, b, a)
  {
    if a in items && b in items && a.order == b.order {
      SameOrderSameItem(items, a, b);
    }
    hide Increasing;
  }

  lemma SameOrderSameItem(items: seq<Item>, a: Item, b: Item)
    requires Increasing(OrderOf(), items) && a in items && b in items && a.order == b.order
    ensures a == b
  {
    var i :| 0 <= i < |items| && items[i] == a;
    var j :| 0 <= j < |items| && items[j] == b;
    assert i < j ==> OrderOf()(items[i]) < OrderOf()(items[j]);
    assert j < i ==> OrderOf()(items[j]) < OrderOf()(items[i]);
  }

  /** The report tells whether the day overlaps exactly when the day holds no trap, or some pair clashes in the order
      of the scan anyway. */
  lemma DayIsJudged(items: seq<Item>)
    requires Increasing(OrderOf(), items)
    ensures (Reported(items) <==> Overlap(items)) <==> (NoTrap(items) || exists a, b :: ClashingPair(items, a, b))
  {
    ScanSeesAllPairs(items);
    ScanAgainstOverlap(items);
    hide Clashes, Timeline, Increasing;
    if a, b :| Trap(items, a, b) {
      PairJudged(items, a, b);
    }
  }

  /** Two items alone are judged rightly exactly when they are no trap. */
  lemma PairIsJudged(a: Item, b: Item)
    requires a.order < b.order && Timed(a) && Timed(b)
    ensures (Reported([a, b]) <==> Overlap([a, b])) <==> !Trap([a, b], a, b)
  {
    var items := [a, b];
    ScanSeesAllPairs(items);
    hide Clashes, Timeline;
    assert a == items[0] && b == items[1];
    if Trap(items, a, b) {
      assert OverlappingPair(items, b, a);
    } else {
      assert NoTrap(items) by {
        assert forall x, y | Trap(items, x, y) :: x == a && y == b;
      }
      ScanAgainstOverlap(items);
    }
  }

  // ----- The clock on the wall -----

  function RealStart(s: Slot): int {
    if Planned(s).Some? then Planned(s).value else s.event.start
  }

  function RealEnd(s: Slot): int {
    if Planned(s).Some? then Planned(s).value + DEFAULT_DURATION_MINUTES * MINUTE else s.event.end
  }

  predicate OnDay(t: int, day: int) {
    t / DAY == day && t % MINUTE == 0
  }

  /** A fixed commitment of whole minutes and positive length, kept inside one UTC day. */
  predicate Regular(s: Slot, day: int) {
    OnDay(RealStart(s), day) && (Planned(s).None? ==> OnDay(RealEnd(s), day)) && RealStart(s) < RealEnd(s)
  }

  /** Commitment `j` starts while commitment `i` is under way. */
  predicate RealOverlap(slots: seq<Slot>, i: int, j: int) {
    && 0 <= i < |slots| && 0 <= j < |slots| && i != j && Fixed(slots[i]) && Fixed(slots[j])
    && RealStart(slots[i]) <= RealStart(slots[j]) < RealEnd(slots[i])
  }

  lemma MinutesTellTime(t: int, day: int)
    requires OnDay(t, day)
    ensures t == day * DAY + Minutes(t) * MINUTE
  {
    var m := t / MINUTE;
    assert t == m * MINUTE;
    assert m / 1440 == day by {
      assert t == day * DAY + t % DAY;
      assert m == 1440 * day + t % DAY / MINUTE;
    }
  }

  lemma SlotTimes(rules: Rules, s: Slot, order: nat, day: int)
    requires Fixed(s) && Regular(s, day)
    ensures var i := MakeItem(rules, s, order);
            && Timed(i) && i.order == order && i.start.value < i.end.value
            && RealStart(s) == day * DAY + i.start.value * MINUTE && RealEnd(s) == day * DAY + i.end.value * MINUTE
  {
    MinutesTellTime(RealStart(s), day);
    if Planned(s).None? {
      MinutesTellTime(RealEnd(s), day);
    }
    hide Minutes, OnDay, CityOf, ClientOf, StatusOf, IsDone;
  }

  lemma RealPair(rules: Rules, slots: seq<Slot>, day: int, i: nat, j: nat)
    requires i < |slots| && j < |slots| && Fixed(slots[i]) && Fixed(slots[j])
    requires Regular(slots[i], day) && Regular(slots[j], day)
    ensures var items := Items(rules, slots);
            OverlappingPair(items, items[i], items[j]) <==> RealOverlap(slots, i, j)
  {
    SlotTimes(rules, slots[i], i + 1, day);
    SlotTimes(rules, slots[j], j + 1, day);
    var items := Items(rules, slots);
    assert items[i] == MakeItem(rules, slots[i], i + 1) && items[j] == MakeItem(rules, slots[j], j + 1);
    hide MakeItem, Regular, RealStart, RealEnd, Fixed, Items;
    assert items[i] in items && items[j] in items;
    SameDayOrder(day, items[i].start.value, items[j].start.value);
    SameDayOrder(day, items[j].start.value, items[i].end.value);
    hide StartsDuring;
    assert StartsDuring(items[i], items[j]) <==> RealStart(slots[i]) <= RealStart(slots[j]) < RealEnd(slots[i]) by {
      DuringIs(items[i], items[j]);
    }
  }

  lemma DuringIs(a: Item, b: Item)
    requires Timed(a) && Timed(b)
    ensures StartsDuring(a, b) <==> a.start.value <= b.start.value && b.start.value < a.end.value
  {
  }

  lemma SameDayOrder(day: int, m: int, n: int)
    ensures day * DAY + m * MINUTE <= day * DAY + n * MINUTE <==> m <= n
    ensures day * DAY + m * MINUTE < day * DAY + n * MINUTE <==> m < n
  {
  }

  lemma TimedIsFixed(rules: Rules, slots: seq<Slot>, x: Item) returns (i: nat)
    requires x in Items(rules, slots) && Timed(x)
    ensures i < |slots| && Items(rules, slots)[i] == x && Fixed(slots[i])
  {
    i :| 0 <= i < |slots| && Items(rules, slots)[i] == x;
  }

  ghost predicate AllRegular(slots: seq<Slot>, day: int) {
    forall s | s in slots && Fixed(s) :: Regular(s, day)
  }

  /** When the fixed commitments of a day are regular, an overlap is reported exactly when two of them overlap in
      real time. */
  lemma ReportsRealOverlap(rules: Rules, slots: seq<Slot>, day: int)
    requires AllRegular(slots, day)
    ensures Reported(Items(rules, slots)) <==> exists i, j :: RealOverlap(slots, i, j)
  {
    var items := Items(rules, slots);
    ItemsIncreasing(rules, slots);
    hide Regular, Fixed, MakeItem, RealStart, RealEnd, Items, Reported;
    forall a, b ensures !Trap(items, a, b) {
      if Trap(items, a, b) {
        var i := TimedIsFixed(rules, slots, a);
        SlotTimes(rules, slots[i], i + 1, day);
      }
    }
    ScanAgainstOverlap(items);
    if Overlap(items) {
      var a, b :| OverlappingPair(items, a, b);
      var i := TimedIsFixed(rules, slots, a);
      var j := TimedIsFixed(rules, slots, b);
      RealPair(rules, slots, day, i, j);
    }
    if i, j :| RealOverlap(slots, i, j) {
      assert slots[i] in slots && slots[j] in slots && Fixed(slots[i]) && Fixed(slots[j]);
      RealPair(rules, slots, day, i, j);
    }
  }

  // ----- A whole calendar day in Brasilia -----

  /** Midnight in Brasilia, in minutes after midnight UTC. */
  const LOCAL_MIDNIGHT := 180

  /** A commitment of whole minutes and positive length inside the calendar day, from 03:00 UTC to 03:00 UTC; a planned
      stop need only start in it. */
  predicate OnLocalDay(s: Slot, day: int) {
    var midnight := day * DAY + LOCAL_MIDNIGHT * MINUTE;
    && midnight <= RealStart(s) < midnight + DAY && RealStart(s) % MINUTE == 0
    && (Planned(s).None? ==> RealStart(s) < RealEnd(s) <= midnight + DAY && RealEnd(s) % MINUTE == 0)
  }

  /** At or after midnight UTC, nine in the evening in Brasilia. */
  predicate Late(t: int, day: int) {
    t >= (day + 1) * DAY
  }

  predicate FixedPair(slots: seq<Slot>, i: int, j: int) {
    0 <= i < |slots| && 0 <= j < |slots| && i != j && Fixed(slots[i]) && Fixed(slots[j])
  }

  /** `i` starts first, or with `j` and listed before it, and is still under way when `j` starts. */
  predicate OverlapInOrder(slots: seq<Slot>, i: int, j: int) {
    && FixedPair(slots, i, j)
    && (RealStart(slots[i]) < RealStart(slots[j]) || (RealStart(slots[i]) == RealStart(slots[j]) && i < j))
    && RealStart(slots[j]) < RealEnd(slots[i])
  }

  /** Both start on one side of midnight UTC, and the first does not run into it (a planned stop never seems to). */
  predicate OneSide(slots: seq<Slot>, day: int, i: int, j: int)
    requires FixedPair(slots, i, j)
  {
    && (Late(RealStart(slots[i]), day) <==> Late(RealStart(slots[j]), day))
    && (Planned(slots[i]).Some? || Late(RealStart(slots[i]), day) || !Late(RealEnd(slots[i]), day))
  }

  predicate Seen(slots: seq<Slot>, day: int, i: int, j: int) {
    OverlapInOrder(slots, i, j) && OneSide(slots, day, i, j)
  }

  predicate Missed(slots: seq<Slot>, day: int, i: int, j: int) {
    OverlapInOrder(slots, i, j) && !OneSide(slots, day, i, j)
  }

  /** A stop planned in the last hour of the day that would reach `j` if it were a day earlier. */
  predicate FalseAlarm(slots: seq<Slot>, day: int, i: int, j: int) {
    && FixedPair(slots, i, j) && Planned(slots[i]).Some?
    && Late(RealStart(slots[i]), day) && !Late(RealStart(slots[j]), day)
    && RealStart(slots[j]) + DAY < RealEnd(slots[i])
  }

  /** `m` minutes after midnight UTC of the day. */
  function Clock(day: int, m: int): int {
    day * DAY + m * MINUTE
  }

  lemma ClockOrder(day: int, m: int, n: int)
    ensures Clock(day, m) < Clock(day, n) <==> m < n
    ensures Clock(day, m) == Clock(day, n) <==> m == n
    ensures Clock(day, m) + DAY == Clock(day, m + 1440) && Clock(day, m) + 60 * MINUTE == Clock(day, m + 60)
  {
  }

  /** An instant of the local day: the minutes an item shows of it, and those since midnight UTC. */
  lemma LocalMinutes(t: int, day: int) returns (m: int)
    requires t % MINUTE == 0 && Clock(day, LOCAL_MIDNIGHT) <= t <= Clock(day, LOCAL_MIDNIGHT) + DAY
    ensures t == Clock(day, m) && 180 <= m <= 1620 && (Late(t, day) <==> m >= 1440)
    ensures Minutes(t) == if m >= 1440 then m - 1440 else m
  {
    MinutesTellTime(t, if Late(t, day) then day + 1 else day);
    m := Minutes(t) + if Late(t, day) then 1440 else 0;
    hide Minutes;
  }

  /** The same in whole minutes since midnight UTC of the day, from 180 to 1620: what the scan sees of `i` and `j`. */
  lemma WrappedClash(planned: bool, si: int, ei: int, sj: int, listed: bool)
    requires 180 <= si < 1620 && 180 <= sj < 1620
    requires if planned then ei == si + 60 else si < ei <= 1620
    ensures var smi, smj := if si >= 1440 then si - 1440 else si, if sj >= 1440 then sj - 1440 else sj;
            var emi := if planned then smi + 60 else if ei >= 1440 then ei - 1440 else ei;
            (smi < smj || (smi == smj && listed)) && smj < emi <==>
            || ((si < sj || (si == sj && listed)) && sj < ei && (si >= 1440 <==> sj >= 1440)
                && (planned || si >= 1440 || ei < 1440))
            || (planned && si >= 1440 && sj < 1440 && sj + 1440 < ei)
  {
  }

  /** A commitment and its item, in minutes since midnight UTC. */
  ghost predicate Walled(s: Slot, i: Item, order: nat, day: int, si: int, ei: int) {
    && Timed(i) && i.order == order && 180 <= si < 1620
    && RealStart(s) == Clock(day, si) && RealEnd(s) == Clock(day, ei)
    && (if Planned(s).Some? then ei == si + 60 else si < ei <= 1620)
    && i.start.value == (if si >= 1440 then si - 1440 else si)
    && i.end.value == (if Planned(s).Some? then i.start.value + 60 else if ei >= 1440 then ei - 1440 else ei)
    && (Late(RealStart(s), day) <==> si >= 1440) && (Planned(s).None? ==> (Late(RealEnd(s), day) <==> ei >= 1440))
  }

  lemma LocalWall(rules: Rules, s: Slot, order: nat, day: int) returns (si: int, ei: int)
    requires Fixed(s) && OnLocalDay(s, day)
    ensures Walled(s, MakeItem(rules, s, order), order, day, si, ei)
  {
    ItemTimes(rules, s, order);
    LocalBounds(s, day);
    hide MakeItem, Minutes, Late, Clock, OnLocalDay, Fixed;
    si := LocalMinutes(RealStart(s), day);
    if Planned(s).Some? {
      ei := si + DEFAULT_DURATION_MINUTES;
      ClockOrder(day, si, ei);
    } else {
      ei := LocalMinutes(RealEnd(s), day);
      ClockOrder(day, si, ei);
    }
    ClockOrder(day, si, 1620);
    ClockOrder(day, LOCAL_MIDNIGHT, si);
  }

  lemma ItemTimes(rules: Rules, s: Slot, order: nat)
    requires Fixed(s)
    ensures var i := MakeItem(rules, s, order);
            && Timed(i) && i.order == order && i.start.value == Minutes(RealStart(s))
            && i.end.value
              == (if Planned(s).Some? then i.start.value + DEFAULT_DURATION_MINUTES else Minutes(RealEnd(s)))
  {
    hide Minutes, CityOf, ClientOf, StatusOf, IsDone;
  }

  lemma LocalBounds(s: Slot, day: int)
    requires OnLocalDay(s, day)
    ensures Clock(day, LOCAL_MIDNIGHT) <= RealStart(s) < Clock(day, 1620) == Clock(day, LOCAL_MIDNIGHT) + DAY
    ensures RealStart(s) % MINUTE == 0
    ensures Planned(s).Some? ==> RealEnd(s) == RealStart(s) + 60 * MINUTE
    ensures Planned(s).None? ==> RealStart(s) < RealEnd(s) <= Clock(day, 1620) && RealEnd(s) % MINUTE == 0
  {
  }

  /** Two commitments of one local day clash in the scan exactly when the overlap is seen or the alarm is false. */
  lemma LocalPair(rules: Rules, slots: seq<Slot>, day: int, i: nat, j: nat)
    requires FixedPair(slots, i, j) && OnLocalDay(slots[i], day) && OnLocalDay(slots[j], day)
    ensures LocalMatch(rules, slots, day, i, j)
  {
    var items := Items(rules, slots);
    assert items[i] == MakeItem(rules, slots[i], i + 1) && items[j] == MakeItem(rules, slots[j], j + 1);
    assert items[i] in items && items[j] in items;
    hide MakeItem, Items, Late, OnLocalDay, Fixed, Planned, RealStart, RealEnd, Clock, Seen, FalseAlarm;
    var si, ei := LocalWall(rules, slots[i], i + 1, day);
    var sj, ej := LocalWall(rules, slots[j], j + 1, day);
    SeenOrFalse(slots, day, i, j, items[i], items[j], si, ei, sj, ej);
    WrappedClash(Planned(slots[i]).Some?, si, ei, sj, i < j);
  }

  lemma SeenOrFalse(slots: seq<Slot>, day: int, i: nat, j: nat, a: Item, b: Item, si: int, ei: int, sj: int, ej: int)
    requires FixedPair(slots, i, j)
    requires Walled(slots[i], a, i + 1, day, si, ei) && Walled(slots[j], b, j + 1, day, sj, ej)
    ensures Seen(slots, day, i, j) || FalseAlarm(slots, day, i, j) <==>
            var planned := Planned(slots[i]).Some?;
            || ((si < sj || (si == sj && i < j)) && sj < ei && (si >= 1440 <==> sj >= 1440)
                && (planned || si >= 1440 || ei < 1440))
            || (planned && si >= 1440 && sj < 1440 && sj + 1440 < ei)
  {
    hide RealStart, RealEnd, Late, Planned, Fixed, Clock;
    ClockOrder(day, si, sj);
    ClockOrder(day, sj, ei);
    ClockOrder(day, sj + 1440, ei);
  }

  ghost predicate LocalMatch(rules: Rules, slots: seq<Slot>, day: int, i: int, j: int) {
    FixedPair(slots, i, j) ==>
      var items := Items(rules, slots);
      ClashingPair(items, items[i], items[j]) <==> Seen(slots, day, i, j) || FalseAlarm(slots, day, i, j)
  }

  ghost predicate AllLocal(slots: seq<Slot>, day: int) {
    forall s | s in slots && Fixed(s) :: OnLocalDay(s, day)
  }

  lemma ReportsSeen(rules: Rules, slots: seq<Slot>, day: int)
    requires AllLocal(slots, day)
    ensures Reported(Items(rules, slots)) <==>
            (exists i, j :: Seen(slots, day, i, j)) || (exists i, j :: FalseAlarm(slots, day, i, j))
  {
    var items := Items(rules, slots);
    ItemsIncreasing(rules, slots);
    ScanSeesAllPairs(items);
    hide Clashes, Timeline, Items, MakeItem, Increasing;
    forall i, j ensures LocalMatch(rules, slots, day, i, j) {
      if FixedPair(slots, i, j) {
        assert slots[i] in slots && slots[j] in slots;
        LocalPair(rules, slots, day, i, j);
      }
    }
    if a, b :| ClashingPair(items, a, b) {
      ClashIsLocal(rules, slots, day, a, b);
    }
    if i, j :| Seen(slots, day, i, j) {
      SeenIsPair(slots, day, i, j);
      assert LocalMatch(rules, slots, day, i, j);
    }
    if i, j :| FalseAlarm(slots, day, i, j) {
      assert LocalMatch(rules, slots, day, i, j);
    }
  }

  lemma ClashIsLocal(rules: Rules, slots: seq<Slot>, day: int, a: Item, b: Item)
    requires ClashingPair(Items(rules, slots), a, b) && forall i, j :: LocalMatch(rules, slots, day, i, j)
    ensures (exists i, j :: Seen(slots, day, i, j)) || (exists i, j :: FalseAlarm(slots, day, i, j))
  {
    var i := TimedIsFixed(rules, slots, a);
    var j := TimedIsFixed(rules, slots, b);
    hide Items, Fixed;
    assert FixedPair(slots, i, j);
    assert LocalMatch(rules, slots, day, i, j);
    hide Seen, FalseAlarm, ClashingPair;
  }

  lemma SeenIsPair(slots: seq<Slot>, day: int, i: int, j: int)
    requires Seen(slots, day, i, j)
    ensures FixedPair(slots, i, j)
  {
  }

  ghost predicate RealOverlaps(slots: seq<Slot>) {
    exists i, j :: RealOverlap(slots, i, j)
  }

  lemma RealOverlapsInOrder(slots: seq<Slot>, day: int)
    requires AllLocal(slots, day)
    ensures RealOverlaps(slots)
            <==> (exists i, j :: Seen(slots, day, i, j)) || (exists i, j :: Missed(slots, day, i, j))
  {
    hide Fixed, OneSide;
    if i, j :| RealOverlap(slots, i, j) {
      assert slots[j] in slots && slots[i] in slots;
      if OverlapInOrder(slots, i, j) {
        assert Seen(slots, day, i, j) || Missed(slots, day, i, j);
      } else {
        assert OverlapInOrder(slots, j, i);
        assert Seen(slots, day, j, i) || Missed(slots, day, j, i);
      }
    }
    forall i, j | OverlapInOrder(slots, i, j) ensures RealOverlap(slots, i, j) {
    }
    hide OverlapInOrder, RealOverlap;
    if i, j :| Seen(slots, day, i, j) {
      assert RealOverlap(slots, i, j);
    }
    if i, j :| Missed(slots, day, i, j) {
      assert RealOverlap(slots, i, j);
    }
  }

  /** For every day of commitments kept in one calendar day of Brasilia: the report tells whether two of them overlap
      in real time exactly when it sees an overlap on one side of midnight UTC, or misses one across it just when it
      raises a false alarm. */
  lemma LocalDayIsJudged(rules: Rules, slots: seq<Slot>, day: int)
    requires AllLocal(slots, day)
    ensures (Reported(Items(rules, slots)) <==> RealOverlaps(slots)) <==>
            || (exists i, j :: Seen(slots, day, i, j))
            || ((exists i, j :: Missed(slots, day, i, j)) <==> (exists i, j :: FalseAlarm(slots, day, i, j)))
  {
    ReportsSeen(rules, slots, day);
    RealOverlapsInOrder(slots, day);
    hide *;
  }

  function Meeting(start: int, end: int): Event {
    Event("e", false, start, end, "agendado", None, None, None, [])
  }

  /** Across midnight UTC, nine in the evening in Brasilia, the minutes wrap: a meeting from 20:30 to 21:30 and one
      from 21:00 to 22:00 are not reported. */
  lemma EveningOverlapMissed(rules: Rules)
    ensures var late, later := Meeting(1410 * MINUTE, 1470 * MINUTE), Meeting(1440 * MINUTE, 1500 * MINUTE);
            var slots := Slots([late, later]);
            RealOverlap(slots, 0, 1) && !Reported(Items(rules, slots))
  {
    var late, later := Meeting(1410 * MINUTE, 1470 * MINUTE), Meeting(1440 * MINUTE, 1500 * MINUTE);
    TwoMeetings(late, later);
    var slots := [Slot(late, None), Slot(later, None)];
    EveningMinutes(rules, slots[0], slots[1]);
    ItemsIncreasing(rules, slots);
    var items := Items(rules, slots);
    assert items[0] == MakeItem(rules, slots[0], 1) && items[1] == MakeItem(rules, slots[1], 2);
    hide MakeItem, Items, Reported, Slots, SlotsOf;
    NothingReported(items);
  }

  function NightStop(plannedTime: int): Stop {
    Stop("s", None, None, None, Some(plannedTime), None, None, None, None, None)
  }

  function NightRoute(plannedTime: int): Event {
    Event("r", true, plannedTime, plannedTime, "agendado", None, None, None, [NightStop(plannedTime)])
  }

  /** A meeting at midnight and a stop planned for 23:30 of the same day are reported as overlapping. */
  lemma MidnightFalseAlarm(rules: Rules)
    ensures var slots := Slots([Meeting(180 * MINUTE, 240 * MINUTE), NightRoute(1590 * MINUTE)]);
            AllLocal(slots, 0) && !RealOverlaps(slots) && Reported(Items(rules, slots))
  {
    var meeting, route := Meeting(180 * MINUTE, 240 * MINUTE), NightRoute(1590 * MINUTE);
    assert [meeting, route][..1] == [meeting] && [meeting][..0] == [];
    assert Slots([meeting]) == Slots([]) + SlotsOf(meeting);
    var slots := Slots([meeting, route]);
    assert slots == [Slot(meeting, None), Slot(route, Some(NightStop(1590 * MINUTE)))];
    hide Slots, SlotsOf;
    assert AllLocal(slots, 0);
    assert FalseAlarm(slots, 0, 1, 0);
    ReportsSeen(rules, slots, 0);
    hide Reported, Items;
    assert forall i, j :: !RealOverlap(slots, i, j);
  }

  lemma TwoMeetings(a: Event, b: Event)
    requires a.stops == [] && b.stops == []
    ensures Slots([a, b]) == [Slot(a, None), Slot(b, None)]
  {
    assert [a, b][..1] == [a] && [a][..0] == [];
    assert Slots([a]) == Slots([]) + SlotsOf(a);
  }

  lemma EveningMinutes(rules: Rules, a: Slot, b: Slot)
    requires a == Slot(Meeting(1410 * MINUTE, 1470 * MINUTE), None)
             && b == Slot(Meeting(1440 * MINUTE, 1500 * MINUTE), None)
    ensures MakeItem(rules, a, 1).start == Some(1410) && MakeItem(rules, a, 1).end == Some(30)
    ensures MakeItem(rules, b, 2).start == Some(0) && MakeItem(rules, b, 2).end == Some(60)
  {
    hide CityOf, ClientOf, StatusOf, IsDone, PeriodOf;
  }

  lemma NothingReported(items: seq<Item>)
    requires Increasing(OrderOf(), items) && |items| == 2
    requires items[0].start == Some(1410) && items[0].end == Some(30) && items[1].start == Some(0)
             && items[1].end == Some(60)
    ensures !Reported(items)
  {
    ScanSeesAllPairs(items);
    hide Clashes, Timeline, Increasing;
    assert forall x | x in items :: x == items[0] || x == items[1];
  }

  lemma {:induction false} RepeatHolds(c: Conflict, n: nat, x: Conflict)
    ensures x in Repeat(c, n) <==> n > 0 && x == c
  {
    if n > 0 {
      RepeatHolds(c, n - 1, x);
    }
  }

  /** The list of conflicts names an overlap exactly when one was seen, a missing location exactly when some item
      has none, and a period exactly when more than four items fall into it. */
  lemma ConflictsListed(items: seq<Item>)
    ensures TimeOverlap in Conflicts(items) <==> Reported(items)
    ensures MissingLocation in Conflicts(items) <==> exists i :: i in items && !Located(i)
    ensures forall p :: OverCapacity(p) in Conflicts(items) <==> |Filter(items, InPeriod(p))| > 4
  {
    hide Clashes, Timeline, Filter, Located, Repeat, Overfull;
    var overlaps, missing := Repeat(TimeOverlap, Clashes(Timeline(items))), Filter(items, IsUnlocated());
    var locations := Repeat(MissingLocation, |missing|);
    forall c: Conflict ensures c in Conflicts(items) <==>
        c in overlaps || c in locations || c in Overfull(items, Morning) || c in Overfull(items, Afternoon) {
    }
    forall c: Conflict ensures c in overlaps <==> Clashes(Timeline(items)) > 0 && c == TimeOverlap {
      RepeatHolds(TimeOverlap, Clashes(Timeline(items)), c);
    }
    forall c: Conflict ensures c in locations <==> |missing| > 0 && c == MissingLocation {
      RepeatHolds(MissingLocation, |missing|, c);
    }
    forall c: Conflict, p
      ensures c in Overfull(items, p) <==> |Filter(items, InPeriod(p))| > MAX_STOPS_PER_PERIOD && c == OverCapacity(p) {
      OverfullHolds(items, p, c);
    }
    assert |missing| > 0 ==> missing[0] in missing;
    assert forall i | i in items && !Located(i) :: IsUnlocated()(i);
    hide Conflicts;
    forall p ensures OverCapacity(p) in Conflicts(items) <==> |Filter(items, InPeriod(p))| > MAX_STOPS_PER_PERIOD {
      match p
      case Morning =>
      case Afternoon =>
    }
  }

  lemma OverfullHolds(items: seq<Item>, p: Period, c: Conflict)
    ensures c in Overfull(items, p) <==> |Filter(items, InPeriod(p))| > MAX_STOPS_PER_PERIOD && c == OverCapacity(p)
  {
    hide Filter;
  }

  // ----- The suggested order -----

  function ByText(rules: Rules, text: Item -> Option<string>): (Item, Item) -> bool {
    (a, b) => rules.collate(TextOf(text(a)), TextOf(text(b)))
  }

  function City(): Item -> Option<string> {
    (i: Item) => i.city
  }

  function Territory(): Item -> Option<string> {
    (i: Item) => i.territory
  }

  function ByScore(): (Item, Item) -> bool {
    (a: Item, b: Item) => a.score >= b.score
  }

  function InCity(rules: Rules): (Item, Item) -> bool {
    Then(ByText(rules, Territory()), Then(ByScore(), ByNumber(OrderOf())))
  }

  /** The comparator of `orderItems`. */
  function ItemOrder(rules: Rules): (Item, Item) -> bool {
    Then(ByStart(), Then(ByText(rules, City()), InCity(rules)))
  }

  function OrderItems(rules: Rules, items: seq<Item>): seq<Item> {
    Sort(ItemOrder(rules), items)
  }

  datatype Suggestion = Suggestion(item: Item, place: nat)

  function SuggestedOrder(rules: Rules, items: seq<Item>): seq<Suggestion> {
    var line := OrderItems(rules, items);
    seq(|line|, i requires 0 <= i < |line| => Suggestion(line[i], i + 1))
  }

  lemma TextPreorder(rules: Rules, text: Item -> Option<string>)
    requires TotalPreorder(rules.collate)
    ensures TotalPreorder(ByText(rules, text))
  {
    var le := ByText(rules, text);
    forall a, b ensures le(a, b) || le(b, a) {
      assert rules.collate(TextOf(text(a)), TextOf(text(b))) || rules.collate(TextOf(text(b)), TextOf(text(a)));
    }
    forall a, b, c | le(a, b) && le(b, c) ensures le(a, c) {
      var x, y, z := TextOf(text(a)), TextOf(text(b)), TextOf(text(c));
      assert rules.collate(x, y) && rules.collate(y, z);
    }
  }

  lemma StartDecidesFirst(rules: Rules, a: Item, b: Item)
    requires ItemOrder(rules)(a, b)
    ensures StartOr(a) <= StartOr(b)
  {
  }

  lemma ItemOrderPreorder(rules: Rules)
    requires TotalPreorder(rules.collate)
    ensures TotalPreorder(ItemOrder(rules))
  {
    TextPreorder(rules, City());
    TextPreorder(rules, Territory());
    assert TotalPreorder(ByScore()) && TotalPreorder(ByStart()) && TotalPreorder(ByNumber(OrderOf()));
    hide TotalPreorder;
    ThenPreorder(ByScore(), ByNumber(OrderOf()));
    ThenPreorder(ByText(rules, Territory()), Then(ByScore(), ByNumber(OrderOf())));
    ThenPreorder(ByText(rules, City()), InCity(rules));
    ThenPreorder(ByStart(), Then(ByText(rules, City()), InCity(rules)));
  }

  /** Two places of the suggested order, read through the comparator. */
  lemma PlacesInOrder(rules: Rules, items: seq<Item>, i: nat, j: nat)
    requires TotalPreorder(rules.collate) && i < j < |items|
    ensures var line := OrderItems(rules, items);
            && multiset(line) == multiset(items) && ItemOrder(rules)(line[i], line[j])
  {
    ItemOrderPreorder(rules);
    SortSorted(ItemOrder(rules), items);
    hide TotalPreorder, Sort, Then;
  }

  /** The suggestion is a permutation of the day, numbered from 1, in which the items with a fixed time come first
      and never go back in time. */
  lemma FixedTimesFirst(rules: Rules, slots: seq<Slot>)
    requires TotalPreorder(rules.collate)
    ensures var items := Items(rules, slots); var out := SuggestedOrder(rules, items);
            && |out| == |items| && multiset(OrderItems(rules, items)) == multiset(items)
            && (forall i | 0 <= i < |out| :: out[i].item == OrderItems(rules, items)[i] && out[i].place == i + 1)
            && (forall i, j | 0 <= i < j < |out| && out[j].item.start.Some? ::
                  out[i].item.start.Some? && out[i].item.start.value <= out[j].item.start.value)
  {
    var items := Items(rules, slots);
    var line := OrderItems(rules, items);
    hide Sort, MakeItem, TotalPreorder;
    forall i | 0 <= i < |line| ensures line[i].start.Some? ==> line[i].start.value < 1440 {
      SameElements(items, line);
      assert line[i] in items;
      var k :| 0 <= k < |items| && items[k] == line[i];
      StartsBeforeMidnight(rules, slots[k], k + 1);
    }
    forall i, j | 0 <= i < j < |line| && line[j].start.Some?
      ensures line[i].start.Some? && line[i].start.value <= line[j].start.value
    {
      PlacesInOrder(rules, items, i, j);
      StartDecidesFirst(rules, line[i], line[j]);
      hide ItemOrder;
    }
  }

  lemma StartsBeforeMidnight(rules: Rules, s: Slot, order: nat)
    ensures var i := MakeItem(rules, s, order); i.start.Some? ==> i.start.value < 1440
  {
    hide CityOf, ClientOf, StatusOf, IsDone;
  }

  /** Among items with the same start, or with none, those of one city stand together. */
  lemma CitiesStandTogether(rules: Rules, items: seq<Item>, i: nat, k: nat, j: nat)
    requires TotalPreorder(rules.collate) && i < k < j < |items|
    requires var line := OrderItems(rules, items); StartOr(line[i]) == StartOr(line[j]) && line[i].city == line[j].city
    ensures var line := OrderItems(rules, items); var city := ByText(rules, City());
            StartOr(line[k]) == StartOr(line[i]) && city(line[k], line[i]) && city(line[i], line[k])
  {
    PlacesInOrder(rules, items, i, k);
    PlacesInOrder(rules, items, k, j);
    hide Sort;
  }

  /** Inside one start, city and territory the higher score goes first, and equal scores keep their order. */
  lemma BestScoreFirst(rules: Rules, items: seq<Item>, i: nat, j: nat)
    requires TotalPreorder(rules.collate) && i < j < |items|
    requires var line := OrderItems(rules, items);
             StartOr(line[i]) == StartOr(line[j]) && line[i].city == line[j].city
               && line[i].territory == line[j].territory
    ensures var line := OrderItems(rules, items);
            line[i].score > line[j].score || (line[i].score == line[j].score && line[i].order <= line[j].order)
  {
    PlacesInOrder(rules, items, i, j);
    assert rules.collate(TextOf(OrderItems(rules, items)[j].city), TextOf(OrderItems(rules, items)[i].city));
    assert rules.collate(TextOf(OrderItems(rules, items)[j].territory), TextOf(OrderItems(rules, items)[i].territory));
    hide Sort;
  }

  /** The order is left alone exactly when the day is listed in it already. */
  lemma OrderKept(rules: Rules, items: seq<Item>)
    requires TotalPreorder(rules.collate)
    ensures OrderItems(rules, items) == items <==> SortedBy(ItemOrder(rules), items)
  {
    ItemOrderPreorder(rules);
    hide TotalPreorder, ItemOrder;
    SortKeepsSorted(ItemOrder(rules), items);
  }

  /** Two items that tie in every respect are one. */
  lemma NoTies(rules: Rules, a: Item, b: Item)
    requires ItemOrder(rules)(a, b) && ItemOrder(rules)(b, a)
    ensures a.order == b.order
  {
  }

  /** In the suggested order every item stands where the number of items that go before it says. */
  lemma PlaceIsRank(rules: Rules, items: seq<Item>, k: nat)
    requires TotalPreorder(rules.collate) && Increasing(OrderOf(), items) && k < |items|
    ensures var place := Ahead(ItemOrder(rules), items, items[k]);
            place < |items| && OrderItems(rules, items)[place] == items[k]
    ensures OrderItems(rules, items)[k] == items[k] <==> Ahead(ItemOrder(rules), items, items[k]) == k
  {
    hide TotalPreorder, Sort, Ahead, ItemOrder, SortedBy, Distinct, Increasing, OrderOf;
    var le, line := ItemOrder(rules), OrderItems(rules, items);
    ItemOrderPreorder(rules);
    LineIsStrict(rules, items);
    SameElements(items, line);
    AheadSort(le, items, items[k]);
    assert items[k] in line;
    var place :| 0 <= place < |line| && line[place] == items[k];
    PlaceInSorted(le, line, place);
    PlaceUnique(line, place, k);
  }

  lemma PlaceUnique(line: seq<Item>, i: nat, j: nat)
    requires Distinct(OrderOf(), line) && i < |line| && j < |line|
    ensures line[i] == line[j] <==> i == j
  {
    assert i < j ==> OrderOf()(line[i]) != OrderOf()(line[j]);
    assert j < i ==> OrderOf()(line[j]) != OrderOf()(line[i]);
  }

  lemma LineIsStrict(rules: Rules, items: seq<Item>)
    requires TotalPreorder(rules.collate) && Increasing(OrderOf(), items)
    ensures var line := OrderItems(rules, items);
            && SortedBy(ItemOrder(rules), line) && Distinct(OrderOf(), line)
            && forall i, j | 0 <= i < j < |line| :: !ItemOrder(rules)(line[j], line[i])
  {
    var le, line := ItemOrder(rules), OrderItems(rules, items);
    ItemOrderPreorder(rules);
    SortSorted(le, items);
    SortDistinct(le, OrderOf(), items);
    hide TotalPreorder, Sort, ItemOrder;
    forall i, j | 0 <= i < j < |line| ensures !le(line[j], line[i]) {
      assert le(line[i], line[j]) && OrderOf()(line[i]) != OrderOf()(line[j]);
      if le(line[j], line[i]) {
        NoTies(rules, line[i], line[j]);
      }
    }
  }

  /** Every item that may not move is where it was listed, as its reason says. */
  ghost predicate ReasonsHold(rules: Rules, items: seq<Item>) {
    forall k | 0 <= k < |items| && !items[k].movable :: OrderItems(rules, items)[k] == items[k]
  }

  /** They hold exactly when, for every item that may not move, as many items go before it as were listed before it. */
  lemma ReasonsHoldExactly(rules: Rules, items: seq<Item>)
    requires TotalPreorder(rules.collate) && Increasing(OrderOf(), items)
    ensures ReasonsHold(rules, items) <==>
            forall k | 0 <= k < |items| && !items[k].movable :: Ahead(ItemOrder(rules), items, items[k]) == k
  {
    hide TotalPreorder, Sort, Ahead, ItemOrder;
    forall k | 0 <= k < |items|
      ensures OrderItems(rules, items)[k] == items[k] <==> Ahead(ItemOrder(rules), items, items[k]) == k
    {
      PlaceIsRank(rules, items, k);
    }
  }

  function ConcludedVisit(start: int): Event {
    Event("v", true, start, start + 60 * MINUTE, "realizado", None, None, None, [])
  }

  /** A concluded visit listed before a meeting: neither may move, and they change places. */
  lemma ConcludedVisitIsMoved(rules: Rules)
    requires TotalPreorder(rules.collate)
    ensures var items := Items(rules, Slots([ConcludedVisit(660 * MINUTE), Meeting(720 * MINUTE, 780 * MINUTE)]));
            && |items| == 2 && !items[0].movable && !items[1].movable
            && OrderItems(rules, items) == [items[1], items[0]] && !ReasonsHold(rules, items)
  {
    var visit, meeting := ConcludedVisit(660 * MINUTE), Meeting(720 * MINUTE, 780 * MINUTE);
    TwoMeetings(visit, meeting);
    var slots := Slots([visit, meeting]);
    var items := Items(rules, slots);
    assert items[0] == MakeItem(rules, Slot(visit, None), 1) && items[1] == MakeItem(rules, Slot(meeting, None), 2);
    hide Slots, Items, CityOf, ClientOf, Minutes, TotalPreorder;
    assert items[0].start.None? && items[1].start.Some? && items[1].start.value < 1440;
    assert !items[0].movable && !items[1].movable && items[0] != items[1];
    hide MakeItem;
    LaterFirst(rules, items[0], items[1]);
    assert items == [items[0], items[1]];
  }

  lemma LaterFirst(rules: Rules, a: Item, b: Item)
    requires StartOr(b) < StartOr(a)
    ensures OrderItems(rules, [a, b]) == [b, a]
  {
    assert !ItemOrder(rules)(a, b);
    hide ItemOrder;
    assert [a, b][1..] == [b] && [b][1..] == [];
    assert Sort(ItemOrder(rules), [b]) == [b];
  }

  // ----- The metrics -----

  datatype Confidence = Low | Medium | High

  datatype Metrics = Metrics(totalStops: nat, fixedStops: nat, movableStops: int, stopsWithoutLocation: nat,
                             estimatedDistanceKm: Option<real>, confidence: Confidence)

  /** The straight-line distances along a list of items. */
  function Along(line: (Item, Item) -> real, items: seq<Item>): real {
    if |items| < 2 then 0.0 else Along(line, items[..|items| - 1]) + line(items[|items| - 2], items[|items| - 1])
  }

  /** `Math.round(total * 10) / 10`. */
  function ToTenth(x: real): real {
    (10.0 * x + 0.5).Floor as real / 10.0
  }

  lemma TenthIsClose(x: real)
    ensures -0.05 <= ToTenth(x) - x <= 0.05
  {
  }

  /** No distance is invented: there is one exactly when two or more items are all located. */
  method EstimateDistance(line: (Item, Item) -> real, items: seq<Item>) returns (km: Option<real>)
    ensures km.Some? <==> |items| >= 2 && forall i | 0 <= i < |items| :: Located(items[i])
    ensures km.Some? ==> km.value == ToTenth(Along(line, items))
  {
    hide Located, ToTenth;
    if |items| < 2 || exists i | 0 <= i < |items| :: !Located(items[i]) {
      return None;
    }
    var total, i := 0.0, 1;
    while i < |items|
      invariant 1 <= i <= |items| && total == Along(line, items[..i])
    {
      assert items[..i + 1][..i] == items[..i];
      total := total + line(items[i - 1], items[i]);
      i := i + 1;
    }
    assert items[..|items|] == items;
    km := Some(ToTenth(total));
  }

  function IsFixedInPlace(): Item -> bool {
    (i: Item) => !i.movable
  }

  function IsMovable(): Item -> bool {
    (i: Item) => i.movable
  }

  method BuildMetrics(line: (Item, Item) -> real, items: seq<Item>, suggested: seq<Item>) returns (m: Metrics)
    requires multiset(suggested) == multiset(items)
    ensures m.totalStops == |items| && m.fixedStops + m.movableStops == |items|
    ensures m.movableStops == |Filter(items, IsMovable())|
    ensures m.confidence == High <==> |items| >= 2 && m.stopsWithoutLocation == 0
    ensures m.confidence == Low <==> forall i | i in items :: !Located(i)
    ensures m.estimatedDistanceKm.Some? <==> m.confidence == High
    ensures m.estimatedDistanceKm.Some? ==> m.estimatedDistanceKm.value == ToTenth(Along(line, suggested))
    ensures m.fixedStops == |Filter(items, IsFixedInPlace())|
            && m.stopsWithoutLocation == |Filter(items, IsUnlocated())|
  {
    hide Located;
    var distance := EstimateDistance(line, suggested);
    var missing, fixed := |Filter(items, IsUnlocated())|, |Filter(items, IsFixedInPlace())|;
    var confidence := if missing == |items| then Low else if distance.None? || missing > 0 then Medium else High;
    m := Metrics(|items|, fixed, |items| - fixed, missing, distance, confidence);
    CountsSplit(items, IsFixedInPlace(), IsMovable());
    CountsSplit(items, IsUnlocated(), IsLocated());
    SameElements(items, suggested);
    assert |multiset(suggested)| == |multiset(items)|;
    assert forall i | i in items && Located(i) :: IsLocated()(i);
    var located, unlocated := Filter(items, IsLocated()), Filter(items, IsUnlocated());
    assert |located| > 0 ==> located[0] in located;
    assert |unlocated| > 0 ==> unlocated[0] in unlocated;
    assert forall i | i in items && !Located(i) :: IsUnlocated()(i);
    assert forall i | 0 <= i < |suggested| :: suggested[i] in items;
  }

  function IsLocated(): Item -> bool {
    (i: Item) => Located(i)
  }

  lemma {:induction false} CountsSplit<T>(s: seq<T>, p: T -> bool, q: T -> bool)
    requires forall x :: p(x) <==> !q(x)
    ensures |Filter(s, p)| + |Filter(s, q)| == |s|
  {
    if s != [] {
      CountsSplit(s[..|s| - 1], p, q);
    }
  }
}
