/** The filter set under every interleaving of its callers. A call is split where other threads can
    run: taking the lock, each clock read and table update, the store of the cached size, releasing
    the lock, and the lock-free load of the size. `published` is an auxiliary variable: the table as
    of the latest size store. The theorems say that `published` behaves as the filter set of the
    module FilterSets: every call takes effect on it at one instant within the call, and an insert is
    dated within the call too, no later than that, and no earlier than anything published before. */
module FilterSetConcurrency {
  import opened Prelude
  import opened Packets
  import opened FilterSets

  type ThreadId = nat

  /** What one of the three filters examines: a packet to mark, a packet to retain, a bundle. */
  datatype Item = Relayed(packet: Packet) | Retained(proto: ProtoPacket) | Bundled(bundle: BundleUuid)

  function FilterItem(blocked: set<Signature>, item: Item): seq<Item> {
    match item
    case Relayed(p) => [Relayed(Mark(blocked, p))]
    case Retained(p) => if KeepsPacket(blocked, p) then [item] else []
    case Bundled(b) => if KeepsBundle(blocked, b) then [item] else []
  }

  function FilterItems(blocked: set<Signature>, items: seq<Item>): seq<Item> {
    if items == [] then []
    else FilterItems(blocked, items[..|items| - 1]) + FilterItem(blocked, items[|items| - 1])
  }

  lemma FilterItemsSnoc(blocked: set<Signature>, items: seq<Item>, next: nat)
    requires next <= |items|
    ensures FilterItems(blocked, items[..0]) == []
    ensures next < |items| ==>
              FilterItems(blocked, items[..next + 1]) == FilterItems(blocked, items[..next]) + FilterItem(blocked, items[next])
  {
    if next < |items| {
      assert items[..next + 1][..next] == items[..next];
    }
  }

  /** Item by item, the filters do what they do to whole lists. */
  lemma {:induction false} FilterItemsIsMarkAll(blocked: set<Signature>, ps: seq<Packet>)
    ensures FilterItems(blocked, Listed(ps, p => Relayed(p))) == Listed(MarkAll(blocked, ps), p => Relayed(p))
  {
    if ps != [] {
      var n := |ps| - 1;
      FilterItemsIsMarkAll(blocked, ps[..n]);
      assert Listed(ps, p => Relayed(p))[..n] == Listed(ps[..n], p => Relayed(p));
      assert Listed(MarkAll(blocked, ps), p => Relayed(p))
             == Listed(MarkAll(blocked, ps[..n]), p => Relayed(p)) + [Relayed(Mark(blocked, ps[n]))];
    }
  }

  lemma {:induction false} FilterItemsIsRetain<T>(blocked: set<Signature>, xs: seq<T>, item: T -> Item, keep: T -> bool)
    requires forall x :: FilterItem(blocked, item(x)) == if keep(x) then [item(x)] else []
    ensures FilterItems(blocked, Listed(xs, item)) == Listed(Retain(keep, xs), item)
  {
    if xs != [] {
      var n := |xs| - 1;
      FilterItemsIsRetain(blocked, xs[..n], item, keep);
      assert Listed(xs, item)[..n] == Listed(xs[..n], item);
    }
  }

  function Listed<T>(xs: seq<T>, item: T -> Item): seq<Item> {
    seq(|xs|, i requires 0 <= i < |xs| => item(xs[i]))
  }

  lemma FilterItemsIsRetainAll(blocked: set<Signature>, packets: seq<ProtoPacket>, bundles: seq<BundleUuid>)
    ensures FilterItems(blocked, Listed(packets, p => Retained(p)))
            == Listed(RetainPackets(blocked, PacketsResponse(Some(packets))).batch.value, p => Retained(p))
    ensures FilterItems(blocked, Listed(bundles, b => Bundled(b)))
            == Listed(RetainBundles(blocked, BundlesResponse(bundles)).bundles, b => Bundled(b))
  {
    FilterItemsIsRetain(blocked, packets, p => Retained(p), p => KeepsPacket(blocked, p));
    FilterItemsIsRetain(blocked, bundles, b => Bundled(b), b => KeepsBundle(blocked, b));
  }

  /** A response without a batch passes unchanged. */
  function FilterRequest(blocked: set<Signature>, request: Option<seq<Item>>): Option<seq<Item>> {
    if request.None? then None else Some(FilterItems(blocked, request.value))
  }

  datatype Call = Insert(signature: Signature) | Sweep | Filter(request: Option<seq<Item>>)

  /** Where a thread stands in its call. */
  datatype Pc =
    | Idle
    | InsertLock(signature: Signature)
    | InsertWrite(signature: Signature)
    | InsertStore(signature: Signature, at: Time)
    | InsertUnlock
    | SweepLoad
    | SweepLock
    | SweepRetain(start: Time, rest: set<Signature>)
    | SweepUnlock
    | FilterLoad(request: Option<seq<Item>>)
    | FilterLock(items: seq<Item>)
    | FilterScan(items: seq<Item>, next: nat, kept: seq<Item>)
    | FilterReturn(request: Option<seq<Item>>, result: Option<seq<Item>>)

  datatype State = State(
    now: Time, table: Table, len: nat, holder: Option<ThreadId>, published: Table, pcs: map<ThreadId, Pc>)
  {
    function At(t: ThreadId): Pc {
      if t in pcs then pcs[t] else Idle
    }

    function Go(t: ThreadId, pc: Pc): State {
      this.(pcs := pcs[t := pc])
    }
  }

  datatype Event =
    | Tick(passed: nat)
    | Begin(thread: ThreadId, call: Call)
    | Advance(thread: ThreadId)
    | Examine(thread: ThreadId, signature: Signature)

  predicate By(e: Event, t: ThreadId) {
    !e.Tick? && e.thread == t
  }

  function Entry(call: Call): Pc {
    match call
    case Insert(signature) => InsertLock(signature)
    case Sweep => SweepLoad
    case Filter(request) => FilterLoad(request)
  }

  /** The step an event makes; an event that is not enabled makes none. */
  function Next(s: State, e: Event): State {
    match e
    case Tick(passed) => s.(now := s.now + passed)
    case Begin(t, call) => if s.At(t).Idle? then s.Go(t, Entry(call)) else s
    case Advance(t) => NextOf(s, t)
    case Examine(t, signature) =>
      var pc := s.At(t);
      if pc.SweepRetain? && signature in pc.rest && signature in s.table then
        var s' := s.Go(t, pc.(rest := pc.rest - {signature}));
        if s.table[signature] + TTL <= s.now then s'.(table := s.table - {signature}) else s'
      else s
  }

  function NextOf(s: State, t: ThreadId): State {
    match s.At(t)
    case Idle => s
    case InsertLock(signature) =>
      if s.holder.None? then s.(holder := Some(t)).Go(t, InsertWrite(signature)) else s
    case InsertWrite(signature) =>
      s.(table := s.table[signature := s.now]).Go(t, InsertStore(signature, s.now))
    case InsertStore(_, _) => s.(len := |s.table|, published := s.table).Go(t, InsertUnlock)
    case InsertUnlock => s.(holder := None).Go(t, Idle)
    case SweepLoad => s.Go(t, if s.len == 0 then Idle else SweepLock)
    case SweepLock =>
      if s.holder.None? then s.(holder := Some(t)).Go(t, SweepRetain(s.now, s.table.Keys)) else s
    case SweepRetain(_, rest) =>
      if rest == {} then s.(len := |s.table|, published := s.table).Go(t, SweepUnlock) else s
    case SweepUnlock => s.(holder := None).Go(t, Idle)
    case FilterLoad(request) =>
      s.Go(t, if s.len == 0 || request.None? then FilterReturn(request, request) else FilterLock(request.value))
    case FilterLock(items) =>
      if s.holder.None? then s.(holder := Some(t)).Go(t, FilterScan(items, 0, [])) else s
    case FilterScan(items, next, kept) =>
      if next < |items|
      then s.Go(t, FilterScan(items, next + 1, kept + FilterItem(s.table.Keys, items[next])))
      else s.(holder := None).Go(t, FilterReturn(Some(items), Some(kept)))
    case FilterReturn(_, _) => s.Go(t, Idle)
  }

  const Initial := State(0, map[], 0, None, map[], map[])

  /** The state after the first `i` events of a run. */
  function After(es: seq<Event>, i: nat): State
    requires i <= |es|
  {
    if i == 0 then Initial else Next(After(es, i - 1), es[i - 1])
  }

  // ---------------------------------------------------------------- the invariant

  predicate HoldsLock(pc: Pc) {
    pc.InsertWrite? || pc.InsertStore? || pc.InsertUnlock? || pc.SweepRetain? || pc.SweepUnlock? || pc.FilterScan?
  }

  predicate Writing(pc: Pc) {
    pc.InsertStore? || pc.SweepRetain?
  }

  /** What the lock's holder may rely on at each of its program points. */
  ghost predicate Consistent(s: State, pc: Pc) {
    && (!Writing(pc) ==> s.table == s.published)
    && match pc
       case InsertStore(signature, at) =>
         at <= s.now && s.table == s.published[signature := at] && DatedBy(s.published, at)
       case SweepRetain(start, rest) =>
         && start <= s.now && rest <= s.table.Keys
         && (forall x :: x in s.table ==> x in s.published && s.table[x] == s.published[x])
         && (forall x :: x in s.table && x !in rest ==> s.published[x] + TTL > start)
         && (forall x :: x in s.published && x !in s.table ==> s.published[x] + TTL <= s.now)
       case FilterScan(items, next, kept) =>
         next <= |items| && kept == FilterItems(s.table.Keys, items[..next])
       case _ => true
  }

  /** Nothing in the table is dated later. */
  ghost predicate DatedBy(table: Table, t: Time) {
    forall x :: x in table ==> table[x] <= t
  }

  ghost predicate Inv(s: State) {
    && s.len == |s.published| && DatedBy(s.published, s.now)
    && (forall t: ThreadId :: HoldsLock(s.At(t)) <==> s.holder == Some(t))
    && Consistent(s, if s.holder.Some? then s.At(s.holder.value) else Idle)
  }

  /** How a step changes the published table: not at all, or by one atomic insert or sweep. */
  ghost predicate Publishes(s: State, e: Event, s': State) {
    if e.Advance? && s.At(e.thread).InsertStore? then
      s'.published == s.published[s.At(e.thread).signature := s.At(e.thread).at]
    else if e.Advance? && s.At(e.thread).SweepRetain? && s.At(e.thread).rest == {} then
      SweptBetween(s.published, s'.published, s.At(e.thread).start, s.now)
    else
      s'.published == s.published
  }

  /** A step moves only the thread that makes it. */
  lemma OthersStay(s: State, e: Event, t: ThreadId)
    requires By(e, t)
    ensures forall u: ThreadId :: u != t ==> Next(s, e).At(u) == s.At(u)
  {
    match e
    case Begin(_, _) =>
    case Examine(_, _) =>
    case Advance(_) => AdvanceMovesOne(s, t);
  }

  lemma AdvanceMovesOne(s: State, t: ThreadId)
    ensures forall u: ThreadId :: u != t ==> NextOf(s, t).At(u) == s.At(u)
  {
  }

  lemma AdvanceMovesLock(s: State, t: ThreadId)
    requires Inv(s)
    ensures var s' := NextOf(s, t); forall u: ThreadId :: HoldsLock(s'.At(u)) <==> s'.holder == Some(u)
  {
    hide Consistent;
    OthersStay(s, Advance(t), t);
    assert HoldsLock(s.At(t)) <==> s.holder == Some(t);
  }

  /** What the holder relies on, after a step of thread `t`. */
  ghost predicate StillConsistent(s: State, t: ThreadId) {
    var s' := NextOf(s, t);
    Consistent(s', if s'.holder.Some? then s'.At(s'.holder.value) else Idle)
  }

  lemma InsertKeepsConsistent(s: State, t: ThreadId)
    requires Inv(s)
    requires var pc := s.At(t); pc.InsertLock? || pc.InsertWrite? || pc.InsertStore? || pc.InsertUnlock?
    ensures StillConsistent(s, t)
  {
    OthersStay(s, Advance(t), t);
    assert HoldsLock(s.At(t)) <==> s.holder == Some(t);
  }

  lemma SweepKeepsConsistent(s: State, t: ThreadId)
    requires Inv(s)
    requires var pc := s.At(t); pc.SweepLoad? || pc.SweepLock? || pc.SweepRetain? || pc.SweepUnlock?
    ensures StillConsistent(s, t)
  {
    OthersStay(s, Advance(t), t);
    assert HoldsLock(s.At(t)) <==> s.holder == Some(t);
  }

  lemma FilterKeepsConsistent(s: State, t: ThreadId)
    requires Inv(s)
    requires var pc := s.At(t); pc.FilterLoad? || pc.FilterLock? || pc.FilterScan? || pc.FilterReturn?
    ensures StillConsistent(s, t)
  {
    hide FilterItems, FilterItem, DatedBy;
    OthersStay(s, Advance(t), t);
    assert HoldsLock(s.At(t)) <==> s.holder == Some(t);
    var pc := s.At(t);
    if pc.FilterScan? && pc.next < |pc.items| {
      FilterItemsSnoc(s.table.Keys, pc.items, pc.next);
    } else if pc.FilterLock? {
      FilterItemsSnoc(s.table.Keys, pc.items, 0);
    }
  }

  lemma ExamineKeepsInv(s: State, t: ThreadId, signature: Signature)
    requires Inv(s)
    ensures Inv(Next(s, Examine(t, signature)))
  {
    OthersStay(s, Examine(t, signature), t);
    assert HoldsLock(s.At(t)) <==> s.holder == Some(t);
  }

  lemma AdvanceKeepsInv(s: State, t: ThreadId)
    requires Inv(s)
    ensures Inv(NextOf(s, t)) && Publishes(s, Advance(t), NextOf(s, t))
  {
    assert HoldsLock(s.At(t)) <==> s.holder == Some(t);
    AdvanceMovesLock(s, t);
    assert StillConsistent(s, t) by {
      match s.At(t)
      case InsertLock(_) => InsertKeepsConsistent(s, t);
      case InsertWrite(_) => InsertKeepsConsistent(s, t);
      case InsertStore(_, _) => InsertKeepsConsistent(s, t);
      case InsertUnlock => InsertKeepsConsistent(s, t);
      case SweepLoad => SweepKeepsConsistent(s, t);
      case SweepLock => SweepKeepsConsistent(s, t);
      case SweepRetain(_, _) => SweepKeepsConsistent(s, t);
      case SweepUnlock => SweepKeepsConsistent(s, t);
      case Idle =>
      case _ => FilterKeepsConsistent(s, t);
    }
  }

  lemma StepKeepsInv(s: State, e: Event)
    requires Inv(s)
    ensures Inv(Next(s, e)) && Publishes(s, e, Next(s, e))
  {
    match e
    case Tick(_) =>
      assert forall t: ThreadId :: Next(s, e).At(t) == s.At(t);
    case Begin(t, _) =>
      OthersStay(s, e, t);
    case Advance(t) =>
      AdvanceKeepsInv(s, t);
    case Examine(t, signature) =>
      ExamineKeepsInv(s, t, signature);
  }

  /** In every reachable state the cached size is the size of the published table. */
  lemma {:induction false} Reachable(es: seq<Event>, i: nat)
    requires i <= |es|
    ensures Inv(After(es, i)) && After(es, i).len == |After(es, i).published|
  {
    if i > 0 {
      Reachable(es, i - 1);
      StepKeepsInv(After(es, i - 1), es[i - 1]);
    }
  }

  // ---------------------------------------------------------------- linearizability

  /** Thread `t` starts `call` with event `b` and is still in it, or just returned, after event i - 1. */
  ghost predicate InCall(es: seq<Event>, t: ThreadId, call: Call, b: nat, i: nat) {
    && b < i <= |es|
    && es[b] == Begin(t, call) && After(es, b).At(t).Idle?
    && forall k :: b < k < i ==> !After(es, k).At(t).Idle?
  }

  /** None of `t`'s own steps in [lo, hi) changes the published table. */
  ghost predicate Quiet(es: seq<Event>, t: ThreadId, lo: nat, hi: nat) {
    hi <= |es| &&
    forall k :: lo <= k < hi && By(es[k], t) ==> After(es, k + 1).published == After(es, k).published
  }

  /** Event `j` is the only step of `t` in [b, i) that changes the published table. */
  ghost predicate OnlyEffect(es: seq<Event>, t: ThreadId, b: nat, j: nat, i: nat) {
    b < j < i <= |es| && es[j] == Advance(t) && Quiet(es, t, b, j) && Quiet(es, t, j + 1, i)
  }

  ghost predicate InsertedAt(es: seq<Event>, t: ThreadId, signature: Signature, b: nat, j: nat, i: nat) {
    && OnlyEffect(es, t, b, j, i)
    && signature in After(es, j + 1).published
    && var at := After(es, j + 1).published[signature];
       After(es, b).now <= at <= After(es, j).now && DatedBy(After(es, j).published, at)
       && After(es, j + 1).published == After(es, j).published[signature := at]
  }

  ghost predicate SweptAt(es: seq<Event>, t: ThreadId, b: nat, j: nat, i: nat) {
    && OnlyEffect(es, t, b, j, i)
    && SweptBetween(After(es, j).published, After(es, j + 1).published, After(es, b).now, After(es, j).now)
  }

  lemma {:induction false} ClockIsMonotone(es: seq<Event>, i: nat, j: nat)
    requires i <= j <= |es|
    ensures After(es, i).now <= After(es, j).now
  {
    if i < j {
      ClockIsMonotone(es, i, j - 1);
      ClockAdvances(After(es, j - 1), es[j - 1]);
    }
  }

  lemma ClockAdvances(s: State, e: Event)
    ensures s.now <= Next(s, e).now
  {
  }

  /** The positions and published tables an insert may go through, one own step at a time. */
  lemma InsertStep(s: State, e: Event, t: ThreadId)
    requires Inv(s) && By(e, t)
    ensures var pc, pc', s' := s.At(t), Next(s, e).At(t), Next(s, e);
            match pc
            case InsertLock(x) => s'.published == s.published && pc' in {pc, InsertWrite(x)}
            case InsertWrite(x) => s'.published == s.published && pc' in {pc, InsertStore(x, s.now)}
            case InsertStore(x, at) =>
              if pc' == pc then s'.published == s.published
              else pc' == InsertUnlock && e == Advance(t) && s'.published == s.published[x := at] && DatedBy(s.published, at)
            case InsertUnlock => s'.published == s.published && pc' in {pc, Idle}
            case _ => true
  {
    assert HoldsLock(s.At(t)) <==> s.holder == Some(t);
  }

  lemma SweepStep(s: State, e: Event, t: ThreadId)
    requires Inv(s) && By(e, t)
    ensures var pc, pc', s' := s.At(t), Next(s, e).At(t), Next(s, e);
            match pc
            case SweepLoad =>
              s'.published == s.published && pc' in {pc, SweepLock, Idle}
              && (pc' == Idle ==> e == Advance(t) && s.published == map[])
            case SweepLock =>
              s'.published == s.published && (pc' == pc || (pc'.SweepRetain? && pc'.start == s.now))
            case SweepRetain(start, _) =>
              if pc'.SweepRetain? then s'.published == s.published && pc'.start == start
              else pc' == SweepUnlock && e == Advance(t) && SweptBetween(s.published, s'.published, start, s.now)
            case SweepUnlock => s'.published == s.published && pc' in {pc, Idle}
            case _ => true
  {
    assert HoldsLock(s.At(t)) <==> s.holder == Some(t);
    StepKeepsInv(s, e);
  }

  lemma FilterStep(s: State, e: Event, t: ThreadId)
    requires Inv(s) && By(e, t)
    ensures var pc, pc', s' := s.At(t), Next(s, e).At(t), Next(s, e);
            match pc
            case FilterLoad(request) =>
              s'.published == s.published
              && (pc' == pc || (pc'.FilterLock? && request == Some(pc'.items))
                  || pc' == FilterReturn(request, FilterRequest(s.published.Keys, request)))
            case FilterLock(items) =>
              s'.published == s.published && (pc' == pc || (pc'.FilterScan? && pc'.items == items))
            case FilterScan(items, _, _) =>
              s'.published == s.published
              && ((pc'.FilterScan? && pc'.items == items)
                  || pc' == FilterReturn(Some(items), FilterRequest(s.published.Keys, Some(items))))
            case FilterReturn(_, _) => s'.published == s.published && pc' in {pc, Idle}
            case _ => true
  {
    assert HoldsLock(s.At(t)) <==> s.holder == Some(t);
    match s.At(t)
    case FilterLoad(Some(items)) =>
      if s.len == 0 {
        assert s.published.Keys == {};
        FilterByNothing(items);
      }
    case FilterScan(items, next, _) =>
      if next == |items| {
        assert items[..next] == items;
      }
    case _ =>
  }

  lemma {:induction false} FilterByNothing(items: seq<Item>)
    ensures FilterItems({}, items) == items
  {
    if items != [] {
      var front, last := items[..|items| - 1], items[|items| - 1];
      FilterByNothing(front);
      FilterOneByNothing(last);
      hide FilterItem;
      assert items == front + [last];
    }
  }

  lemma FilterOneByNothing(item: Item)
    ensures FilterItem({}, item) == [item]
  {
  }

  /** One event further in the run, for a thread that does not make the step. */
  lemma OneFurther(es: seq<Event>, t: ThreadId, b: nat, i: nat)
    requires b <= i < |es|
    ensures Inv(After(es, i)) && After(es, i + 1) == Next(After(es, i), es[i])
    ensures !By(es[i], t) ==> After(es, i + 1).At(t) == After(es, i).At(t)
    ensures After(es, b).now <= After(es, i).now <= After(es, i + 1).now
  {
    Reachable(es, i);
    ClockIsMonotone(es, b, i);
    ClockAdvances(After(es, i), es[i]);
    if !By(es[i], t) && !es[i].Tick? {
      OthersStay(After(es, i), es[i], es[i].thread);
    }
  }

  lemma Starts(es: seq<Event>, t: ThreadId, call: Call, b: nat)
    requires InCall(es, t, call, b, b + 1)
    ensures After(es, b + 1).At(t) == Entry(call) && Quiet(es, t, b, b + 1)
  {
  }

  /** A finished insert changed the published table exactly once, by recording the signature with
      an instant within the call. */
  lemma {:induction false} InsertTakesEffectOnce(es: seq<Event>, t: ThreadId, signature: Signature, b: nat, i: nat)
    requires InCall(es, t, Insert(signature), b, i)
    ensures match After(es, i).At(t)
            case InsertLock(s) => s == signature && Quiet(es, t, b, i)
            case InsertWrite(s) => s == signature && Quiet(es, t, b, i)
            case InsertStore(s, at) =>
              s == signature && After(es, b).now <= at <= After(es, i).now && Quiet(es, t, b, i)
            case InsertUnlock => exists j :: InsertedAt(es, t, signature, b, j, i)
            case Idle => exists j :: InsertedAt(es, t, signature, b, j, i)
            case _ => false
  {
    hide Next, After, Inv;
    if i == b + 1 {
      Starts(es, t, Insert(signature), b);
    } else {
      var k := i - 1;
      InsertTakesEffectOnce(es, t, signature, b, k);
      OneFurther(es, t, b, k);
      if By(es[k], t) {
        InsertStep(After(es, k), es[k], t);
      }
      if After(es, k).At(t).InsertUnlock? {
        var j :| InsertedAt(es, t, signature, b, j, k);
        assert InsertedAt(es, t, signature, b, j, i);
      } else if After(es, i).At(t).InsertUnlock? {
        assert InsertedAt(es, t, signature, b, k, i);
      }
    }
  }

  /** A finished sweep changed the published table exactly once, to what a sweep within the call may
      leave of it; or it found the size zero, and the published table empty, and left it alone. */
  lemma {:induction false} SweepTakesEffectOnce(es: seq<Event>, t: ThreadId, b: nat, i: nat)
    requires InCall(es, t, Sweep, b, i)
    ensures match After(es, i).At(t)
            case SweepLoad => Quiet(es, t, b, i)
            case SweepLock => Quiet(es, t, b, i)
            case SweepRetain(start, _) => After(es, b).now <= start && Quiet(es, t, b, i)
            case SweepUnlock => exists j :: SweptAt(es, t, b, j, i)
            case Idle => exists j :: SweptAt(es, t, b, j, i)
            case _ => false
  {
    hide Next, After, Inv;
    if i == b + 1 {
      Starts(es, t, Sweep, b);
    } else {
      var k := i - 1;
      SweepTakesEffectOnce(es, t, b, k);
      OneFurther(es, t, b, k);
      if By(es[k], t) {
        SweepStep(After(es, k), es[k], t);
      }
      if After(es, k).At(t).SweepUnlock? {
        var j :| SweptAt(es, t, b, j, k);
        assert SweptAt(es, t, b, j, i);
      } else if After(es, i).At(t).SweepUnlock? || After(es, i).At(t).Idle? {
        assert SweptAt(es, t, b, k, i);
      }
    }
  }

  /** `result` is the request filtered by what was published at some instant within the call. */
  ghost predicate FilteredWithin(
    es: seq<Event>, request: Option<seq<Item>>, result: Option<seq<Item>>, b: nat, i: nat)
  {
    exists j :: b < j < i <= |es| && result == FilterRequest(After(es, j).published.Keys, request)
  }

  /** A filter call returns the request filtered at one instant within the call, whether it went
      through the lock or trusted the size alone; and it changes nothing. */
  lemma {:induction false} FilterSeesOneInstant(
    es: seq<Event>, t: ThreadId, request: Option<seq<Item>>, b: nat, i: nat)
    requires InCall(es, t, Filter(request), b, i)
    ensures Quiet(es, t, b, i)
    ensures match After(es, i).At(t)
            case FilterLoad(r) => r == request
            case FilterLock(items) => request == Some(items)
            case FilterScan(items, _, _) => request == Some(items)
            case FilterReturn(r, result) => r == request && FilteredWithin(es, request, result, b, i)
            case Idle => true
            case _ => false
  {
    hide Next, After, Inv, FilterItems;
    if i == b + 1 {
      Starts(es, t, Filter(request), b);
    } else {
      FilterSeesOneInstant(es, t, request, b, i - 1);
      OneFurther(es, t, b, i - 1);
      if By(es[i - 1], t) {
        FilterStep(After(es, i - 1), es[i - 1], t);
      }
    }
  }

  /** An insert that is held up between its clock read and its size store may take effect when it is a TTL
      old, after a sweep that found the size zero and returned: in this run event 5 is that sweep. */
  lemma LateInsertOutlastsSweep(signature: Signature)
    ensures var es := [Begin(0, Insert(signature)), Advance(0), Advance(0), Tick(TTL), Begin(1, Sweep), Advance(1), Advance(0)];
            && InCall(es, 1, Sweep, 4, 6) && After(es, 6).At(1).Idle? && After(es, 6).published == map[]
            && After(es, 7).published == map[signature := 0] && 0 + TTL <= After(es, 4).now
  {
    var es := [Begin(0, Insert(signature)), Advance(0), Advance(0), Tick(TTL), Begin(1, Sweep), Advance(1), Advance(0)];
    var s3 := State(0, map[signature := 0], 0, Some(0), map[], map[0 := InsertStore(signature, 0)]);
    assert After(es, 1) == Initial.Go(0, InsertLock(signature));
    assert After(es, 2) == State(0, map[], 0, Some(0), map[], map[0 := InsertWrite(signature)]);
    assert After(es, 3) == s3;
    assert After(es, 4) == s3.(now := TTL);
    assert After(es, 5) == s3.(now := TTL).Go(1, SweepLoad);
    assert After(es, 6) == s3.(now := TTL).Go(1, Idle);
    assert After(es, 7).published == s3.table;
  }
}
