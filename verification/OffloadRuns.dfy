/** Whole runs of the offloader. A reference store that knows nothing of devices, hosts or windows
    says which event sequences are protocol runs and what they must return; every protocol run of
    the offloader returns exactly that, never fails, and holds few groups on the device. */
module OffloadRuns {
  import opened Outcomes
  import opened OffloadSchedule
  import opened OffloadModel

  // ----- the reference store

  /** `store` holds the managed tensors by tag. Going forward, groups 0, 1, ... are filled and
      committed; going backward each group is emptied before the previous one is committed. */
  datatype Store = Store(group: nat, backward: bool, pushed: nat, store: map<Tag, Tensor>)

  const EMPTY := Store(0, false, 0, map[])

  /** A finished backward pass is the start of the next forward pass. */
  function Rewound(a: Store): Store {
    if a.backward && a.group == 0 && a.store == map[] then EMPTY else a
  }

  /** Tensors of one group that share a key hold the same flat data. */
  ghost predicate KeyAgrees(t: Tensor, group: int, store: map<Tag, Tensor>) {
    forall tag | tag in store && tag.group == group && store[tag].key == t.key :: store[tag].data == t.data
  }

  /** The moment, counted in forward commits, at which group j leaves the device. */
  function OffloadCommit(cfg: Config, j: int): int
    requires 0 <= j < cfg.groups && forall i :: i in cfg.windows <==> 0 <= i < cfg.groups
  {
    if j == 0 then 0 else cfg.windows[j - 1]
  }

  ghost predicate Good(cfg: Config) {
    WellScheduled(cfg.windows, cfg.layers, cfg.groups)
  }

  /** The groups whose copies start at the forward commit of group c. */
  ghost function LeavingAt(cfg: Config, c: int): set<int>
    requires Good(cfg)
  {
    set j | 0 <= j < cfg.groups && OffloadCommit(cfg, j) == c
  }

  /** The groups whose copies come back at the backward commit to group c. */
  ghost function ReturningAt(cfg: Config, c: int): set<int>
    requires Good(cfg)
  {
    set j | 0 <= j < cfg.groups && cfg.windows[j] == c
  }

  datatype StoreResult = StoreResult(store: Store, output: Output)

  /** One event of the protocol on the reference store; None when the protocol does not allow it.
      The outputs of commits are read off the schedule alone. */
  ghost function StoreStep(cfg: Config, before: Store, e: Event): Option<StoreResult>
    requires Good(cfg)
  {
    var a := Rewound(before);
    match e
    case Push(t, managed) =>
      if a.backward || a.group >= cfg.layers then None
      else if !managed then Some(StoreResult(a, Pushed(Unmanaged(t))))
      else if !WellShaped(t) || !KeyAgrees(t, a.group, a.store) then None
      else
        var tag := Tag(a.group, a.pushed);
        Some(StoreResult(a.(pushed := a.pushed + 1, store := a.store[tag := t]), Pushed(Managed(tag))))
    case Pop(Unmanaged(t)) => Some(StoreResult(before, Popped(t)))
    case Pop(Managed(tag)) =>
      if !before.backward || tag.group != before.group || tag !in before.store then None
      else Some(StoreResult(before.(store := before.store - {tag}), Popped(before.store[tag])))
    case CommitForward =>
      if a.backward || a.group >= cfg.layers then None
      else Some(StoreResult(
        a.(group := a.group + 1, pushed := 0),
        Offloaded(LeavingAt(cfg, a.group))))
    case CommitBackward =>
      if (if a.backward then a.group == 0 || exists tag :: tag in a.store && tag.group == a.group
          else a.group < cfg.layers) then None
      else Some(StoreResult(
        a.(group := a.group - 1, backward := true, pushed := 0),
        Reloaded(ReturningAt(cfg, a.group - 1))))
  }

  datatype StoreRunResult = StoreRunResult(store: Store, outputs: seq<Output>)

  ghost function StoreRun(cfg: Config, a: Store, events: seq<Event>): Option<StoreRunResult>
    requires Good(cfg)
    decreases |events|
  {
    if events == [] then Some(StoreRunResult(a, [])) else
    match StoreStep(cfg, a, events[0])
    case None => None
    case Some(first) =>
      match StoreRun(cfg, first.store, events[1..])
      case None => None
      case Some(rest) => Some(StoreRunResult(rest.store, [first.output] + rest.outputs))
  }

  // ----- the invariant tying the offloader to the reference store

  /** Tensors of the store that share group and key share their data. */
  ghost predicate KeysAgree(store: map<Tag, Tensor>) {
    forall x, y | x in store && y in store && x.group == y.group && store[x].key == store[y].key ::
      store[x].data == store[y].data
  }

  ghost predicate StoreValid(cfg: Config, a: Store) {
    && a.group <= cfg.layers
    && (a.backward ==> a.group < cfg.layers)
    && (a.backward || a.group == cfg.layers ==> a.pushed == 0)
    && (forall tag | tag in a.store :: 0 <= tag.group <= a.group && tag.group < cfg.layers && WellShaped(a.store[tag]))
    && (forall tag | tag in a.store && tag.group == a.group && !a.backward :: tag.index < a.pushed)
    && KeysAgree(a.store)
  }

  /** Group j has host copies: it left the device and has not come back. */
  ghost predicate Hosted(cfg: Config, a: Store, j: int)
    requires Good(cfg)
  {
    0 <= j < cfg.groups && (if a.backward then a.group > cfg.windows[j] else a.group > OffloadCommit(cfg, j))
  }

  ghost predicate CounterValid(cfg: Config, s: State, a: Store)
    requires Good(cfg)
  {
    if a.backward && a.group == 0 then s.offloadedCount == 0
    else
      && (if a.backward then 1 else 0) <= s.offloadedCount <= cfg.groups
      && forall j | (if a.backward then 1 else 0) <= j < cfg.groups ::
           cfg.windows[j] < a.group <==> j < s.offloadedCount
  }

  /** An entry of the tag table stands for tensor t: it is t, or what is needed to rebuild t. */
  ghost predicate Represents(slot: Slot, t: Tensor, hostCopies: map<int, map<Key, seq<int>>>, g: int) {
    match slot
    case OnDevice(live) => live == t
    case OnHost(key, shape) =>
      && key == t.key && shape == t.shape
      && g in hostCopies && key in hostCopies[g] && hostCopies[g][key] == t.data
  }

  /** The iteration order lists exactly the tags of the table. */
  ghost predicate OrderValid(order: seq<Tag>, slots: map<Tag, Slot>) {
    forall tag :: tag in order <==> tag in slots
  }

  ghost predicate SlotsValid(cfg: Config, order: seq<Tag>, slots: map<Tag, Slot>,
                             hostCopies: map<int, map<Key, seq<int>>>, store: map<Tag, Tensor>) {
    && slots.Keys == store.Keys
    && OrderValid(order, slots)
    && (forall tag | tag in slots :: Represents(slots[tag], store[tag], hostCopies, tag.group))
    && (cfg.groups < cfg.layers ==>
          forall tag | tag in slots && tag.group in hostCopies :: slots[tag].OnHost?)
  }

  /** The double buffer refers to the offloadable tensors of the groups whose window is still open. */
  ghost predicate BuffersValid(cfg: Config, buffers: map<Tag, Option<Tensor>>, closed: int, a: Store) {
    && (forall tag :: tag in buffers <==> tag in a.store && tag.group < cfg.groups)
    && (forall tag | tag in buffers ::
          buffers[tag] == if a.backward || tag.group < closed then None else Some(a.store[tag]))
  }

  ghost predicate Inv(cfg: Config, s: State, a: Store) {
    && Good(cfg)
    && StoreValid(cfg, a)
    && s.currentGroup == a.group && s.tensorCount == a.pushed
    && CounterValid(cfg, s, a)
    && SlotsValid(cfg, s.order, s.slots, s.hostCopies, a.store)
    && BuffersValid(cfg, s.buffers, s.offloadedCount, a)
    && (forall j :: j in s.hostCopies <==> Hosted(cfg, a, j))
  }

  lemma InitialInv(cfg: Config)
    requires Good(cfg)
    ensures Inv(cfg, INITIAL, EMPTY)
  {
  }

  lemma HasFirst<T>(s: seq<T>)
    requires |s| > 0
    ensures s[0] in s
  {
  }

  /** An empty store at the end of a backward pass determines the handler's whole state. */
  lemma QuiescentIsInitial(cfg: Config, s: State, a: Store)
    requires Inv(cfg, s, a) && Rewound(a) == EMPTY
    ensures s == INITIAL && Inv(cfg, s, EMPTY)
  {
    assert a.store == map[];
    assert s.slots.Keys == {};
    assert s.slots == map[];
    assert cfg.windows[0] >= 0;
    assert s.offloadedCount == 0;
    assert |s.order| == 0 by {
      if 0 < |s.order| {
        HasFirst(s.order);
      }
    }
    assert s.buffers == map[] by {
      assert forall tag :: tag !in s.buffers;
    }
    assert s.hostCopies == map[] by {
      forall j ensures j !in s.hostCopies {
        assert !Hosted(cfg, a, j);
      }
    }
    InitialInv(cfg);
  }

  lemma RewoundInv(cfg: Config, s: State, a: Store)
    requires Inv(cfg, s, a)
    ensures Inv(cfg, s, Rewound(a))
  {
    if Rewound(a) == EMPTY {
      QuiescentIsInitial(cfg, s, a);
    }
  }

  // ----- one event at a time

  lemma PushKeepsBuffers(cfg: Config, s: State, a: Store, t: Tensor)
    requires Good(cfg) && CounterValid(cfg, s, a) && BuffersValid(cfg, s.buffers, s.offloadedCount, a) && !a.backward
    ensures var tag := Tag(a.group, a.pushed);
            var buffers' := if a.group < cfg.groups then s.buffers[tag := Some(t)] else s.buffers;
            BuffersValid(cfg, buffers', s.offloadedCount, a.(pushed := a.pushed + 1, store := a.store[tag := t]))
  {
    if a.group < cfg.groups {
      assert a.group <= cfg.windows[a.group];
    }
  }

  lemma PushKeepsStore(cfg: Config, a: Store, t: Tensor)
    requires StoreValid(cfg, a) && !a.backward && a.group < cfg.layers
    requires WellShaped(t) && KeyAgrees(t, a.group, a.store)
    ensures StoreValid(cfg, a.(pushed := a.pushed + 1, store := a.store[Tag(a.group, a.pushed) := t]))
  {
  }

  /** With a group that never leaves the device, a hosted group is strictly before the current one. */
  lemma HostedIsOlder(cfg: Config, a: Store, j: int)
    requires Good(cfg) && StoreValid(cfg, a) && Hosted(cfg, a, j) && cfg.groups < cfg.layers
    ensures j < a.group
  {
    if j > 0 {
      assert j - 1 < cfg.windows[j - 1];
    }
  }

  lemma PushKeepsSlots(cfg: Config, order: seq<Tag>, slots: map<Tag, Slot>, hostCopies: map<int, map<Key, seq<int>>>,
                       store: map<Tag, Tensor>, tag: Tag, t: Tensor)
    requires SlotsValid(cfg, order, slots, hostCopies, store) && tag !in store
    requires cfg.groups < cfg.layers ==> tag.group !in hostCopies
    ensures SlotsValid(cfg, order + [tag], slots[tag := OnDevice(t)], hostCopies, store[tag := t])
  {
    assert tag !in order;
  }

  lemma ManagedPushRefines(cfg: Config, s: State, a: Store, t: Tensor)
    requires Inv(cfg, s, a) && !a.backward && a.group < cfg.layers
    requires WellShaped(t) && KeyAgrees(t, a.group, a.store)
    ensures var tag := Tag(a.group, a.pushed);
            var r := PushTensor(cfg, s, t, true);
            r.Ok? && r.value.output == Pushed(Managed(tag))
            && Inv(cfg, r.value.state, a.(pushed := a.pushed + 1, store := a.store[tag := t]))
  {
    var tag := Tag(a.group, a.pushed);
    assert tag !in a.store;
    var s' := PushTensor(cfg, s, t, true).value.state;
    var a' := a.(pushed := a.pushed + 1, store := a.store[tag := t]);
    PushKeepsStore(cfg, a, t);
    assert forall j :: Hosted(cfg, a, j) <==> Hosted(cfg, a', j);
    if cfg.groups < cfg.layers && a.group in s.hostCopies {
      HostedIsOlder(cfg, a, a.group);
    }
    PushKeepsSlots(cfg, s.order, s.slots, s.hostCopies, a.store, tag, t);
    PushKeepsBuffers(cfg, s, a, t);
    assert CounterValid(cfg, s', a');
    assert SlotsValid(cfg, s'.order, s'.slots, s'.hostCopies, a'.store);
    assert BuffersValid(cfg, s'.buffers, s'.offloadedCount, a');
  }

  lemma PushRefines(cfg: Config, s: State, a: Store, t: Tensor, managed: bool)
    requires Inv(cfg, s, a) && StoreStep(cfg, a, Push(t, managed)).Some?
    ensures var r := Step(cfg, s, Push(t, managed));
            var m := StoreStep(cfg, a, Push(t, managed)).value;
            r.Ok? && r.value.output == m.output && Inv(cfg, r.value.state, m.store)
  {
    RewoundInv(cfg, s, a);
    if managed {
      ManagedPushRefines(cfg, s, Rewound(a), t);
    }
  }

  /** Removing a tag from the iteration order keeps all the others. */
  lemma {:induction false} WithoutKeepsOthers(order: seq<Tag>, tag: Tag)
    ensures forall x :: x in Without(order, tag) <==> x in order && x != tag
  {
    if order == [] {
    } else {
      assert order == [order[0]] + order[1..];
      WithoutKeepsOthers(order[1..], tag);
    }
  }

  lemma PopKeepsSlots(cfg: Config, s: State, store: map<Tag, Tensor>, tag: Tag)
    requires SlotsValid(cfg, s.order, s.slots, s.hostCopies, store)
    ensures SlotsValid(cfg, Without(s.order, tag), s.slots - {tag}, s.hostCopies, store - {tag})
  {
    WithoutKeepsOthers(s.order, tag);
  }

  lemma PopRefines(cfg: Config, s: State, a: Store, h: Handle)
    requires Inv(cfg, s, a) && StoreStep(cfg, a, Pop(h)).Some?
    ensures var r := Step(cfg, s, Pop(h));
            var m := StoreStep(cfg, a, Pop(h)).value;
            r.Ok? && r.value.output == m.output && Inv(cfg, r.value.state, m.store)
  {
    match h
    case Unmanaged(_) =>
    case Managed(tag) =>
      var a' := a.(store := a.store - {tag});
      assert forall j :: Hosted(cfg, a, j) <==> Hosted(cfg, a', j);
      if tag.group < cfg.groups {
        assert tag.group <= cfg.windows[tag.group];
      }
      assert !Hosted(cfg, a, tag.group);
      assert Represents(s.slots[tag], a.store[tag], s.hostCopies, tag.group);
      PopKeepsSlots(cfg, s, a.store, tag);
  }

  // ----- bulk moves

  lemma {:induction false} HostCopiesAgree(order: seq<Tag>, slots: map<Tag, Slot>, g: int, tag: Tag)
    requires tag in slots && slots[tag].OnDevice?
    requires forall x | x in slots && x.group == g && slots[x].OnDevice?
                        && slots[x].tensor.key == slots[tag].tensor.key ::
               slots[x].tensor.data == slots[tag].tensor.data
    ensures var copies := HostCopies(order, slots, g);
            slots[tag].tensor.key in copies ==> copies[slots[tag].tensor.key] == slots[tag].tensor.data
  {
    if order == [] {
    } else {
      HostCopiesAgree(order[..|order| - 1], slots, g, tag);
    }
  }

  /** Whatever the iteration order, every live tensor of the group finds its data under its key. */
  lemma {:induction false} HostCopiesCover(order: seq<Tag>, slots: map<Tag, Slot>, g: int, tag: Tag)
    requires tag in order && tag.group == g && tag in slots && slots[tag].OnDevice?
    requires forall x | x in slots && x.group == g && slots[x].OnDevice?
                        && slots[x].tensor.key == slots[tag].tensor.key ::
               slots[x].tensor.data == slots[tag].tensor.data
    ensures var copies := HostCopies(order, slots, g);
            slots[tag].tensor.key in copies && copies[slots[tag].tensor.key] == slots[tag].tensor.data
  {
    var last := |order| - 1;
    assert order == order[..last] + [order[last]];
    if tag in order[..last] {
      HostCopiesCover(order[..last], slots, g, tag);
    } else {
      HostCopiesAgree(order[..last], slots, g, tag);
    }
  }

  lemma OffloadKeepsSlots(cfg: Config, s: State, store: map<Tag, Tensor>, g: int)
    requires SlotsValid(cfg, s.order, s.slots, s.hostCopies, store) && KeysAgree(store) && g !in s.hostCopies
    ensures var r := BulkOffload(s, g);
            r.Ok? && SlotsValid(cfg, r.value.order, r.value.slots, r.value.hostCopies, store)
            && r.value == s.(slots := r.value.slots, hostCopies := r.value.hostCopies)
            && r.value.hostCopies.Keys == s.hostCopies.Keys + {g}
  {
    forall tag | tag in s.slots && tag.group == g ensures s.slots[tag].OnDevice? {
      assert Represents(s.slots[tag], store[tag], s.hostCopies, tag.group);
    }
    var s' := BulkOffload(s, g).value;
    forall tag | tag in s'.slots ensures Represents(s'.slots[tag], store[tag], s'.hostCopies, tag.group) {
      assert Represents(s.slots[tag], store[tag], s.hostCopies, tag.group);
      if tag.group == g {
        assert forall x | x in s.slots && x.group == g :: Represents(s.slots[x], store[x], s.hostCopies, g);
        HostCopiesCover(s.order, s.slots, g, tag);
      }
    }
  }

  lemma ReloadKeepsSlots(cfg: Config, s: State, store: map<Tag, Tensor>, g: int)
    requires SlotsValid(cfg, s.order, s.slots, s.hostCopies, store) && g in s.hostCopies && g < cfg.groups
    requires forall tag | tag in store :: WellShaped(store[tag])
    ensures var r := BulkReload(cfg, s, g);
            r.Ok? && SlotsValid(cfg, r.value.order, r.value.slots, r.value.hostCopies, store)
            && r.value == s.(slots := r.value.slots, hostCopies := s.hostCopies - {g})
  {
    forall tag | tag in s.slots && tag.group == g ensures Recoverable(s.slots[tag], s.hostCopies[g]) {
      assert Represents(s.slots[tag], store[tag], s.hostCopies, g);
      assert WellShaped(store[tag]);
    }
    var s' := BulkReload(cfg, s, g).value;
    forall tag | tag in s'.slots ensures Represents(s'.slots[tag], store[tag], s'.hostCopies, tag.group) {
      assert Represents(s.slots[tag], store[tag], s.hostCopies, tag.group);
    }
  }

  // ----- commits

  /** The groups whose copies start at the forward commit of the current group: group 0 at the first
      commit, and the one after the window that closes there. */
  lemma OffloadedAtCommit(cfg: Config, s: State, a: Store)
    requires Good(cfg) && CounterValid(cfg, s, a) && !a.backward && a.group < cfg.layers
    ensures s.offloadedCount in cfg.windows
    ensures var k := s.offloadedCount;
            var closes := cfg.windows[k] == a.group && k < cfg.groups - 1;
            LeavingAt(cfg, a.group)
            == (if a.group == 0 then {0} else {}) + (if closes then {k + 1} else {})
  {
    var k := s.offloadedCount;
    assert cfg.windows[cfg.groups - 1] >= a.group;
    assert k < cfg.groups;
    assert cfg.windows[k] >= a.group;
    forall j | 1 <= j < cfg.groups
      ensures OffloadCommit(cfg, j) == a.group <==> (j == k + 1 && cfg.windows[k] == a.group)
    {
      if j - 1 < k {
        assert cfg.windows[j - 1] < a.group;
      } else if k < j - 1 {
        assert cfg.windows[k] < cfg.windows[j - 1];
      }
    }
  }

  lemma CloseWindowKeeps(cfg: Config, s: State, store: map<Tag, Tensor>)
    requires SlotsValid(cfg, s.order, s.slots, s.hostCopies, store) && KeysAgree(store)
    requires s.offloadedCount + 1 !in s.hostCopies
    ensures var r := CloseWindow(cfg, s);
            var moved := if s.offloadedCount < cfg.groups - 1 then {s.offloadedCount + 1} else {};
            r.Ok? && r.value.output == Offloaded(moved)
            && var s' := r.value.state;
               SlotsValid(cfg, s'.order, s'.slots, s'.hostCopies, store)
               && s'.hostCopies.Keys == s.hostCopies.Keys + moved
               && s' == s.(slots := s'.slots, hostCopies := s'.hostCopies,
                           buffers := ClearBuffers(s.buffers, s.offloadedCount), offloadedCount := s.offloadedCount + 1)
  {
    if s.offloadedCount < cfg.groups - 1 {
      OffloadKeepsSlots(cfg, s.(buffers := ClearBuffers(s.buffers, s.offloadedCount)), store, s.offloadedCount + 1);
    }
  }

  /** The first commit starts the copies of group 0; every later one starts from the state as it is. */
  lemma KickstartKeeps(cfg: Config, s: State, store: map<Tag, Tensor>) returns (s': State)
    requires SlotsValid(cfg, s.order, s.slots, s.hostCopies, store) && KeysAgree(store)
    requires s.currentGroup == 0 ==> 0 !in s.hostCopies
    ensures (if s.currentGroup == 0 then BulkOffload(s, 0) else Ok(s)) == Ok(s')
    ensures SlotsValid(cfg, s'.order, s'.slots, s'.hostCopies, store)
    ensures s'.hostCopies.Keys == s.hostCopies.Keys + (if s.currentGroup == 0 then {0} else {})
    ensures s' == s.(slots := s'.slots, hostCopies := s'.hostCopies)
  {
    s' := s;
    if s.currentGroup == 0 {
      OffloadKeepsSlots(cfg, s, store, 0);
      s' := BulkOffload(s, 0).value;
    }
  }

  /** The groups a forward commit moves: the first one at the first commit, and the next one when
      the open window closes. */
  function MovedForward(cfg: Config, s: State): set<int>
    requires s.offloadedCount in cfg.windows
  {
    var k := s.offloadedCount;
    (if s.currentGroup == 0 then {0} else {})
    + (if cfg.windows[k] == s.currentGroup && k < cfg.groups - 1 then {k + 1} else {})
  }

  /** A forward commit, part by part: it hosts the groups it moves, and if it closes a window it
      clears that window's buffers and counts it. */
  ghost predicate ForwardEffect(cfg: Config, s: State, store: map<Tag, Tensor>, s': State)
    requires s.offloadedCount in cfg.windows
  {
    var k := s.offloadedCount;
    var closes := cfg.windows[k] == s.currentGroup;
    && s'.currentGroup == s.currentGroup + 1 && s'.tensorCount == 0
    && SlotsValid(cfg, s'.order, s'.slots, s'.hostCopies, store)
    && s'.hostCopies.Keys == s.hostCopies.Keys + MovedForward(cfg, s)
    && s'.buffers == (if closes then ClearBuffers(s.buffers, k) else s.buffers)
    && s'.offloadedCount == (if closes then k + 1 else k)
  }

  lemma CommitForwardEffect(cfg: Config, s: State, store: map<Tag, Tensor>) returns (s': State)
    requires SlotsValid(cfg, s.order, s.slots, s.hostCopies, store) && KeysAgree(store)
    requires s.currentGroup == 0 ==> 0 !in s.hostCopies
    requires 0 <= s.offloadedCount && s.offloadedCount in cfg.windows
    requires cfg.windows[s.offloadedCount] == s.currentGroup ==> s.offloadedCount + 1 !in s.hostCopies
    ensures CommitForwardStep(cfg, s) == Ok(StepResult(s', Offloaded(MovedForward(cfg, s))))
    ensures ForwardEffect(cfg, s, store, s')
  {
    var k := s.offloadedCount;
    var s1 := KickstartKeeps(cfg, s, store);
    if cfg.windows[k] == s.currentGroup {
      assert k + 1 !in s1.hostCopies.Keys;
      CloseWindowKeeps(cfg, s1, store);
    }
    s' := CommitForwardStep(cfg, s).value.state;
  }

  /** No group about to be copied to the host is there already. */
  lemma MovedAreOnDevice(cfg: Config, s: State, a: Store)
    requires Inv(cfg, s, a) && !a.backward && a.group < cfg.layers
    ensures s.currentGroup == 0 ==> 0 !in s.hostCopies
    ensures 0 <= s.offloadedCount && s.offloadedCount in cfg.windows
    ensures cfg.windows[s.offloadedCount] == s.currentGroup ==> s.offloadedCount + 1 !in s.hostCopies
    ensures MovedForward(cfg, s) == LeavingAt(cfg, a.group)
  {
    var k := s.offloadedCount;
    OffloadedAtCommit(cfg, s, a);
    assert !Hosted(cfg, a, 0) || a.group > 0;
    if cfg.windows[k] == a.group {
      assert !Hosted(cfg, a, k + 1);
    }
  }

  lemma ForwardCounter(cfg: Config, s: State, a: Store, s': State, a': Store)
    requires Good(cfg) && CounterValid(cfg, s, a) && !a.backward && s.offloadedCount in cfg.windows
    requires s'.offloadedCount
             == (if cfg.windows[s.offloadedCount] == a.group then s.offloadedCount + 1 else s.offloadedCount)
    requires a'.group == a.group + 1 && !a'.backward
    ensures CounterValid(cfg, s', a')
  {
    var k := s.offloadedCount;
    forall j | 0 <= j < cfg.groups ensures cfg.windows[j] < a'.group <==> j < s'.offloadedCount {
      assert cfg.windows[k] >= a.group;
      if k < j {
        assert cfg.windows[k] < cfg.windows[j];
      }
    }
  }

  lemma ForwardEffectKeepsInv(cfg: Config, s: State, a: Store, s': State, a': Store)
    requires Inv(cfg, s, a) && !a.backward && a.group < cfg.layers
    requires s.offloadedCount in cfg.windows && MovedForward(cfg, s) == LeavingAt(cfg, a.group)
    requires a' == a.(group := a.group + 1, pushed := 0) && ForwardEffect(cfg, s, a.store, s')
    ensures Inv(cfg, s', a')
  {
    assert StoreValid(cfg, a');
    forall j ensures j in s'.hostCopies <==> Hosted(cfg, a', j) {
      assert j in s'.hostCopies <==> j in s.hostCopies.Keys || j in LeavingAt(cfg, a.group);
    }
    ForwardCounter(cfg, s, a, s', a');
    assert BuffersValid(cfg, s'.buffers, s'.offloadedCount, a');
  }

  lemma CommitForwardRefines(cfg: Config, s: State, before: Store)
    requires Inv(cfg, s, before) && StoreStep(cfg, before, CommitForward).Some?
    ensures var r := Step(cfg, s, CommitForward);
            var m := StoreStep(cfg, before, CommitForward).value;
            r.Ok? && r.value.output == m.output && Inv(cfg, r.value.state, m.store)
  {
    RewoundInv(cfg, s, before);
    var a := Rewound(before);
    MovedAreOnDevice(cfg, s, a);
    var s' := CommitForwardEffect(cfg, s, a.store);
    ForwardEffectKeepsInv(cfg, s, a, s', StoreStep(cfg, before, CommitForward).value.store);
  }

  /** The groups whose copies return at the backward commit to group c: the one whose window c closed. */
  lemma ReloadedAtCommit(cfg: Config, s: State, a: Store)
    requires Good(cfg) && CounterValid(cfg, s, a) && a.group > 0
    requires a.backward || a.group == cfg.layers
    ensures 1 <= s.offloadedCount <= cfg.groups
    ensures var last := s.offloadedCount - 1;
            ReturningAt(cfg, a.group - 1)
            == (if cfg.windows[last] == a.group - 1 then {last} else {})
  {
    var k := s.offloadedCount;
    if !a.backward {
      assert cfg.windows[cfg.groups - 1] < a.group;
    }
    assert k - 1 > 0 ==> cfg.windows[k - 1] < a.group;
    assert forall j | 0 <= j < k - 1 :: cfg.windows[j] < cfg.windows[k - 1];
  }

  /** A backward commit, part by part. */
  ghost predicate BackwardEffect(cfg: Config, s: State, a: Store, s': State)
    requires Good(cfg) && a.group > 0
  {
    && s'.currentGroup == a.group - 1 && s'.tensorCount == s.tensorCount
    && SlotsValid(cfg, s'.order, s'.slots, s'.hostCopies, a.store)
    && s'.hostCopies.Keys == s.hostCopies.Keys - ReturningAt(cfg, a.group - 1)
    && s'.buffers == s.buffers
    && s.offloadedCount - 1 in cfg.windows
    && s'.offloadedCount
       == (if a.group == 1 then 0
           else if cfg.windows[s.offloadedCount - 1] == a.group - 1 && s.offloadedCount > 1 then s.offloadedCount - 1
           else s.offloadedCount)
  }

  lemma CommitBackwardEffect(cfg: Config, s: State, a: Store) returns (s': State)
    requires Inv(cfg, s, a) && a.group > 0 && (a.backward || a.group == cfg.layers)
    ensures CommitBackwardStep(cfg, s)
            == Ok(StepResult(s', Reloaded(ReturningAt(cfg, a.group - 1))))
    ensures BackwardEffect(cfg, s, a, s')
  {
    ReloadedAtCommit(cfg, s, a);
    var last := s.offloadedCount - 1;
    if cfg.windows[last] == a.group - 1 {
      assert Hosted(cfg, a, last) by {
        if last > 0 {
          assert cfg.windows[last - 1] < cfg.windows[last];
        }
      }
      ReloadKeepsSlots(cfg, s, a.store, last);
    }
    s' := CommitBackwardStep(cfg, s).value.state;
  }

  /** When the backward pass begins every window has closed, so no buffer is still referenced. */
  lemma BackwardBuffers(cfg: Config, s: State, a: Store)
    requires Good(cfg) && CounterValid(cfg, s, a) && (a.backward || a.group == cfg.layers)
    ensures !a.backward ==> s.offloadedCount == cfg.groups
  {
    if !a.backward {
      assert cfg.windows[cfg.groups - 1] < a.group;
    }
  }

  lemma BackwardCounter(cfg: Config, s: State, a: Store, s': State, a': Store)
    requires Good(cfg) && CounterValid(cfg, s, a) && a.group > 0 && (a.backward || a.group == cfg.layers)
    requires BackwardEffect(cfg, s, a, s')
    requires a'.group == a.group - 1 && a'.backward
    ensures CounterValid(cfg, s', a')
  {
    ReloadedAtCommit(cfg, s, a);
    var k := s.offloadedCount;
    if a'.group > 0 {
      forall j | 1 <= j < cfg.groups ensures cfg.windows[j] < a'.group <==> j < s'.offloadedCount {
        if j < k - 1 {
          assert cfg.windows[j] < cfg.windows[k - 1];
        }
        if 1 <= k - 1 {
          assert cfg.windows[k - 1] < a.group;
        }
      }
    }
  }

  lemma BackwardEffectKeepsInv(cfg: Config, s: State, a: Store, s': State, a': Store)
    requires Inv(cfg, s, a) && a.group > 0 && (a.backward || a.group == cfg.layers) && a.pushed == 0
    requires forall tag | tag in a.store && a.backward :: tag.group != a.group
    requires a' == a.(group := a.group - 1, backward := true) && BackwardEffect(cfg, s, a, s')
    ensures Inv(cfg, s', a')
  {
    assert StoreValid(cfg, a');
    forall j ensures j in s'.hostCopies <==> Hosted(cfg, a', j) {
      assert j in s'.hostCopies <==> j in s.hostCopies.Keys && j !in ReturningAt(cfg, a.group - 1);
      if !a.backward && 0 < j < cfg.groups {
        assert cfg.windows[j - 1] < cfg.layers;
      }
    }
    BackwardCounter(cfg, s, a, s', a');
    assert BuffersValid(cfg, s'.buffers, s'.offloadedCount, a') by {
      BackwardBuffers(cfg, s, a);
    }
  }

  lemma CommitBackwardRefines(cfg: Config, s: State, before: Store)
    requires Inv(cfg, s, before) && StoreStep(cfg, before, CommitBackward).Some?
    ensures var r := Step(cfg, s, CommitBackward);
            var m := StoreStep(cfg, before, CommitBackward).value;
            r.Ok? && r.value.output == m.output && Inv(cfg, r.value.state, m.store)
  {
    RewoundInv(cfg, s, before);
    var a := Rewound(before);
    var s' := CommitBackwardEffect(cfg, s, a);
    BackwardEffectKeepsInv(cfg, s, a, s', StoreStep(cfg, before, CommitBackward).value.store);
  }

  // ----- whole runs

  lemma StepRefines(cfg: Config, s: State, a: Store, e: Event)
    requires Inv(cfg, s, a) && StoreStep(cfg, a, e).Some?
    ensures var r := Step(cfg, s, e);
            var m := StoreStep(cfg, a, e).value;
            r.Ok? && r.value.output == m.output && Inv(cfg, r.value.state, m.store)
  {
    match e
    case Push(t, managed) => PushRefines(cfg, s, a, t, managed);
    case Pop(h) => PopRefines(cfg, s, a, h);
    case CommitForward => CommitForwardRefines(cfg, s, a);
    case CommitBackward => CommitBackwardRefines(cfg, s, a);
  }

  lemma {:induction false} RunRefinesFrom(cfg: Config, s: State, a: Store, events: seq<Event>)
    requires Inv(cfg, s, a) && StoreRun(cfg, a, events).Some?
    ensures var r := Run(cfg, s, events);
            var m := StoreRun(cfg, a, events).value;
            r.Ok? && r.value.outputs == m.outputs && Inv(cfg, r.value.state, m.store)
    decreases |events|
  {
    if events == [] {
    } else {
      StepRefines(cfg, s, a, events[0]);
      RunRefinesFrom(cfg, Step(cfg, s, events[0]).value.state, StoreStep(cfg, a, events[0]).value.store, events[1..]);
    }
  }

  /** Every protocol run, of any number of forward and backward passes, completes without an
      assertion or a lookup failing, pops exactly what was pushed, and moves exactly the scheduled
      groups; whenever the reference store is back at rest, so is every map and counter. */
  lemma RunRefinesStore(cfg: Config, events: seq<Event>)
    requires Good(cfg) && StoreRun(cfg, EMPTY, events).Some?
    ensures var r := Run(cfg, INITIAL, events);
            var m := StoreRun(cfg, EMPTY, events).value;
            && r.Ok? && r.value.outputs == m.outputs
            && (Rewound(m.store) == EMPTY ==> r.value.state == INITIAL)
  {
    InitialInv(cfg);
    RunRefinesFrom(cfg, INITIAL, EMPTY, events);
    var m := StoreRun(cfg, EMPTY, events).value;
    if Rewound(m.store) == EMPTY {
      QuiescentIsInitial(cfg, Run(cfg, INITIAL, events).value.state, m.store);
    }
  }

  /** With a group that stays on the device, each offloaded group leaves at one forward commit, no
      earlier than its own, and returns at one backward commit, before its own; groups leave in
      increasing order and return in the opposite one. */
  lemma EachGroupMovesOnce(cfg: Config, j: int)
    requires Good(cfg) && 0 <= j < cfg.groups < cfg.layers
    ensures forall c :: j in LeavingAt(cfg, c) <==> c == OffloadCommit(cfg, j)
    ensures forall c :: j in ReturningAt(cfg, c) <==> c == cfg.windows[j]
    ensures j <= OffloadCommit(cfg, j) < cfg.windows[j] < cfg.layers && j < cfg.windows[j]
    ensures forall i | 0 <= i < j :: OffloadCommit(cfg, i) < OffloadCommit(cfg, j) && cfg.windows[i] < cfg.windows[j]
  {
    assert j < cfg.windows[j];
    if j > 0 {
      assert j - 1 < cfg.windows[j - 1] < cfg.windows[j];
    }
  }

  // ----- how much stays on the device

  /** The groups with a managed tensor on the device: in the tag table or still in the double buffer. */
  function DeviceGroups(s: State): set<int> {
    (set tag | tag in s.slots && s.slots[tag].OnDevice? :: tag.group)
    + (set tag | tag in s.buffers && s.buffers[tag].Some? :: tag.group)
  }

  lemma TwoDeviceGroups(s: State, x: int)
    requires forall tag | tag in s.slots && s.slots[tag].OnDevice? :: x <= tag.group <= x + 1
    requires forall tag | tag in s.buffers && s.buffers[tag].Some? :: x <= tag.group <= x + 1
    ensures |DeviceGroups(s)| <= 2
  {
    var near := DeviceGroups(s);
    assert near <= {x, x + 1};
    assert |near - {x} - {x + 1}| == 0;
    assert |near| <= |near - {x}| + 1 && |near - {x}| <= |near - {x} - {x + 1}| + 1;
  }

  /** Window i closes with group i + 1: every group but the last is offloaded. */
  ghost predicate AllButLast(cfg: Config) {
    && 2 <= cfg.layers && cfg.groups == cfg.layers - 1
    && (forall i :: 0 <= i < cfg.groups ==> i in cfg.windows && cfg.windows[i] == i + 1)
  }

  lemma LiveSlotNearCurrent(cfg: Config, s: State, a: Store, tag: Tag)
    requires Inv(cfg, s, a) && AllButLast(cfg) && tag in s.slots && s.slots[tag].OnDevice?
    ensures a.group - 1 <= tag.group <= a.group
  {
    assert tag in a.store;
    assert tag.group !in s.hostCopies;
    assert !Hosted(cfg, a, tag.group);
  }

  lemma LiveBufferNearCurrent(cfg: Config, s: State, a: Store, tag: Tag)
    requires Inv(cfg, s, a) && AllButLast(cfg) && tag in s.buffers && s.buffers[tag].Some?
    ensures a.group - 1 <= tag.group <= a.group
  {
    assert tag in a.store && s.offloadedCount <= tag.group < cfg.groups && !a.backward;
    assert cfg.windows[tag.group] >= a.group;
  }

  lemma DeviceGroupsNearCurrent(cfg: Config, s: State, a: Store)
    requires Inv(cfg, s, a) && AllButLast(cfg)
    ensures |DeviceGroups(s)| <= 2
  {
    forall tag | tag in s.slots && s.slots[tag].OnDevice? ensures a.group - 1 <= tag.group <= a.group {
      LiveSlotNearCurrent(cfg, s, a, tag);
    }
    forall tag | tag in s.buffers && s.buffers[tag].Some? ensures a.group - 1 <= tag.group <= a.group {
      LiveBufferNearCurrent(cfg, s, a, tag);
    }
    TwoDeviceGroups(s, a.group - 1);
  }

  lemma TrainerSchedule(cfg: Config)
    requires 2 <= cfg.layers && cfg.groups == cfg.layers - 1
    requires forall i :: i in cfg.windows <==> 0 <= i < cfg.groups
    requires forall i | 0 <= i < cfg.groups :: cfg.windows[i] == Window(cfg.layers, cfg.groups, i)
    ensures Good(cfg) && AllButLast(cfg)
  {
    WindowsAreWellScheduled(cfg.windows, cfg.layers, cfg.groups);
    forall i | 0 <= i < cfg.groups ensures cfg.windows[i] == i + 1 {
      AllButLastWindows(cfg.layers, i);
    }
  }

  /** As the trainer configures it, with all groups but the last offloaded, no state of any run has
      managed tensors of more than two groups on the device. */
  lemma AtMostTwoGroupsResident(cfg: Config, events: seq<Event>)
    requires 2 <= cfg.layers && cfg.groups == cfg.layers - 1
    requires forall i :: i in cfg.windows <==> 0 <= i < cfg.groups
    requires forall i | 0 <= i < cfg.groups :: cfg.windows[i] == Window(cfg.layers, cfg.groups, i)
    ensures Good(cfg)
    ensures StoreRun(cfg, EMPTY, events).Some? ==>
              Run(cfg, INITIAL, events).Ok? && |DeviceGroups(Run(cfg, INITIAL, events).value.state)| <= 2
  {
    TrainerSchedule(cfg);
    if StoreRun(cfg, EMPTY, events).Some? {
      InitialInv(cfg);
      RunRefinesFrom(cfg, INITIAL, EMPTY, events);
      DeviceGroupsNearCurrent(cfg, Run(cfg, INITIAL, events).value.state, StoreRun(cfg, EMPTY, events).value.store);
    }
  }

  // ----- what sharing a key requires

  ghost predicate GroupKeysAgree(slots: map<Tag, Slot>, g: int)
    requires AllOnDevice(slots, g)
  {
    forall x, y | x in slots && y in slots && x.group == g && y.group == g
                  && slots[x].tensor.key == slots[y].tensor.key ::
      slots[x].tensor.data == slots[y].tensor.data
  }

  /** Since a group's copies are kept per key only, moving the group out and back restores it
      exactly when its tensors that share a key also share their flat data. */
  lemma MovingOutAndBack(cfg: Config, s: State, g: int)
    requires OrderValid(s.order, s.slots) && AllOnDevice(s.slots, g) && g < cfg.groups
    requires forall tag | tag in s.slots && tag.group == g :: WellShaped(s.slots[tag].tensor)
    ensures var back := BulkReload(cfg, BulkOffload(s, g).value, g);
            back.Ok? && back.value.slots == s.slots <==> GroupKeysAgree(s.slots, g)
  {
    var out := BulkOffload(s, g).value;
    var copies := HostCopies(s.order, s.slots, g);
    if GroupKeysAgree(s.slots, g) {
      forall tag | tag in s.slots && tag.group == g
        ensures Recoverable(out.slots[tag], copies) && Recover(out.slots[tag], copies) == s.slots[tag]
      {
        HostCopiesCover(s.order, s.slots, g, tag);
      }
    } else {
      var x, y :| x in s.slots && y in s.slots && x.group == g && y.group == g
                  && s.slots[x].tensor.key == s.slots[y].tensor.key && s.slots[x].tensor.data != s.slots[y].tensor.data;
      assert out.slots[x].OnHost? && out.slots[y].OnHost?;
    }
  }

  /** Entry i of the tag table is a live tensor of the group with this key. */
  predicate Carries(order: seq<Tag>, slots: map<Tag, Slot>, g: int, key: Key, i: nat) {
    && i < |order| && order[i].group == g && order[i] in slots
    && slots[order[i]].OnDevice? && slots[order[i]].tensor.key == key
  }

  /** The host copy under a key is that of the first live tensor of the group with the key; without such a
      tensor there is none. */
  lemma {:induction false} HostCopyIsFirst(order: seq<Tag>, slots: map<Tag, Slot>, g: int, key: Key)
    ensures var copies := HostCopies(order, slots, g);
            if key in copies then
              exists i: nat :: Carries(order, slots, g, key, i) && copies[key] == slots[order[i]].tensor.data
                               && forall j: nat | j < i :: !Carries(order, slots, g, key, j)
            else forall i: nat :: !Carries(order, slots, g, key, i)
  {
    if order == [] {
    } else {
      var last, init := |order| - 1, order[..|order| - 1];
      HostCopyIsFirst(init, slots, g, key);
      forall i: nat | i < last ensures Carries(order, slots, g, key, i) <==> Carries(init, slots, g, key, i) {
      }
      if key !in HostCopies(init, slots, g) && key in HostCopies(order, slots, g) {
        assert Carries(order, slots, g, key, last);
      }
    }
  }
}
