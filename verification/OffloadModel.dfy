/** The double-buffered activation offloader as a state machine on values: what one push, one pop
    and one group commit do to the handler's maps and counters, with every assertion and every
    dictionary lookup that can fail. */
module OffloadModel {
  import opened Outcomes
  import opened OffloadSchedule

  /** A storage address together with the element type: what the handler deduplicates by. */
  datatype Key = Key(address: int, elementType: int)

  datatype Tensor = Tensor(key: Key, shape: seq<nat>, data: seq<int>)

  function Numel(shape: seq<nat>): nat {
    if shape == [] then 1 else shape[0] * Numel(shape[1..])
  }

  predicate WellShaped(t: Tensor) {
    |t.data| == Numel(t.shape)
  }

  datatype Tag = Tag(group: int, index: int)

  /** What a push hands back: a tag, or the tensor itself when the handler does not manage it. */
  datatype Handle = Managed(tag: Tag) | Unmanaged(tensor: Tensor)

  /** An entry of the tag table: the live tensor, or the key and shape left after offloading. */
  datatype Slot = OnDevice(tensor: Tensor) | OnHost(key: Key, shape: seq<nat>)

  datatype Config = Config(layers: nat, groups: nat, windows: Windows)

  /** `order` is the insertion order of the tag table `slots`, which the bulk loops follow. */
  datatype State = State(
    currentGroup: int,
    tensorCount: int,
    order: seq<Tag>,
    slots: map<Tag, Slot>,
    buffers: map<Tag, Option<Tensor>>,
    offloadedCount: int,
    hostCopies: map<int, map<Key, seq<int>>>)

  const INITIAL := State(0, 0, [], map[], map[], 0, map[])

  datatype Event =
    | Push(tensor: Tensor, managed: bool)
    | Pop(handle: Handle)
    | CommitForward
    | CommitBackward

  /** What the caller and an observer of the copies see of one event. */
  datatype Output =
    | Pushed(handle: Handle)
    | Popped(tensor: Tensor)
    | Offloaded(groups: set<int>)
    | Reloaded(groups: set<int>)

  datatype StepResult = StepResult(state: State, output: Output)

  // ----- push and pop

  function PushTensor(cfg: Config, s: State, t: Tensor, managed: bool): Result<StepResult> {
    if !managed then Ok(StepResult(s, Pushed(Unmanaged(t)))) else
    var tag := Tag(s.currentGroup, s.tensorCount);
    if tag in s.slots then Err else
    Ok(StepResult(
         s.(tensorCount := s.tensorCount + 1,
            order := s.order + [tag],
            slots := s.slots[tag := OnDevice(t)],
            buffers := if s.currentGroup < cfg.groups then s.buffers[tag := Some(t)] else s.buffers),
         Pushed(Managed(tag))))
  }

  function Without(order: seq<Tag>, tag: Tag): seq<Tag> {
    if order == [] then []
    else (if order[0] == tag then [] else [order[0]]) + Without(order[1..], tag)
  }

  function PopTensor(s: State, h: Handle): Result<StepResult> {
    match h
    case Unmanaged(t) => Ok(StepResult(s, Popped(t)))
    case Managed(tag) =>
      if tag !in s.slots || s.slots[tag].OnHost? then Err else
      Ok(StepResult(
           s.(order := Without(s.order, tag), slots := s.slots - {tag}, buffers := s.buffers - {tag}),
           Popped(s.slots[tag].tensor)))
  }

  // ----- bulk moves of one group

  /** The host copies of one group: for each key, the data of the first live tensor carrying it. */
  function HostCopies(order: seq<Tag>, slots: map<Tag, Slot>, g: int): map<Key, seq<int>> {
    if order == [] then map[] else
    var last := |order| - 1;
    var copies := HostCopies(order[..last], slots, g);
    var tag := order[last];
    if tag.group == g && tag in slots && slots[tag].OnDevice? && slots[tag].tensor.key !in copies
    then copies[slots[tag].tensor.key := slots[tag].tensor.data]
    else copies
  }

  function Evict(slot: Slot): Slot {
    if slot.OnDevice? then OnHost(slot.tensor.key, slot.tensor.shape) else slot
  }

  predicate AllOnDevice(slots: map<Tag, Slot>, g: int) {
    forall tag | tag in slots && tag.group == g :: slots[tag].OnDevice?
  }

  function EvictGroup(slots: map<Tag, Slot>, g: int): map<Tag, Slot> {
    map tag | tag in slots :: if tag.group == g then Evict(slots[tag]) else slots[tag]
  }

  function BulkOffload(s: State, g: int): Result<State> {
    if !AllOnDevice(s.slots, g) then Err else
    Ok(s.(slots := EvictGroup(s.slots, g),
          hostCopies := s.hostCopies[g := HostCopies(s.order, s.slots, g)]))
  }

  /** An offloaded entry can be rebuilt: its key was copied, and the copy fits its shape. */
  predicate Recoverable(slot: Slot, copies: map<Key, seq<int>>) {
    slot.OnHost? ==> slot.key in copies && |copies[slot.key]| == Numel(slot.shape)
  }

  function Recover(slot: Slot, copies: map<Key, seq<int>>): Slot
    requires Recoverable(slot, copies)
  {
    if slot.OnHost? then OnDevice(Tensor(slot.key, slot.shape, copies[slot.key])) else slot
  }

  function BulkReload(cfg: Config, s: State, g: int): Result<State> {
    if g >= cfg.groups || g !in s.hostCopies then Err else
    var copies := s.hostCopies[g];
    if exists tag | tag in s.slots && tag.group == g :: !Recoverable(s.slots[tag], copies) then Err else
    Ok(s.(slots := map tag | tag in s.slots ::
                     if tag.group == g then Recover(s.slots[tag], copies) else s.slots[tag],
          hostCopies := s.hostCopies - {g}))
  }

  // ----- group commits

  /** Forgets the double-buffer references to the tensors of one group. */
  function ClearBuffers(buffers: map<Tag, Option<Tensor>>, g: int): map<Tag, Option<Tensor>> {
    map tag | tag in buffers :: if tag.group == g then None else buffers[tag]
  }

  /** The part of the forward commit that runs when a window closes. */
  function CloseWindow(cfg: Config, s: State): Result<StepResult> {
    var s1 := s.(buffers := ClearBuffers(s.buffers, s.offloadedCount));
    var next := s.offloadedCount + 1;
    if s.offloadedCount < cfg.groups - 1 then
      var s2 :- BulkOffload(s1, next);
      Ok(StepResult(s2.(offloadedCount := next), Offloaded({next})))
    else
      Ok(StepResult(s1.(offloadedCount := next), Offloaded({})))
  }

  function CommitForwardStep(cfg: Config, s: State): Result<StepResult> {
    var c := s.currentGroup;
    var s1 :- if c == 0 then BulkOffload(s, 0) else Ok(s);
    var first := if c == 0 then {0} else {};
    if s1.offloadedCount !in cfg.windows then Err else
    var r :- if cfg.windows[s1.offloadedCount] == c then CloseWindow(cfg, s1)
             else Ok(StepResult(s1, Offloaded({})));
    Ok(StepResult(r.state.(currentGroup := c + 1, tensorCount := 0), Offloaded(first + r.output.groups)))
  }

  /** The part of the backward commit that runs when the current group closed a window. */
  function ReopenWindow(cfg: Config, s: State): Result<StepResult> {
    var s1 :- BulkReload(cfg, s, s.offloadedCount - 1);
    Ok(StepResult(s1.(offloadedCount := if s.offloadedCount > 1 then s.offloadedCount - 1 else s.offloadedCount),
                  Reloaded({s.offloadedCount - 1})))
  }

  function CommitBackwardStep(cfg: Config, s: State): Result<StepResult> {
    var c := s.currentGroup - 1;
    if c < 0 || s.offloadedCount - 1 !in cfg.windows then Err else
    var r :- if cfg.windows[s.offloadedCount - 1] == c then ReopenWindow(cfg, s)
             else Ok(StepResult(s, Reloaded({})));
    Ok(r.(state := r.state.(currentGroup := c, offloadedCount := if c == 0 then 0 else r.state.offloadedCount)))
  }

  function Step(cfg: Config, s: State, e: Event): Result<StepResult> {
    match e
    case Push(t, managed) => PushTensor(cfg, s, t, managed)
    case Pop(h) => PopTensor(s, h)
    case CommitForward => CommitForwardStep(cfg, s)
    case CommitBackward => CommitBackwardStep(cfg, s)
  }

  datatype RunResult = RunResult(state: State, outputs: seq<Output>)

  /** A whole run; it stops in an error as soon as one event does. */
  function Run(cfg: Config, s: State, events: seq<Event>): Result<RunResult>
    decreases |events|
  {
    if events == [] then Ok(RunResult(s, [])) else
    var first :- Step(cfg, s, events[0]);
    var rest :- Run(cfg, first.state, events[1..]);
    Ok(RunResult(rest.state, [first.output] + rest.outputs))
  }
}
