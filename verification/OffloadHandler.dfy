/** The offload handler as an object whose methods update its maps and counters in place. Every
    method is tied to the matching transition of `OffloadModel`, so that the theorems of
    `OffloadRuns` about whole runs speak of this object. */
module OffloadHandler {
  import opened Outcomes
  import opened OffloadSchedule
  import opened OffloadModel
  import OffloadRuns

  ghost predicate Distinct(order: seq<Tag>) {
    order == [] || (order[0] !in order[1..] && Distinct(order[1..]))
  }

  /** The tag table after the bulk offload has visited `seen`. */
  function EvictSeen(slots: map<Tag, Slot>, seen: seq<Tag>, g: int): map<Tag, Slot> {
    map tag | tag in slots :: if tag in seen && tag.group == g then Evict(slots[tag]) else slots[tag]
  }

  lemma EvictSeenStep(slots: map<Tag, Slot>, seen: seq<Tag>, tag: Tag, g: int)
    requires tag in slots && tag !in seen
    ensures EvictSeen(slots, seen, g)[tag] == slots[tag]
    ensures EvictSeen(slots, seen + [tag], g)
            == if tag.group == g then EvictSeen(slots, seen, g)[tag := Evict(slots[tag])] else EvictSeen(slots, seen, g)
  {
  }

  lemma EvictSeenAll(slots: map<Tag, Slot>, order: seq<Tag>, g: int)
    requires OffloadRuns.OrderValid(order, slots)
    ensures EvictSeen(slots, order, g) == EvictGroup(slots, g)
  {
  }

  lemma HostCopiesStep(seen: seq<Tag>, slots: map<Tag, Slot>, g: int, tag: Tag)
    requires tag in slots
    ensures var copies := HostCopies(seen, slots, g);
            HostCopies(seen + [tag], slots, g)
            == if tag.group == g && slots[tag].OnDevice? && slots[tag].tensor.key !in copies
               then copies[slots[tag].tensor.key := slots[tag].tensor.data] else copies
  {
    assert (seen + [tag])[..|seen|] == seen;
  }

  /** The tag table after the bulk reload has visited `seen`. */
  function RecoverSeen(slots: map<Tag, Slot>, seen: seq<Tag>, g: int, copies: map<Key, seq<int>>): map<Tag, Slot> {
    map tag | tag in slots ::
      if tag in seen && tag.group == g && Recoverable(slots[tag], copies) then Recover(slots[tag], copies)
      else slots[tag]
  }

  lemma RecoverSeenStep(slots: map<Tag, Slot>, seen: seq<Tag>, tag: Tag, g: int, copies: map<Key, seq<int>>)
    requires tag in slots && tag !in seen
    ensures var before := RecoverSeen(slots, seen, g, copies);
            before[tag] == slots[tag]
            && RecoverSeen(slots, seen + [tag], g, copies)
               == if tag.group == g && Recoverable(slots[tag], copies) then before[tag := Recover(slots[tag], copies)]
                  else before
  {
  }

  lemma {:induction false} WithoutKeepsDistinct(order: seq<Tag>, tag: Tag)
    requires Distinct(order)
    ensures Distinct(Without(order, tag))
  {
    if order == [] {
    } else {
      var first, tail := order[0], order[1..];
      WithoutKeepsDistinct(tail, tag);
      OffloadRuns.WithoutKeepsOthers(tail, tag);
      if first != tag {
        assert Without(order, tag)[1..] == Without(tail, tag);
      } else {
        assert Without(order, tag) == Without(tail, tag);
      }
    }
  }

  lemma {:induction false} AppendKeepsDistinct(order: seq<Tag>, tag: Tag)
    requires Distinct(order) && tag !in order
    ensures Distinct(order + [tag])
  {
    if order == [] {
    } else {
      assert (order + [tag])[1..] == order[1..] + [tag];
      AppendKeepsDistinct(order[1..], tag);
    }
  }

  /** In a list without repetitions no entry occurs earlier. */
  lemma {:induction false} NotSeenBefore(order: seq<Tag>, i: nat)
    requires Distinct(order) && i < |order|
    ensures order[i] !in order[..i]
  {
    if i == 0 {
    } else {
      NotSeenBefore(order[1..], i - 1);
      assert order[..i] == [order[0]] + order[1..][..i - 1];
    }
  }

  class AsyncDoubleBufferGroupOffloadHandler {
    const numOffloadGroup: nat
    const numLayers: nat
    const needsOffloading: Tensor -> bool

    var currentGroup: int
    var tensorCountCurrentGroup: int
    var tagOrder: seq<Tag>
    var tagToState: map<Tag, Slot>
    var tagToBuf: map<Tag, Option<Tensor>>
    var offloadedGroupCount: int
    var layerWindowMap: Windows
    var groupOffloadMapping: map<int, map<Key, seq<int>>>

    ghost function Snapshot(): State
      reads this
    {
      State(currentGroup, tensorCountCurrentGroup, tagOrder, tagToState, tagToBuf, offloadedGroupCount,
            groupOffloadMapping)
    }

    ghost function Settings(): Config
      reads this
    {
      Config(numLayers, numOffloadGroup, layerWindowMap)
    }

    /** The tag table is iterated in `tagOrder`, which lists each of its tags once. */
    ghost predicate Valid()
      reads this
    {
      && OffloadRuns.OrderValid(tagOrder, tagToState)
      && Distinct(tagOrder)
    }

    constructor (numOffloadGroup: nat, numModelGroup: nat, needsOffloading: Tensor -> bool)
      ensures Valid() && Snapshot() == INITIAL
      ensures this.needsOffloading == needsOffloading
      ensures Settings() == Config(numModelGroup, numOffloadGroup, layerWindowMap)
      ensures forall i :: i in layerWindowMap <==> 0 <= i < numOffloadGroup
      ensures forall i | 0 <= i < numOffloadGroup :: layerWindowMap[i] == Window(numModelGroup, numOffloadGroup, i)
      ensures 1 <= numOffloadGroup <= numModelGroup ==> OffloadRuns.Good(Settings())
    {
      this.numOffloadGroup := numOffloadGroup;
      this.numLayers := numModelGroup;
      this.needsOffloading := needsOffloading;
      currentGroup, tensorCountCurrentGroup := 0, 0;
      tagOrder, tagToState, tagToBuf := [], map[], map[];
      offloadedGroupCount := 0;
      layerWindowMap := map[];
      groupOffloadMapping := map[];
      new;
      layerWindowMap := BuildWindows(numModelGroup, numOffloadGroup);
    }

    /** `stray` says that the tensor is one of the tracing kinds that are never managed. */
    method TensorPush(tensor: Tensor, stray: bool) returns (r: Result<Handle>)
      requires Valid()
      modifies this
      ensures Settings() == old(Settings())
      ensures var step := PushTensor(Settings(), old(Snapshot()), tensor, !stray && needsOffloading(tensor));
              && (r.Ok? <==> step.Ok?)
              && (r.Ok? ==> Valid() && Snapshot() == step.value.state && Pushed(r.value) == step.value.output)
    {
      if stray || !needsOffloading(tensor) {
        return Ok(Unmanaged(tensor));
      }
      var tag := Tag(currentGroup, tensorCountCurrentGroup);
      tensorCountCurrentGroup := tensorCountCurrentGroup + 1;
      if tag in tagToState {
        return Err;
      }
      tagToState := tagToState[tag := OnDevice(tensor)];
      AppendKeepsDistinct(tagOrder, tag);
      tagOrder := tagOrder + [tag];
      if currentGroup < numOffloadGroup {
        tagToBuf := tagToBuf[tag := Some(tensor)];
      }
      return Ok(Managed(tag));
    }

    method TensorPop(handle: Handle) returns (r: Result<Tensor>)
      requires Valid()
      modifies this
      ensures Settings() == old(Settings())
      ensures var step := PopTensor(old(Snapshot()), handle);
              && (r.Ok? <==> step.Ok?)
              && (r.Ok? ==> Valid() && Snapshot() == step.value.state && Popped(r.value) == step.value.output)
    {
      if handle.Unmanaged? {
        return Ok(handle.tensor);
      }
      var tag := handle.tag;
      if tag !in tagToState {
        return Err;
      }
      var slot := tagToState[tag];
      WithoutKeepsDistinct(tagOrder, tag);
      OffloadRuns.WithoutKeepsOthers(tagOrder, tag);
      tagToState := tagToState - {tag};
      tagOrder := Without(tagOrder, tag);
      tagToBuf := tagToBuf - {tag};
      if slot.OnHost? {
        return Err;
      }
      return Ok(slot.tensor);
    }

    method BulkOffloadGroup(group: int) returns (ok: bool)
      requires Valid()
      modifies this`tagToState, this`groupOffloadMapping
      ensures var next := BulkOffload(old(Snapshot()), group);
              && (ok <==> next.Ok?)
              && (ok ==> Valid() && Snapshot() == next.value)
    {
      ghost var slots := tagToState;
      var items := tagOrder;
      var copies: map<Key, seq<int>> := map[];
      for i := 0 to |items|
        invariant groupOffloadMapping == old(groupOffloadMapping)
        invariant tagToState == EvictSeen(slots, items[..i], group)
        invariant forall tag | tag in items[..i] && tag.group == group :: slots[tag].OnDevice?
        invariant copies == HostCopies(items[..i], slots, group)
      {
        var tag := items[i];
        NotSeenBefore(items, i);
        assert items[..i + 1] == items[..i] + [tag];
        EvictSeenStep(slots, items[..i], tag, group);
        HostCopiesStep(items[..i], slots, group, tag);
        if tag.group == group {
          var slot := tagToState[tag];
          if slot.OnHost? {
            return false;
          }
          if slot.tensor.key !in copies {
            copies := copies[slot.tensor.key := slot.tensor.data];
          }
          tagToState := tagToState[tag := OnHost(slot.tensor.key, slot.tensor.shape)];
        }
      }
      assert items[..|items|] == items;
      EvictSeenAll(slots, items, group);
      groupOffloadMapping := groupOffloadMapping[group := copies];
      return true;
    }

    method BulkReloadGroup(group: int) returns (ok: bool)
      requires Valid()
      modifies this`tagToState, this`groupOffloadMapping
      ensures var next := BulkReload(Settings(), old(Snapshot()), group);
              && (ok <==> next.Ok?)
              && (ok ==> Valid() && Snapshot() == next.value)
    {
      if group >= numOffloadGroup || group !in groupOffloadMapping {
        return false;
      }
      ghost var slots := tagToState;
      var items := tagOrder;
      var copies := groupOffloadMapping[group];
      groupOffloadMapping := groupOffloadMapping - {group};
      for i := 0 to |items|
        invariant groupOffloadMapping == old(groupOffloadMapping) - {group}
        invariant forall tag | tag in items[..i] && tag.group == group :: Recoverable(slots[tag], copies)
        invariant tagToState == RecoverSeen(slots, items[..i], group, copies)
      {
        var tag := items[i];
        NotSeenBefore(items, i);
        assert items[..i + 1] == items[..i] + [tag];
        RecoverSeenStep(slots, items[..i], tag, group, copies);
        if tag.group == group && tagToState[tag].OnHost? {
          var slot := tagToState[tag];
          if slot.key !in copies || |copies[slot.key]| != Numel(slot.shape) {
            assert !Recoverable(slots[tag], copies);
            return false;
          }
          tagToState := tagToState[tag := OnDevice(Tensor(slot.key, slot.shape, copies[slot.key]))];
        }
      }
      assert items[..|items|] == items;
      return true;
    }

    /** Drops the double-buffer references to one group. */
    method ForgetBuffers(group: int)
      modifies this`tagToBuf
      ensures tagToBuf == ClearBuffers(old(tagToBuf), group)
    {
      var todo := tagToBuf.Keys;
      while todo != {}
        invariant todo <= tagToBuf.Keys == old(tagToBuf).Keys
        invariant forall tag | tag in tagToBuf ::
                    tagToBuf[tag] == if tag !in todo && tag.group == group then None else old(tagToBuf)[tag]
      {
        var tag :| tag in todo;
        if tag.group == group {
          tagToBuf := tagToBuf[tag := None];
        }
        todo := todo - {tag};
      }
    }

    /** Closes the open window: its group is dropped from the double buffer and the next one starts to leave. */
    method FinishWindow() returns (ok: bool)
      requires Valid()
      modifies this`tagToBuf, this`tagToState, this`groupOffloadMapping, this`offloadedGroupCount
      ensures var step := CloseWindow(Settings(), old(Snapshot()));
              && (ok <==> step.Ok?)
              && (ok ==> Valid() && Snapshot() == step.value.state)
    {
      ForgetBuffers(offloadedGroupCount);
      if offloadedGroupCount < numOffloadGroup - 1 {
        var started := BulkOffloadGroup(offloadedGroupCount + 1);
        if !started {
          return false;
        }
      }
      offloadedGroupCount := offloadedGroupCount + 1;
      return true;
    }

    method OnGroupCommitForward() returns (ok: bool)
      requires Valid()
      modifies this
      ensures Settings() == old(Settings())
      ensures var step := CommitForwardStep(Settings(), old(Snapshot()));
              && (ok <==> step.Ok?)
              && (ok ==> Valid() && Snapshot() == step.value.state)
    {
      if currentGroup == 0 {
        var started := BulkOffloadGroup(currentGroup);
        if !started {
          return false;
        }
      }
      if offloadedGroupCount !in layerWindowMap {
        return false;
      }
      if layerWindowMap[offloadedGroupCount] == currentGroup {
        var closed := FinishWindow();
        if !closed {
          return false;
        }
      }
      currentGroup := currentGroup + 1;
      tensorCountCurrentGroup := 0;
      return true;
    }

    method OnGroupCommitBackward() returns (ok: bool)
      requires Valid()
      modifies this
      ensures Settings() == old(Settings())
      ensures var step := CommitBackwardStep(Settings(), old(Snapshot()));
              && (ok <==> step.Ok?)
              && (ok ==> Valid() && Snapshot() == step.value.state)
    {
      currentGroup := currentGroup - 1;
      if currentGroup < 0 || offloadedGroupCount - 1 !in layerWindowMap {
        return false;
      }
      if layerWindowMap[offloadedGroupCount - 1] == currentGroup {
        var restored := BulkReloadGroup(offloadedGroupCount - 1);
        if !restored {
          return false;
        }
        offloadedGroupCount := offloadedGroupCount - (if offloadedGroupCount > 1 then 1 else 0);
      }
      if currentGroup == 0 {
        offloadedGroupCount := 0;
      }
      return true;
    }
  }
}
