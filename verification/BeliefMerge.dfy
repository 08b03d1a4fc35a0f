/** The two belief merges as the programs run them: on the beliefs that an environment manager keeps by
    environment, and on the running belief of the fine-tuning data. */
module BeliefMerge {
  import opened Outcomes
  import opened BeliefModel

  /** The loop that appends new texts, with the set of those already there. */
  method AppendItems(list: seq<string>, blocked: set<string>, items: seq<Json>) returns (result: seq<string>)
    ensures result == AppendNew(list, blocked, items)
  {
    result := list;
    var existing := Elements(list);
    for k := 0 to |items|
      invariant result == AppendNew(list, blocked, items[..k])
      invariant existing == Elements(result)
    {
      assert items[..k + 1][..k] == items[..k] && items[..k + 1][k] == items[k];
      if Listable(items[k]) && items[k].text !in existing && items[k].text !in blocked {
        result := result + [items[k].text];
        existing := existing + {items[k].text};
      }
    }
    assert items[..|items|] == items;
  }

  /** Updates a dictionary with a given, non-empty one. */
  method Updated(m: map<string, Json>, f: Field<map<string, Json>>) returns (r: map<string, Json>)
    ensures r == m + Or(f, map[])
  {
    r := m;
    if f.Given? && f.value != map[] {
      r := m + f.value;
    }
  }

  method Filter(list: seq<string>, gone: set<string>) returns (result: seq<string>)
    ensures result == Without(list, gone)
  {
    result := [];
    for k := 0 to |list|
      invariant result == Without(list[..k], gone)
    {
      assert list[..k + 1][..k] == list[..k];
      if list[k] !in gone {
        result := result + [list[k]];
      }
    }
    assert list[..|list|] == list;
  }

  /** The belief kept for one household environment. */
  class AlfBelief {
    var objects: map<string, Json>
    var states: map<string, Json>
    var visited: seq<string>
    var unvisited: Option<seq<string>>
    var phase: string
    var target: string
    var subgoal: string

    constructor (s: AlfState)
      ensures Value() == s
    {
      objects, states, visited, unvisited := s.objects, s.states, s.visited, s.unvisited;
      phase, target, subgoal := s.phase, s.target, s.subgoal;
    }

    function Value(): AlfState
      reads this
    {
      AlfState(objects, states, visited, unvisited, phase, target, subgoal)
    }

    method MergeTask(belief: AlfNew)
      modifies `phase, `target, `subgoal
      ensures phase == LatestText(old(phase), belief.phase) && target == LatestText(old(target), belief.target)
      ensures subgoal == LatestText(old(subgoal), belief.subgoal)
    {
      if Listable(belief.phase) {
        phase := belief.phase.text;
      }
      if Listable(belief.target) {
        target := belief.target.text;
      }
      if Listable(belief.subgoal) {
        subgoal := belief.subgoal.text;
      }
    }

    method MergeCandidates(items: seq<Json>)
      modifies `unvisited
      ensures unvisited == Some(Candidates(old(unvisited), visited, items))
    {
      var listed := AppendItems(Listed(unvisited), Elements(visited), items);
      var left := Filter(listed, Elements(visited));
      unvisited := Some(left);
    }

    /** The merge of the environments. */
    method Update(belief: AlfNew)
      modifies this
      ensures Value() == AlfRl(old(Value()), belief)
    {
      var merged := Updated(objects, belief.objects);
      objects := merged;
      merged := Updated(states, belief.states);
      states := merged;
      if !belief.visited.NullField? {
        var listed := AppendItems(visited, {}, Or(belief.visited, []));
        visited := listed;
      }
      if !belief.unvisited.NullField? {
        MergeCandidates(Or(belief.unvisited, []));
      }
      MergeTask(belief);
    }
  }

  /** The beliefs of the household environments, by environment. */
  class AlfWorldEnvironmentManager {
    var cumulativeBeliefs: map<int, AlfBelief>

    constructor ()
      ensures cumulativeBeliefs == map[]
    {
      cumulativeBeliefs := map[];
    }

    /** No two environments share a belief. */
    ghost predicate Valid()
      reads this
    {
      forall i, j | i in cumulativeBeliefs && j in cumulativeBeliefs && i != j ::
        cumulativeBeliefs[i] != cumulativeBeliefs[j]
    }

    ghost function Beliefs(): set<AlfBelief>
      reads this
    {
      set i | i in cumulativeBeliefs :: cumulativeBeliefs[i]
    }

    ghost function ValueOf(envId: int): AlfState
      reads this, Beliefs()
    {
      if envId in cumulativeBeliefs then cumulativeBeliefs[envId].Value() else ALF_DEFAULT
    }

    /** Merges a belief into that of one environment, which is created when it is new; the others keep
        theirs. */
    method UpdateCumulativeBelief(envId: int, belief: AlfNew)
      requires Valid()
      modifies this, Beliefs()
      ensures Valid() && cumulativeBeliefs.Keys == old(cumulativeBeliefs.Keys) + {envId}
      ensures ValueOf(envId) == AlfRl(old(ValueOf(envId)), belief)
      ensures forall i | i in old(cumulativeBeliefs) && i != envId :: ValueOf(i) == old(ValueOf(i))
    {
      if envId !in cumulativeBeliefs {
        var created := new AlfBelief(ALF_DEFAULT);
        cumulativeBeliefs := cumulativeBeliefs[envId := created];
      }
      var cum := cumulativeBeliefs[envId];
      cum.Update(belief);
    }
  }

  /** The merge of the fine-tuning data. */
  method MergeAlfBelief(cum: AlfBelief, belief: AlfNew)
    modifies cum
    ensures cum.Value() == AlfSft(old(cum.Value()), belief)
  {
    cum.objects := cum.objects + Or(belief.objects, map[]);
    cum.states := cum.states + Or(belief.states, map[]);
    var visited := AppendItems(cum.visited, {}, Or(belief.visited, []));
    cum.visited := visited;
    cum.MergeCandidates(Or(belief.unvisited, []));
    cum.MergeTask(belief);
  }

  /** The belief kept for one shopping environment. */
  class WsBelief {
    var wanted: map<string, Json>
    var confirmed: map<string, Json>
    var unconfirmed: seq<string>
    var productId: Json
    var phase: Json
    var target: Json
    var subgoal: Json

    constructor (s: WsState)
      ensures Value() == s
    {
      wanted, confirmed, unconfirmed, productId := s.wanted, s.confirmed, s.unconfirmed, s.productId;
      phase, target, subgoal := s.phase, s.target, s.subgoal;
    }

    function Value(): WsState
      reads this
    {
      WsState(wanted, confirmed, unconfirmed, productId, phase, target, subgoal)
    }

    method MergeTask(belief: WsNew)
      modifies `phase, `target, `subgoal
      ensures phase == LatestValue(old(phase), belief.phase) && target == LatestValue(old(target), belief.target)
      ensures subgoal == LatestValue(old(subgoal), belief.subgoal)
    {
      if belief.phase != Null && Strip(Str(belief.phase)) != "" {
        phase := belief.phase;
      }
      if belief.target != Null && Strip(Str(belief.target)) != "" {
        target := belief.target;
      }
      if belief.subgoal != Null && Strip(Str(belief.subgoal)) != "" {
        subgoal := belief.subgoal;
      }
    }

    /** The merge of the environments. */
    method Update(belief: WsNew)
      modifies this
      ensures Value() == WsRl(old(Value()), belief)
    {
      var merged := Updated(wanted, belief.wanted);
      wanted := merged;
      merged := Updated(confirmed, belief.confirmed);
      confirmed := merged;
      if belief.confirmed.Given? && belief.confirmed.value != map[] {
        var left := Filter(unconfirmed, confirmed.Keys);
        unconfirmed := left;
      }
      if !belief.unconfirmed.NullField? {
        var listed := AppendItems(unconfirmed, confirmed.Keys, Or(belief.unconfirmed, []));
        unconfirmed := listed;
      }
      if Truthy(belief.productId) && belief.productId != Text("null") {
        productId := Text(Str(belief.productId));
      }
      MergeTask(belief);
    }
  }

  /** The beliefs of the shopping environments, by environment. */
  class WebshopEnvironmentManager {
    var cumulativeBeliefs: map<int, WsBelief>

    constructor (beliefs: map<int, WsBelief>)
      ensures cumulativeBeliefs == beliefs
    {
      cumulativeBeliefs := beliefs;
    }

    ghost predicate Valid()
      reads this
    {
      forall i, j | i in cumulativeBeliefs && j in cumulativeBeliefs && i != j ::
        cumulativeBeliefs[i] != cumulativeBeliefs[j]
    }

    ghost function Beliefs(): set<WsBelief>
      reads this
    {
      set i | i in cumulativeBeliefs :: cumulativeBeliefs[i]
    }

    ghost function ValueOf(envId: int): WsState
      requires envId in cumulativeBeliefs
      reads this, Beliefs()
    {
      cumulativeBeliefs[envId].Value()
    }

    /** Merges a belief into that of one environment; an environment without one is left without. */
    method UpdateCumulativeBelief(envId: int, belief: WsNew)
      requires Valid()
      modifies Beliefs()
      ensures envId in cumulativeBeliefs ==> ValueOf(envId) == WsRl(old(ValueOf(envId)), belief)
      ensures forall i | i in cumulativeBeliefs && i != envId :: ValueOf(i) == old(ValueOf(i))
    {
      if envId !in cumulativeBeliefs {
        return;
      }
      var cum := cumulativeBeliefs[envId];
      cum.Update(belief);
    }
  }

  /** The merge of the fine-tuning data. */
  method MergeWsBelief(cum: WsBelief, belief: WsNew)
    modifies cum
    ensures cum.Value() == WsSft(old(cum.Value()), belief)
  {
    cum.wanted := cum.wanted + Or(belief.wanted, map[]);
    cum.confirmed := cum.confirmed + Or(belief.confirmed, map[]);
    var left := Filter(cum.unconfirmed, cum.confirmed.Keys);
    cum.unconfirmed := left;
    var unconfirmed := AppendItems(cum.unconfirmed, cum.confirmed.Keys, Or(belief.unconfirmed, []));
    cum.unconfirmed := unconfirmed;
    if Truthy(belief.productId) && Strip(Str(belief.productId)) !in {"", "null", "None"} {
      cum.productId := Text(Strip(Str(belief.productId)));
    }
    cum.MergeTask(belief);
  }
}
