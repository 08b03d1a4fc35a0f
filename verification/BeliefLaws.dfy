/** Laws of the belief merges over whole episodes: what only grows, what the candidates are, and when
    the two implementations give the same prompt. */
module BeliefLaws {
  import opened Outcomes
  import opened BeliefModel

  // ----- lists

  /** The texts that a list of items mentions. */
  function Mentions(items: seq<Json>): set<string> {
    set i | 0 <= i < |items| && Listable(items[i]) :: items[i].text
  }

  ghost predicate NoDuplicates(list: seq<string>) {
    forall i, j | 0 <= i < j < |list| :: list[i] != list[j]
  }

  lemma MentionsLast(items: seq<Json>)
    requires items != []
    ensures var last := items[|items| - 1];
            Mentions(items) == Mentions(items[..|items| - 1]) + if Listable(last) then {last.text} else {}
  {
    var init, last := items[..|items| - 1], items[|items| - 1];
    forall x ensures x in Mentions(items) <==> x in Mentions(init) || (Listable(last) && x == last.text) {
      if x in Mentions(items) {
        var i :| 0 <= i < |items| && Listable(items[i]) && items[i].text == x;
        assert i < |init| ==> init[i] == items[i];
      }
      if x in Mentions(init) {
        var i :| 0 <= i < |init| && Listable(init[i]) && init[i].text == x;
        assert items[i] == init[i];
      }
    }
  }

  lemma ElementsAppend(list: seq<string>, x: string)
    ensures Elements(list + [x]) == Elements(list) + {x}
  {
  }

  /** Appending keeps what was there, and adds exactly the mentioned texts that are not blocked. */
  lemma {:induction false} AppendNewAdds(list: seq<string>, blocked: set<string>, items: seq<Json>)
    ensures list <= AppendNew(list, blocked, items)
    ensures Elements(AppendNew(list, blocked, items)) == Elements(list) + (Mentions(items) - blocked)
    ensures NoDuplicates(list) ==> NoDuplicates(AppendNew(list, blocked, items))
  {
    if items == [] {
    } else {
      var init, last := items[..|items| - 1], items[|items| - 1];
      AppendNewAdds(list, blocked, init);
      MentionsLast(items);
      var before := AppendNew(list, blocked, init);
      if Listable(last) {
        ElementsAppend(before, last.text);
        assert last.text in Elements(before) <==> last.text in before;
      }
    }
  }

  lemma {:induction false} WithoutIsDifference(list: seq<string>, gone: set<string>)
    ensures Elements(Without(list, gone)) == Elements(list) - gone
  {
    if list == [] {
    } else {
      var init, last := list[..|list| - 1], list[|list| - 1];
      WithoutIsDifference(init, gone);
      assert list == init + [last];
      ElementsAppend(init, last);
      if last in gone {
        assert Without(init, gone) + [] == Without(init, gone);
      } else {
        ElementsAppend(Without(init, gone), last);
      }
    }
  }

  lemma {:induction false} WithoutShorter(list: seq<string>, gone: set<string>)
    ensures |Without(list, gone)| <= |list|
  {
    if list == [] {
    } else {
      WithoutShorter(list[..|list| - 1], gone);
    }
  }

  lemma {:induction false} WithoutUnchanged(list: seq<string>, gone: set<string>)
    ensures Without(list, gone) == list <==> Elements(list) !! gone
  {
    if list == [] {
    } else {
      var init, last := list[..|list| - 1], list[|list| - 1];
      WithoutUnchanged(init, gone);
      WithoutShorter(init, gone);
      assert list == init + [last];
      ElementsAppend(init, last);
    }
  }

  /** The new texts come in the order of their first mention: what the first items append stays in front. */
  lemma {:induction false} AppendNewInOrder(list: seq<string>, blocked: set<string>, items: seq<Json>, k: nat)
    requires k <= |items|
    ensures AppendNew(list, blocked, items[..k]) <= AppendNew(list, blocked, items)
    decreases |items|
  {
    if k == |items| {
      assert items[..k] == items;
    } else {
      var init := items[..|items| - 1];
      assert init[..k] == items[..k];
      AppendNewInOrder(list, blocked, init, k);
    }
  }

  /** What is left of a list keeps its order. */
  lemma {:induction false} WithoutInOrder(list: seq<string>, gone: set<string>, k: nat)
    requires k <= |list|
    ensures Without(list[..k], gone) <= Without(list, gone)
    decreases |list|
  {
    if k == |list| {
      assert list[..k] == list;
    } else {
      var init := list[..|list| - 1];
      assert init[..k] == list[..k];
      WithoutInOrder(init, gone, k);
    }
  }

  lemma {:induction false} WithoutNoDuplicates(list: seq<string>, gone: set<string>)
    requires NoDuplicates(list)
    ensures NoDuplicates(Without(list, gone))
  {
    if list == [] {
    } else {
      var init, last := list[..|list| - 1], list[|list| - 1];
      WithoutNoDuplicates(init, gone);
      WithoutIsDifference(init, gone);
      assert forall k | 0 <= k < |init| :: init[k] == list[k] && list[k] != last;
      assert last in Elements(Without(init, gone)) <==> last in Without(init, gone);
    }
  }

  // ----- the latest value

  ghost predicate SaidLast<B, T>(beliefs: seq<B>, says: B -> Option<T>, final: T, k: int) {
    && 0 <= k < |beliefs| && says(beliefs[k]) == Some(final)
    && forall j | k < j < |beliefs| :: says(beliefs[j]).None?
  }

  /** The value is the last one said over an episode, or the first value when none was said. */
  ghost predicate Latest<B, T>(first: T, beliefs: seq<B>, says: B -> Option<T>, final: T) {
    || (final == first && forall k | 0 <= k < |beliefs| :: says(beliefs[k]).None?)
    || exists k :: SaidLast(beliefs, says, final, k)
  }

  /** One step more: what it says replaces the value, and saying nothing leaves it. */
  lemma LatestAfter<B, T>(first: T, beliefs: seq<B>, says: B -> Option<T>, before: T, final: T)
    requires beliefs != [] && Latest(first, beliefs[..|beliefs| - 1], says, before)
    requires final == match says(beliefs[|beliefs| - 1]) case Some(v) => v case None => before
    ensures Latest(first, beliefs, says, final)
  {
    var init, last := beliefs[..|beliefs| - 1], |beliefs| - 1;
    if says(beliefs[last]).Some? {
      assert SaidLast(beliefs, says, final, last);
    } else if k :| SaidLast(init, says, before, k) {
      assert forall j | k < j < last :: init[j] == beliefs[j];
      assert SaidLast(beliefs, says, final, k);
    } else {
      assert forall j | 0 <= j < last :: init[j] == beliefs[j];
    }
  }

  /** A text says something unless it is empty. */
  function Said(v: Json): Option<string> {
    if v == Null || v == Text("") || v.Other? then None else Some(v.text)
  }

  /** A dictionary says something of a key when it has it. */
  function SaidOf(f: Field<map<string, Json>>, key: string): Option<Option<Json>> {
    match f
    case Given(m) => if key in m then Some(Some(m[key])) else None
    case _ => None
  }

  function Entry(m: map<string, Json>, key: string): Option<Json> {
    if key in m then Some(m[key]) else None
  }

  // ----- household tasks

  /** The candidates after a merge: known or mentioned before, and not visited. */
  lemma CandidatesAre(unvisited: Option<seq<string>>, visited: seq<string>, items: seq<Json>)
    ensures Elements(Candidates(unvisited, visited, items))
            == (Elements(Listed(unvisited)) + Mentions(items)) - Elements(visited)
    ensures NoDuplicates(Listed(unvisited)) ==> NoDuplicates(Candidates(unvisited, visited, items))
  {
    var all := AppendNew(Listed(unvisited), Elements(visited), items);
    AppendNewAdds(Listed(unvisited), Elements(visited), items);
    WithoutIsDifference(all, Elements(visited));
    if NoDuplicates(all) {
      WithoutNoDuplicates(all, Elements(visited));
    }
  }

  ghost predicate WellTyped(belief: AlfNew) {
    !belief.unvisited.NullField?
  }

  /** A null list of candidates does no harm: there is a list, and nothing on it is visited. */
  ghost predicate NothingHidden(unvisited: Option<set<string>>, visited: set<string>) {
    unvisited.Some? && unvisited.value !! visited
  }

  function ElementsOf(unvisited: Option<seq<string>>): Option<set<string>> {
    match unvisited
    case None => None
    case Some(list) => Some(Elements(list))
  }

  /** One step gives the same belief in both merges, exactly unless a null list of candidates hides
      that a candidate was visited or that there is no list yet. */
  lemma AlfMergesAgree(cum: AlfState, belief: AlfNew)
    ensures AlfRl(cum, belief) == AlfSft(cum, belief)
            <==> WellTyped(belief)
                 || NothingHidden(ElementsOf(cum.unvisited), Elements(cum.visited) + Mentions(Or(belief.visited, [])))
  {
    AppendNewAdds(cum.visited, {}, Or(belief.visited, []));
    if belief.unvisited.NullField? && cum.unvisited.Some? {
      WithoutUnchanged(cum.unvisited.value, Elements(AlfRl(cum, belief).visited));
    }
  }

  /** A merge repeated over an episode. */
  function AlfRun(cum: AlfState, beliefs: seq<AlfNew>): AlfState {
    if beliefs == [] then cum else AlfRl(AlfRun(cum, beliefs[..|beliefs| - 1]), beliefs[|beliefs| - 1])
  }

  function AlfRunSft(cum: AlfState, beliefs: seq<AlfNew>): AlfState {
    if beliefs == [] then cum else AlfSft(AlfRunSft(cum, beliefs[..|beliefs| - 1]), beliefs[|beliefs| - 1])
  }

  /** Everything that an episode mentions as a candidate. */
  function AllCandidates(beliefs: seq<AlfNew>): set<string> {
    if beliefs == [] then {}
    else AllCandidates(beliefs[..|beliefs| - 1]) + Mentions(Or(beliefs[|beliefs| - 1].unvisited, []))
  }

  /** Everything that an episode mentions as visited. */
  function AllVisited(beliefs: seq<AlfNew>): set<string> {
    if beliefs == [] then {}
    else AllVisited(beliefs[..|beliefs| - 1]) + Mentions(Or(beliefs[|beliefs| - 1].visited, []))
  }

  /** The visited list only grows, has no duplicates, and is what was visited or mentioned as such. */
  lemma {:induction false} VisitedGrows(cum: AlfState, beliefs: seq<AlfNew>)
    ensures cum.visited <= AlfRun(cum, beliefs).visited
    ensures NoDuplicates(cum.visited) ==> NoDuplicates(AlfRun(cum, beliefs).visited)
    ensures Elements(AlfRun(cum, beliefs).visited) == Elements(cum.visited) + AllVisited(beliefs)
  {
    if beliefs == [] {
    } else {
      var last := beliefs[|beliefs| - 1];
      var before := AlfRun(cum, beliefs[..|beliefs| - 1]);
      VisitedGrows(cum, beliefs[..|beliefs| - 1]);
      AppendNewAdds(before.visited, {}, Or(last.visited, []));
    }
  }

  /** The candidates of an episode are all those known at first or mentioned at some step, without the
      places finally visited, each once. */
  lemma {:induction false} CandidatesOfEpisode(cum: AlfState, beliefs: seq<AlfNew>)
    requires beliefs != [] && forall b | b in beliefs :: WellTyped(b)
    ensures var final := AlfRun(cum, beliefs);
            final.unvisited.Some?
            && Elements(final.unvisited.value)
               == (Elements(Listed(cum.unvisited)) + AllCandidates(beliefs)) - Elements(final.visited)
            && (NoDuplicates(Listed(cum.unvisited)) ==> NoDuplicates(final.unvisited.value))
  {
    var init, last := beliefs[..|beliefs| - 1], beliefs[|beliefs| - 1];
    var before, final := AlfRun(cum, init), AlfRun(cum, beliefs);
    var items := Or(last.unvisited, []);
    assert last in beliefs && WellTyped(last);
    CandidatesAre(before.unvisited, final.visited, items);
    AppendNewAdds(before.visited, {}, Or(last.visited, []));
    if init == [] {
      assert AllCandidates(init) == {};
    } else {
      CandidatesOfEpisode(cum, init);
    }
  }

  /** The environments and the fine-tuning data show the same belief at every step of an episode. */
  lemma {:induction false} AlfPromptsAgree(cum: AlfState, beliefs: seq<AlfNew>)
    requires forall b | b in beliefs :: WellTyped(b)
    ensures AlfRun(cum, beliefs) == AlfRunSft(cum, beliefs)
  {
    if beliefs == [] {
    } else {
      var last := beliefs[|beliefs| - 1];
      AlfPromptsAgree(cum, beliefs[..|beliefs| - 1]);
      assert WellTyped(last);
      AlfMergesAgree(AlfRun(cum, beliefs[..|beliefs| - 1]), last);
    }
  }

  /** The candidates before a step: those known or mentioned so far and not yet visited. There is no
      list at first if none was known. */
  ghost function CandidatesSoFar(cum: AlfState, beliefs: seq<AlfNew>): Option<set<string>> {
    if beliefs == [] then ElementsOf(cum.unvisited)
    else
      Some((Elements(Listed(cum.unvisited)) + AllCandidates(beliefs)) - (Elements(cum.visited) + AllVisited(beliefs)))
  }

  /** At every step with a null list of candidates, there is a list and no place on it is visited. */
  ghost predicate NullsHarmless(cum: AlfState, beliefs: seq<AlfNew>) {
    beliefs == []
    || (var init, last := beliefs[..|beliefs| - 1], beliefs[|beliefs| - 1];
        && NullsHarmless(cum, init)
        && (WellTyped(last)
            || NothingHidden(CandidatesSoFar(cum, init),
                             Elements(cum.visited) + AllVisited(init) + Mentions(Or(last.visited, [])))))
  }

  /** The two merges show the same belief at every step of an episode. */
  ghost predicate AlfAlwaysSame(cum: AlfState, beliefs: seq<AlfNew>) {
    AlfRun(cum, beliefs) == AlfRunSft(cum, beliefs) && (beliefs == [] || AlfAlwaysSame(cum, beliefs[..|beliefs| - 1]))
  }

  lemma {:induction false} VisitedAlike(cum: AlfState, beliefs: seq<AlfNew>)
    ensures AlfRunSft(cum, beliefs).visited == AlfRun(cum, beliefs).visited
  {
    if beliefs == [] {
    } else {
      VisitedAlike(cum, beliefs[..|beliefs| - 1]);
    }
  }

  lemma OneStepMore(before: set<string>, known: set<string>, mentioned: set<string>, gone: set<string>,
                    items: set<string>, visited: set<string>)
    requires before == (known + mentioned) - gone || (before == known && mentioned == {})
    ensures (before + items) - (gone + visited) == (known + (mentioned + items)) - (gone + visited)
  {
  }

  lemma VisitedSoFar(cum: AlfState, beliefs: seq<AlfNew>)
    ensures Elements(AlfRunSft(cum, beliefs).visited) == Elements(cum.visited) + AllVisited(beliefs)
  {
    VisitedAlike(cum, beliefs);
    VisitedGrows(cum, beliefs);
  }

  lemma CandidatesAfter(cum: AlfState, beliefs: seq<AlfNew>)
    requires beliefs != []
    ensures var before := AlfRunSft(cum, beliefs[..|beliefs| - 1]);
            ElementsOf(AlfRunSft(cum, beliefs).unvisited)
            == Some((Elements(Listed(before.unvisited)) + Mentions(Or(beliefs[|beliefs| - 1].unvisited, [])))
                    - (Elements(cum.visited) + AllVisited(beliefs)))
  {
    var before, last := AlfRunSft(cum, beliefs[..|beliefs| - 1]), beliefs[|beliefs| - 1];
    CandidatesAre(before.unvisited, AlfRunSft(cum, beliefs).visited, Or(last.unvisited, []));
    VisitedSoFar(cum, beliefs);
  }

  lemma {:induction false} CandidatesOfSft(cum: AlfState, beliefs: seq<AlfNew>)
    ensures ElementsOf(AlfRunSft(cum, beliefs).unvisited) == CandidatesSoFar(cum, beliefs)
  {
    if beliefs == [] {
    } else {
      var init, last := beliefs[..|beliefs| - 1], beliefs[|beliefs| - 1];
      CandidatesOfSft(cum, init);
      CandidatesAfter(cum, beliefs);
      var visited := Mentions(Or(last.visited, []));
      var gone := Elements(cum.visited) + AllVisited(init);
      assert gone + visited == Elements(cum.visited) + AllVisited(beliefs);
      OneStepMore(Elements(Listed(AlfRunSft(cum, init).unvisited)), Elements(Listed(cum.unvisited)),
                  AllCandidates(init), gone, Mentions(Or(last.unvisited, [])), visited);
    }
  }

  /** The environments and the fine-tuning data show the same belief at every step exactly when null
      lists are harmless. */
  lemma {:induction false} AlfPromptsAgreeExactly(cum: AlfState, beliefs: seq<AlfNew>)
    ensures AlfAlwaysSame(cum, beliefs) <==> NullsHarmless(cum, beliefs)
  {
    if beliefs == [] {
    } else {
      var init, last := beliefs[..|beliefs| - 1], beliefs[|beliefs| - 1];
      AlfPromptsAgreeExactly(cum, init);
      if AlfAlwaysSame(cum, init) {
        CandidatesOfSft(cum, init);
        VisitedGrows(cum, init);
        AlfMergesAgree(AlfRun(cum, init), last);
      }
    }
  }

  // ----- the latest value, household tasks

  function SaysPhase(belief: AlfNew): Option<string> {
    Said(belief.phase)
  }

  function SaysTarget(belief: AlfNew): Option<string> {
    Said(belief.target)
  }

  function SaysSubgoal(belief: AlfNew): Option<string> {
    Said(belief.subgoal)
  }

  /** After an episode phase, target and subgoal are each the last non-empty text given. */
  lemma {:induction false} LatestTask(cum: AlfState, beliefs: seq<AlfNew>)
    ensures var final := AlfRun(cum, beliefs);
            && Latest(cum.phase, beliefs, SaysPhase, final.phase)
            && Latest(cum.target, beliefs, SaysTarget, final.target)
            && Latest(cum.subgoal, beliefs, SaysSubgoal, final.subgoal)
  {
    if beliefs == [] {
    } else {
      var init := beliefs[..|beliefs| - 1];
      var before, final := AlfRun(cum, init), AlfRun(cum, beliefs);
      LatestTask(cum, init);
      LatestAfter(cum.phase, beliefs, SaysPhase, before.phase, final.phase);
      LatestAfter(cum.target, beliefs, SaysTarget, before.target, final.target);
      LatestAfter(cum.subgoal, beliefs, SaysSubgoal, before.subgoal, final.subgoal);
    }
  }

  function SaysObject(key: string): AlfNew -> Option<Option<Json>> {
    (belief: AlfNew) => SaidOf(belief.objects, key)
  }

  function SaysState(key: string): AlfNew -> Option<Option<Json>> {
    (belief: AlfNew) => SaidOf(belief.states, key)
  }

  /** After an episode every object and every state has the last entry given for it, and no other is known. */
  lemma {:induction false} LatestEntries(cum: AlfState, beliefs: seq<AlfNew>, key: string)
    ensures var final := AlfRun(cum, beliefs);
            && Latest(Entry(cum.objects, key), beliefs, SaysObject(key), Entry(final.objects, key))
            && Latest(Entry(cum.states, key), beliefs, SaysState(key), Entry(final.states, key))
  {
    if beliefs == [] {
    } else {
      var init := beliefs[..|beliefs| - 1];
      var before, final := AlfRun(cum, init), AlfRun(cum, beliefs);
      LatestEntries(cum, init, key);
      LatestAfter(Entry(cum.objects, key), beliefs, SaysObject(key), Entry(before.objects, key),
                  Entry(final.objects, key));
      LatestAfter(Entry(cum.states, key), beliefs, SaysState(key), Entry(before.states, key),
                  Entry(final.states, key));
    }
  }

  // ----- shopping tasks

  /** Nothing confirmed is still unconfirmed. */
  ghost predicate Apart(cum: WsState) {
    Elements(cum.unconfirmed) !! cum.confirmed.Keys
  }

  lemma UnconfirmedAre(kept: seq<string>, confirmed: set<string>, items: seq<Json>)
    requires Elements(kept) !! confirmed
    ensures Elements(AppendNew(kept, confirmed, items)) !! confirmed
  {
    AppendNewAdds(kept, confirmed, items);
  }

  /** A step keeps confirmed and unconfirmed apart, and confirmed keys only grow. */
  lemma StaysApart(cum: WsState, belief: WsNew)
    requires Apart(cum)
    ensures Apart(WsRl(cum, belief)) && cum.confirmed.Keys <= WsRl(cum, belief).confirmed.Keys
  {
    var given := Or(belief.confirmed, map[]);
    var confirmed := cum.confirmed + given;
    WithoutIsDifference(cum.unconfirmed, confirmed.Keys);
    assert given == map[] ==> confirmed == cum.confirmed;
    var kept := if given != map[] then Without(cum.unconfirmed, confirmed.Keys) else cum.unconfirmed;
    UnconfirmedAre(kept, confirmed.Keys, Or(belief.unconfirmed, []));
  }

  function WsRun(cum: WsState, beliefs: seq<WsNew>): WsState {
    if beliefs == [] then cum else WsRl(WsRun(cum, beliefs[..|beliefs| - 1]), beliefs[|beliefs| - 1])
  }

  function WsRunSft(cum: WsState, beliefs: seq<WsNew>): WsState {
    if beliefs == [] then cum else WsSft(WsRunSft(cum, beliefs[..|beliefs| - 1]), beliefs[|beliefs| - 1])
  }

  /** Over an episode confirmed keys only grow and never meet the unconfirmed ones. */
  lemma {:induction false} ConfirmedGrows(cum: WsState, beliefs: seq<WsNew>)
    requires Apart(cum)
    ensures Apart(WsRun(cum, beliefs)) && cum.confirmed.Keys <= WsRun(cum, beliefs).confirmed.Keys
  {
    if beliefs == [] {
    } else {
      ConfirmedGrows(cum, beliefs[..|beliefs| - 1]);
      StaysApart(WsRun(cum, beliefs[..|beliefs| - 1]), beliefs[|beliefs| - 1]);
    }
  }

  /** A product id on which the two merges agree: no id, or one without blanks around it that is not a
      word for nothing. */
  predicate PlainPid(pid: Json) {
    !Truthy(pid) || pid == Text("null")
    || (Strip(Str(pid)) == Str(pid) && Str(pid) != "" && Str(pid) != "null" && Str(pid) != "None")
  }

  lemma StripNull()
    ensures Strip("null") == "null"
  {
  }

  /** Whatever product id was known, the two merges agree on the new one exactly when it is plain. */
  lemma PidsAgree(pid: Json)
    ensures (forall last :: PidRl(last, pid) == PidSft(last, pid)) <==> PlainPid(pid)
  {
    StripNull();
    if !PlainPid(pid) {
      assert PidRl(Null, pid) == Text(Str(pid));
      assert PidRl(Text("other" + Str(pid)), pid) != PidSft(Text("other" + Str(pid)), pid);
    }
  }

  /** One step gives the same belief in both merges, whatever product id was known, exactly when the
      new product id is plain. */
  lemma WsMergesAgree(cum: WsState, belief: WsNew)
    requires Apart(cum)
    ensures (forall last :: WsRl(cum.(productId := last), belief) == WsSft(cum.(productId := last), belief))
            <==> PlainPid(belief.productId)
  {
    var confirmed := cum.confirmed + Or(belief.confirmed, map[]);
    WithoutUnchanged(cum.unconfirmed, confirmed.Keys);
    assert Or(belief.confirmed, map[]) == map[] ==> confirmed == cum.confirmed;
    PidsAgree(belief.productId);
    forall last
      ensures WsRl(cum.(productId := last), belief) == WsSft(cum.(productId := last), belief)
              <==> PidRl(last, belief.productId) == PidSft(last, belief.productId)
    {
    }
  }

  /** The environments and the fine-tuning data show the same belief at every step of an episode whose
      product ids are plain. */
  lemma {:induction false} WsPromptsAgree(cum: WsState, beliefs: seq<WsNew>)
    requires Apart(cum) && forall b | b in beliefs :: PlainPid(b.productId)
    ensures WsRun(cum, beliefs) == WsRunSft(cum, beliefs)
  {
    if beliefs == [] {
    } else {
      var init, last := beliefs[..|beliefs| - 1], beliefs[|beliefs| - 1];
      WsPromptsAgree(cum, init);
      ConfirmedGrows(cum, init);
      var before := WsRun(cum, init);
      assert PlainPid(last.productId);
      WsMergesAgree(before, last);
      assert before == before.(productId := before.productId);
    }
  }

  /** With this id known, the two rules agree on the new one: it is plain, or it is a word for nothing
      that is known already. */
  predicate SamePid(known: Json, pid: Json) {
    PlainPid(pid) || (known == Text(Str(pid)) && Strip(Str(pid)) in {"", "null", "None"})
  }

  lemma PidsAgreeAt(known: Json, pid: Json)
    ensures PidRl(known, pid) == PidSft(known, pid) <==> SamePid(known, pid)
  {
    StripNull();
  }

  /** The id known after an episode. */
  function KnownPid(known: Json, beliefs: seq<WsNew>): Json {
    if beliefs == [] then known else PidRl(KnownPid(known, beliefs[..|beliefs| - 1]), beliefs[|beliefs| - 1].productId)
  }

  predicate PidsHarmless(known: Json, beliefs: seq<WsNew>) {
    beliefs == []
    || (var init := beliefs[..|beliefs| - 1];
        PidsHarmless(known, init) && SamePid(KnownPid(known, init), beliefs[|beliefs| - 1].productId))
  }

  /** The two merges show the same belief at every step of an episode. */
  ghost predicate WsAlwaysSame(cum: WsState, beliefs: seq<WsNew>) {
    WsRun(cum, beliefs) == WsRunSft(cum, beliefs) && (beliefs == [] || WsAlwaysSame(cum, beliefs[..|beliefs| - 1]))
  }

  lemma {:induction false} KnownIs(cum: WsState, beliefs: seq<WsNew>)
    ensures WsRun(cum, beliefs).productId == KnownPid(cum.productId, beliefs)
  {
    if beliefs == [] {
    } else {
      KnownIs(cum, beliefs[..|beliefs| - 1]);
    }
  }

  lemma WsStepAgrees(cum: WsState, belief: WsNew)
    requires Apart(cum)
    ensures WsRl(cum, belief) == WsSft(cum, belief) <==> SamePid(cum.productId, belief.productId)
  {
    var confirmed := cum.confirmed + Or(belief.confirmed, map[]);
    WithoutUnchanged(cum.unconfirmed, confirmed.Keys);
    assert Or(belief.confirmed, map[]) == map[] ==> confirmed == cum.confirmed;
    PidsAgreeAt(cum.productId, belief.productId);
  }

  /** The environments and the fine-tuning data show the same belief at every step exactly when every
      product id is plain or a known word for nothing. */
  lemma {:induction false} WsPromptsAgreeExactly(cum: WsState, beliefs: seq<WsNew>)
    requires Apart(cum)
    ensures WsAlwaysSame(cum, beliefs) <==> PidsHarmless(cum.productId, beliefs)
  {
    if beliefs == [] {
    } else {
      var init, last := beliefs[..|beliefs| - 1], beliefs[|beliefs| - 1];
      WsPromptsAgreeExactly(cum, init);
      ConfirmedGrows(cum, init);
      KnownIs(cum, init);
      WsStepAgrees(WsRun(cum, init), last);
    }
  }

  // ----- the latest value, shopping tasks

  /** Everything that an episode mentions as unconfirmed. */
  function AllUnconfirmed(beliefs: seq<WsNew>): set<string> {
    if beliefs == [] then {}
    else AllUnconfirmed(beliefs[..|beliefs| - 1]) + Mentions(Or(beliefs[|beliefs| - 1].unconfirmed, []))
  }

  lemma UnconfirmedAfter(cum: WsState, belief: WsNew)
    requires Apart(cum)
    ensures var after := WsRl(cum, belief);
            && Elements(after.unconfirmed)
               == (Elements(cum.unconfirmed) + Mentions(Or(belief.unconfirmed, []))) - after.confirmed.Keys
            && (NoDuplicates(cum.unconfirmed) ==> NoDuplicates(after.unconfirmed))
  {
    var given := Or(belief.confirmed, map[]);
    var confirmed := cum.confirmed + given;
    WithoutIsDifference(cum.unconfirmed, confirmed.Keys);
    assert given == map[] ==> confirmed == cum.confirmed;
    var kept := if given != map[] then Without(cum.unconfirmed, confirmed.Keys) else cum.unconfirmed;
    AppendNewAdds(kept, confirmed.Keys, Or(belief.unconfirmed, []));
    if NoDuplicates(cum.unconfirmed) {
      WithoutNoDuplicates(cum.unconfirmed, confirmed.Keys);
    }
  }

  /** The unconfirmed attributes of an episode are those known at first or mentioned at some step, without
      the finally confirmed ones, each once. */
  lemma {:induction false} UnconfirmedOfEpisode(cum: WsState, beliefs: seq<WsNew>)
    requires Apart(cum)
    ensures var final := WsRun(cum, beliefs);
            && Elements(final.unconfirmed)
               == (Elements(cum.unconfirmed) + AllUnconfirmed(beliefs)) - final.confirmed.Keys
            && (NoDuplicates(cum.unconfirmed) ==> NoDuplicates(final.unconfirmed))
  {
    if beliefs == [] {
    } else {
      var init, last := beliefs[..|beliefs| - 1], beliefs[|beliefs| - 1];
      UnconfirmedOfEpisode(cum, init);
      ConfirmedGrows(cum, init);
      StaysApart(WsRun(cum, init), last);
      UnconfirmedAfter(WsRun(cum, init), last);
    }
  }

  lemma {:induction false} StripLeftExactly(s: string)
    ensures StripLeft(s) == "" <==> forall i | 0 <= i < |s| :: IsSpace(s[i])
  {
    if s != "" && IsSpace(s[0]) {
      StripLeftExactly(s[1..]);
      assert forall i | 1 <= i < |s| :: s[i] == s[1..][i - 1];
    }
  }

  lemma {:induction false} StripRightEmpty(s: string)
    ensures StripRight(s) == "" <==> forall i | 0 <= i < |s| :: IsSpace(s[i])
  {
    if s != "" && IsSpace(s[|s| - 1]) {
      StripRightEmpty(s[..|s| - 1]);
    }
  }

  lemma {:induction false} StripLeftEnds(s: string)
    ensures StripLeft(s) == "" || !IsSpace(StripLeft(s)[0])
  {
    if s != "" && IsSpace(s[0]) {
      StripLeftEnds(s[1..]);
    }
  }

  /** A text is blank. */
  ghost predicate Blank(s: string) {
    forall i | 0 <= i < |s| :: s[i] in " \t\n\r"
  }

  /** Only a blank text is nothing without its blanks. */
  lemma StripExactly(s: string)
    ensures Strip(s) == "" <==> Blank(s)
  {
    StripLeftExactly(s);
    StripLeftEnds(s);
    StripRightEmpty(StripLeft(s));
  }

  /** A value says something unless it is null or blank. */
  ghost function SaidValue(v: Json): Option<Json> {
    if v == Null || Blank(Str(v)) then None else Some(v)
  }

  ghost function SaysWsPhase(belief: WsNew): Option<Json> {
    SaidValue(belief.phase)
  }

  ghost function SaysWsTarget(belief: WsNew): Option<Json> {
    SaidValue(belief.target)
  }

  ghost function SaysWsSubgoal(belief: WsNew): Option<Json> {
    SaidValue(belief.subgoal)
  }

  lemma LatestIsSaid(last: Json, val: Json)
    ensures LatestValue(last, val) == match SaidValue(val) case Some(v) => v case None => last
  {
    StripExactly(Str(val));
  }

  /** After an episode phase, target and subgoal are each the last value given that is neither null nor blank. */
  lemma {:induction false} LatestWsTask(cum: WsState, beliefs: seq<WsNew>)
    ensures var final := WsRun(cum, beliefs);
            && Latest(cum.phase, beliefs, SaysWsPhase, final.phase)
            && Latest(cum.target, beliefs, SaysWsTarget, final.target)
            && Latest(cum.subgoal, beliefs, SaysWsSubgoal, final.subgoal)
  {
    if beliefs == [] {
    } else {
      var init, last := beliefs[..|beliefs| - 1], beliefs[|beliefs| - 1];
      var before, final := WsRun(cum, init), WsRun(cum, beliefs);
      LatestWsTask(cum, init);
      LatestIsSaid(before.phase, last.phase);
      LatestAfter(cum.phase, beliefs, SaysWsPhase, before.phase, final.phase);
      LatestIsSaid(before.target, last.target);
      LatestAfter(cum.target, beliefs, SaysWsTarget, before.target, final.target);
      LatestIsSaid(before.subgoal, last.subgoal);
      LatestAfter(cum.subgoal, beliefs, SaysWsSubgoal, before.subgoal, final.subgoal);
    }
  }

  /** A product id says something unless it is null, empty, false or the text null. */
  function SaysPid(belief: WsNew): Option<Json> {
    match belief.productId
    case Null => None
    case Text(s) => if s == "" || s == "null" then None else Some(Text(s))
    case Other(r, holds) => if holds then Some(Text(r)) else None
  }

  /** After an episode the product id is the last true one given that is not the text null, as a text. */
  lemma {:induction false} LatestPid(cum: WsState, beliefs: seq<WsNew>)
    ensures Latest(cum.productId, beliefs, SaysPid, WsRun(cum, beliefs).productId)
  {
    if beliefs == [] {
    } else {
      var init := beliefs[..|beliefs| - 1];
      LatestPid(cum, init);
      LatestAfter(cum.productId, beliefs, SaysPid, WsRun(cum, init).productId, WsRun(cum, beliefs).productId);
    }
  }

  function SaysWanted(key: string): WsNew -> Option<Option<Json>> {
    (belief: WsNew) => SaidOf(belief.wanted, key)
  }

  function SaysConfirmed(key: string): WsNew -> Option<Option<Json>> {
    (belief: WsNew) => SaidOf(belief.confirmed, key)
  }

  /** After an episode every requirement and every confirmed attribute has the last entry given for it, and
      no other is known. */
  lemma {:induction false} LatestWsEntries(cum: WsState, beliefs: seq<WsNew>, key: string)
    ensures var final := WsRun(cum, beliefs);
            && Latest(Entry(cum.wanted, key), beliefs, SaysWanted(key), Entry(final.wanted, key))
            && Latest(Entry(cum.confirmed, key), beliefs, SaysConfirmed(key), Entry(final.confirmed, key))
  {
    if beliefs == [] {
    } else {
      var init := beliefs[..|beliefs| - 1];
      var before, final := WsRun(cum, init), WsRun(cum, beliefs);
      LatestWsEntries(cum, init, key);
      LatestAfter(Entry(cum.wanted, key), beliefs, SaysWanted(key), Entry(before.wanted, key),
                  Entry(final.wanted, key));
      LatestAfter(Entry(cum.confirmed, key), beliefs, SaysConfirmed(key), Entry(before.confirmed, key),
                  Entry(final.confirmed, key));
    }
  }
}
