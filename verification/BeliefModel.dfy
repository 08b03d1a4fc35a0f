/** Cumulative beliefs: what one parsed belief of the model adds to the belief kept for the prompt. The
    merge is written twice, for the environments and for the fine-tuning data. */
module BeliefModel {
  import opened Outcomes

  /** A JSON value, as far as the merges look at it: null, a text, or anything else with its rendering
      and its truth value. */
  datatype Json = Null | Text(text: string) | Other(rendered: string, holds: bool)

  /** A field of the new belief: missing, null, or of its expected type. */
  datatype Field<T> = Absent | NullField | Given(value: T)

  function Or<T>(f: Field<T>, default: T): T {
    if f.Given? then f.value else default
  }

  /** `str(v)`. */
  function Str(v: Json): string {
    match v
    case Null => "None"
    case Text(s) => s
    case Other(r, _) => r
  }

  predicate Truthy(v: Json) {
    match v
    case Null => false
    case Text(s) => s != ""
    case Other(_, b) => b
  }

  predicate IsSpace(c: char) {
    c in " \t\n\r"
  }

  function StripLeft(s: string): string {
    if s != "" && IsSpace(s[0]) then StripLeft(s[1..]) else s
  }

  function StripRight(s: string): string {
    if s != "" && IsSpace(s[|s| - 1]) then StripRight(s[..|s| - 1]) else s
  }

  /** `s.strip()`. */
  function Strip(s: string): string {
    StripRight(StripLeft(s))
  }

  // ----- lists without duplicates

  /** The item is a text that may be listed. */
  predicate Listable(item: Json) {
    item.Text? && item.text != ""
  }

  /** The list with the new texts among the items appended, each once and none that is blocked. */
  function AppendNew(list: seq<string>, blocked: set<string>, items: seq<Json>): seq<string> {
    if items == [] then list
    else
      var before, item := AppendNew(list, blocked, items[..|items| - 1]), items[|items| - 1];
      if Listable(item) && item.text !in before && item.text !in blocked then before + [item.text] else before
  }

  /** The list without the entries of a set. */
  function Without(list: seq<string>, gone: set<string>): seq<string> {
    if list == [] then []
    else Without(list[..|list| - 1], gone) + if list[|list| - 1] in gone then [] else [list[|list| - 1]]
  }

  function Elements(list: seq<string>): set<string> {
    set x | x in list
  }

  // ----- household tasks

  datatype AlfState = AlfState(objects: map<string, Json>, states: map<string, Json>, visited: seq<string>,
                               unvisited: Option<seq<string>>, phase: string, target: string, subgoal: string)

  datatype AlfNew = AlfNew(objects: Field<map<string, Json>>, states: Field<map<string, Json>>,
                           visited: Field<seq<Json>>, unvisited: Field<seq<Json>>,
                           phase: Json, target: Json, subgoal: Json)

  const ALF_DEFAULT := AlfState(map[], map[], [], None, "find", "", "")

  function Listed(unvisited: Option<seq<string>>): seq<string> {
    if unvisited.Some? then unvisited.value else []
  }

  /** The latest non-empty text. */
  function LatestText(last: string, val: Json): string {
    if Listable(val) then val.text else last
  }

  /** New candidates are added, visited ones removed. */
  function Candidates(unvisited: Option<seq<string>>, visited: seq<string>, items: seq<Json>): seq<string> {
    Without(AppendNew(Listed(unvisited), Elements(visited), items), Elements(visited))
  }

  /** The merge of the environments: a null list of candidates leaves the candidates alone. */
  function AlfRl(cum: AlfState, belief: AlfNew): AlfState {
    var visited := AppendNew(cum.visited, {}, Or(belief.visited, []));
    AlfState(cum.objects + Or(belief.objects, map[]), cum.states + Or(belief.states, map[]), visited,
             if belief.unvisited.NullField? then cum.unvisited
             else Some(Candidates(cum.unvisited, visited, Or(belief.unvisited, []))),
             LatestText(cum.phase, belief.phase), LatestText(cum.target, belief.target),
             LatestText(cum.subgoal, belief.subgoal))
  }

  /** The merge of the fine-tuning data: the candidates are always brought up to date. */
  function AlfSft(cum: AlfState, belief: AlfNew): AlfState {
    var visited := AppendNew(cum.visited, {}, Or(belief.visited, []));
    AlfState(cum.objects + Or(belief.objects, map[]), cum.states + Or(belief.states, map[]), visited,
             Some(Candidates(cum.unvisited, visited, Or(belief.unvisited, []))),
             LatestText(cum.phase, belief.phase), LatestText(cum.target, belief.target),
             LatestText(cum.subgoal, belief.subgoal))
  }

  // ----- shopping tasks

  datatype WsState = WsState(wanted: map<string, Json>, confirmed: map<string, Json>, unconfirmed: seq<string>,
                             productId: Json, phase: Json, target: Json, subgoal: Json)

  datatype WsNew = WsNew(wanted: Field<map<string, Json>>, confirmed: Field<map<string, Json>>,
                         unconfirmed: Field<seq<Json>>, productId: Json, phase: Json, target: Json, subgoal: Json)

  /** The latest value that is not null and not blank. */
  function LatestValue(last: Json, val: Json): Json {
    if val != Null && Strip(Str(val)) != "" then val else last
  }

  /** The product id of the environments: any true value but the text null. */
  function PidRl(last: Json, pid: Json): Json {
    if Truthy(pid) && pid != Text("null") then Text(Str(pid)) else last
  }

  /** The product id of the fine-tuning data: stripped, and none of the words for nothing. */
  function PidSft(last: Json, pid: Json): Json {
    if Truthy(pid) && Strip(Str(pid)) !in {"", "null", "None"} then Text(Strip(Str(pid))) else last
  }

  function WsRl(cum: WsState, belief: WsNew): WsState {
    var given := Or(belief.confirmed, map[]);
    var confirmed := cum.confirmed + given;
    var kept := if given != map[] then Without(cum.unconfirmed, confirmed.Keys) else cum.unconfirmed;
    WsState(cum.wanted + Or(belief.wanted, map[]), confirmed,
            AppendNew(kept, confirmed.Keys, Or(belief.unconfirmed, [])),
            PidRl(cum.productId, belief.productId), LatestValue(cum.phase, belief.phase),
            LatestValue(cum.target, belief.target), LatestValue(cum.subgoal, belief.subgoal))
  }

  function WsSft(cum: WsState, belief: WsNew): WsState {
    var confirmed := cum.confirmed + Or(belief.confirmed, map[]);
    WsState(cum.wanted + Or(belief.wanted, map[]), confirmed,
            AppendNew(Without(cum.unconfirmed, confirmed.Keys), confirmed.Keys, Or(belief.unconfirmed, [])),
            PidSft(cum.productId, belief.productId), LatestValue(cum.phase, belief.phase),
            LatestValue(cum.target, belief.target), LatestValue(cum.subgoal, belief.subgoal))
  }
}
