// The scenario manager of the tuning tool: which parsed values count as scenarios, what
// an import adds to the list, duplicating and deleting a scenario, the filtered and
// sorted list that is shown, and the per-scenario counts.

module ScenarioManager {
  import opened Wrappers
  import opened JsStrings
  import opened Sorting
  import opened JsonValues

  /** `validateScenario`: the `&&` chain is truthy. */
  predicate ValidScenario(s: Json) {
    var gs := Get(s, "gameState");
    Truthy(s) && Truthy(Get(s, "name")) && Truthy(gs)
    && Truthy(Get(gs, "players")) && Get(gs, "players").JArr?
    && Truthy(Get(gs, "gameHistory")) && Get(gs, "gameHistory").JArr?
  }

  lemma KeysAreNames()
    ensures !AllDigits("name") && !AllDigits("gameState") && !AllDigits("players")
  {
    assert !IsDigit("name"[0]) && !IsDigit("gameState"[0]) && !IsDigit("players"[0]);
  }

  /** A scenario is an object with a truthy name and a `gameState` object holding a
      `players` array and a `gameHistory` array. */
  lemma ValidShape(s: Json)
    ensures ValidScenario(s) <==>
      s.JObj? && Truthy(Get(s, "name")) && Get(s, "gameState").JObj?
      && Get(Get(s, "gameState"), "players").JArr? && Get(Get(s, "gameState"), "gameHistory").JArr?
  {
    KeysAreNames();
    var gs := Get(s, "gameState");
    if !s.JObj? {
      NamedKey(s, "name");
    }
    if !gs.JObj? {
      NamedKey(gs, "players");
    }
  }

  /** `items.filter(validateScenario)` */
  function ValidOnes(items: seq<Json>): (r: seq<Json>)
    ensures |r| <= |items|
    ensures forall x :: x in r <==> x in items && ValidScenario(x)
  {
    if items == [] then []
    else (if ValidScenario(items[0]) then [items[0]] else []) + ValidOnes(items[1..])
  }

  /** The filter distributes over concatenation, so the valid entries keep their order
      and their repeats. */
  lemma {:induction false} ValidOnesAppend(a: seq<Json>, b: seq<Json>)
    ensures ValidOnes(a + b) == ValidOnes(a) + ValidOnes(b)
  {
    if a == [] {
      assert a + b == b;
    } else {
      assert (a + b)[1..] == a[1..] + b;
      ValidOnesAppend(a[1..], b);
    }
  }

  /** The filter keeps a list whose every entry is valid as it is. */
  lemma {:induction false} ValidOnesKeepsValid(items: seq<Json>)
    requires forall x :: x in items ==> ValidScenario(x)
    ensures ValidOnes(items) == items
  {
    if items != [] {
      ValidOnesKeepsValid(items[1..]);
    }
  }

  /** `importScenarios` after reading the file: `None` is a parse failure. An array
      contributes its valid entries, a single valid scenario itself. */
  function Import(scenarios: seq<Json>, imported: Option<Json>): seq<Json> {
    match imported
    case None => scenarios
    case Some(JArr(items)) => scenarios + ValidOnes(items)
    case Some(v) => if ValidScenario(v) then scenarios + [v] else scenarios
  }

  /** Importing only appends: valid array entries in order, or one valid scenario; the
      list is unchanged by anything else, and every added entry is valid. */
  lemma ImportRule(scenarios: seq<Json>, imported: Option<Json>)
    ensures |Import(scenarios, imported)| >= |scenarios|
    ensures Import(scenarios, imported)[..|scenarios|] == scenarios
    ensures forall x :: x in Import(scenarios, imported)[|scenarios|..] ==> ValidScenario(x)
    ensures imported.Some? && imported.value.JArr? ==>
      Import(scenarios, imported) == scenarios + ValidOnes(imported.value.items)
    ensures imported.Some? && ValidScenario(imported.value) ==>
      Import(scenarios, imported) == scenarios + [imported.value]
    ensures imported.None? || (!imported.value.JArr? && !ValidScenario(imported.value)) ==>
      Import(scenarios, imported) == scenarios
  {
    var r := Import(scenarios, imported);
    assert r[..|scenarios|] == scenarios;
    if imported.Some? {
      ValidShape(imported.value);
      if imported.value.JArr? {
        assert r[|scenarios|..] == ValidOnes(imported.value.items);
      } else if ValidScenario(imported.value) {
        assert r[|scenarios|..] == [imported.value];
      }
    }
  }

  const COPY_SUFFIX := " (副本)"
  const COPY_NOTE := " - 从原场景复制"

  /** The copy `duplicateScenario` makes, with `now` for `Date.now()`. */
  function Copy(scenario: Json, now: int): Json {
    JObj(Spread(scenario)
      ["id" := JNum(now)]
      ["name" := JStr(Text(Get(scenario, "name")) + COPY_SUFFIX)]
      ["description" := JStr(Text(Get(scenario, "description")) + COPY_NOTE)])
  }

  function Duplicate(scenarios: seq<Json>, scenario: Json, now: int): seq<Json> {
    scenarios + [Copy(scenario, now)]
  }

  /** Duplicating appends one copy: a new id, the name and the description with their
      suffixes, every other field of the original; the existing entries are untouched. */
  lemma DuplicateRule(scenarios: seq<Json>, scenario: Json, now: int)
    requires scenario.JObj?
    ensures |Duplicate(scenarios, scenario, now)| == |scenarios| + 1
    ensures Duplicate(scenarios, scenario, now)[..|scenarios|] == scenarios
    ensures var c := Duplicate(scenarios, scenario, now)[|scenarios|];
      Get(c, "id") == JNum(now)
      && Get(c, "name") == JStr(Text(Get(scenario, "name")) + COPY_SUFFIX)
      && Get(c, "description") == JStr(Text(Get(scenario, "description")) + COPY_NOTE)
      && forall k :: k != "id" && k != "name" && k != "description" ==> Get(c, k) == Get(scenario, k)
  {
    assert Duplicate(scenarios, scenario, now)[..|scenarios|] == scenarios;
  }

  /** The scenarios other than those with id `id`, in order. */
  function WithoutId(scenarios: seq<Json>, id: Json): (r: seq<Json>)
    ensures |r| <= |scenarios|
    ensures forall x :: x in r <==> x in scenarios && Get(x, "id") != id
  {
    if scenarios == [] then []
    else (if Get(scenarios[0], "id") != id then [scenarios[0]] else []) + WithoutId(scenarios[1..], id)
  }

  /** The filter distributes over concatenation, so the kept scenarios keep their order
      and their repeats. */
  lemma {:induction false} WithoutIdAppend(a: seq<Json>, b: seq<Json>, id: Json)
    ensures WithoutId(a + b, id) == WithoutId(a, id) + WithoutId(b, id)
  {
    if a == [] {
      assert a + b == b;
    } else {
      assert (a + b)[1..] == a[1..] + b;
      WithoutIdAppend(a[1..], b, id);
    }
  }

  /** `currentScenario?.id` */
  function CurrentId(current: Json): Json {
    if Nullish(current) then JUndefined else Get(current, "id")
  }

  /** The tool state the manager reads and sets. */
  datatype Selection = Selection(scenarios: seq<Json>, current: Json, editing: Json)

  /** `deleteScenario(id)` */
  function Delete(sel: Selection, id: Json): Selection {
    var rest := WithoutId(sel.scenarios, id);
    if CurrentId(sel.current) == id then Selection(rest, JNull, JNull)
    else sel.(scenarios := rest)
  }

  /** Deleting removes every scenario with that id and keeps the others; the current and
      the edited scenario are cleared exactly when the current one had that id. */
  lemma DeleteRule(sel: Selection, id: Json)
    ensures forall x :: x in Delete(sel, id).scenarios <==> x in sel.scenarios && Get(x, "id") != id
    ensures CurrentId(sel.current) == id ==> Delete(sel, id).current == JNull && Delete(sel, id).editing == JNull
    ensures CurrentId(sel.current) != id ==>
      Delete(sel, id).current == sel.current && Delete(sel, id).editing == sel.editing
  {
  }

  /** The search test on one scenario: `name.toLowerCase().includes(f)` and, only when
      that fails, the same on the description. `None` is a throw: a name or a needed
      description that is not a string has no `toLowerCase`. */
  function MatchesFilter(s: Json, filter: string): Option<bool> {
    var name := Get(s, "name");
    var description := Get(s, "description");
    if !name.JStr? then None
    else if Contains(ToLower(name.s), ToLower(filter)) then Some(true)
    else if !description.JStr? then None
    else Some(Contains(ToLower(description.s), ToLower(filter)))
  }

  /** The filter stage of the shown list. */
  function Matching(scenarios: seq<Json>, filter: string): (r: Option<seq<Json>>)
    ensures r.Some? <==> forall x :: x in scenarios ==> MatchesFilter(x, filter).Some?
    ensures r.Some? ==> forall x :: x in r.value <==> x in scenarios && MatchesFilter(x, filter) == Some(true)
  {
    if scenarios == [] then Some([])
    else
      var head := MatchesFilter(scenarios[0], filter);
      var tail := Matching(scenarios[1..], filter);
      if head.None? || tail.None? then None
      else Some((if head.value then [scenarios[0]] else []) + tail.value)
  }

  /** The search distributes over concatenation: it throws exactly when it throws on
      either part, and otherwise the matches keep their order and their repeats. */
  lemma {:induction false} MatchingAppend(a: seq<Json>, b: seq<Json>, filter: string)
    ensures Matching(a + b, filter) ==
      if Matching(a, filter).Some? && Matching(b, filter).Some?
      then Some(Matching(a, filter).value + Matching(b, filter).value)
      else None
  {
    var tb := Matching(b, filter);
    if a == [] {
      assert a + b == b;
      if tb.Some? {
        assert [] + tb.value == tb.value;
      }
    } else {
      assert (a + b)[1..] == a[1..] + b;
      assert (a + b)[0] == a[0];
      MatchingAppend(a[1..], b, filter);
      var head := MatchesFilter(a[0], filter);
      var ta := Matching(a[1..], filter);
      if head.Some? && ta.Some? && tb.Some? {
        var front := if head.value then [a[0]] else [];
        assert Matching(a, filter) == Some(front + ta.value);
        assert Matching(a + b, filter) == Some(front + (ta.value + tb.value));
        Regroup(front, ta.value, tb.value);
      }
    }
  }

  lemma Regroup<T>(x: seq<T>, y: seq<T>, z: seq<T>)
    ensures x + (y + z) == (x + y) + z
  {
  }

  /** `a.localeCompare(b) <= 0`, taken as the order of code units. */
  predicate CodeUnitLe(a: string, b: string)
    decreases |a|
  {
    a == [] || (b != [] && (a[0] < b[0] || (a[0] == b[0] && CodeUnitLe(a[1..], b[1..]))))
  }

  lemma {:induction false} CodeUnitLeTotal(a: string, b: string)
    ensures CodeUnitLe(a, b) || CodeUnitLe(b, a)
    decreases |a|
  {
    if a != [] && b != [] && a[0] == b[0] {
      CodeUnitLeTotal(a[1..], b[1..]);
    }
  }

  lemma {:induction false} CodeUnitLeTrans(a: string, b: string, c: string)
    requires CodeUnitLe(a, b) && CodeUnitLe(b, c)
    ensures CodeUnitLe(a, c)
    decreases |a|
  {
    if a != [] && a[0] == b[0] && b[0] == c[0] {
      CodeUnitLeTrans(a[1..], b[1..], c[1..]);
    }
  }

  function StrOf(v: Json): string {
    if v.JStr? then v.s else ""
  }

  function PhaseOf(s: Json): Json {
    Get(Get(s, "gameState"), "phase")
  }

  /** `b.id - a.id` for numeric ids. */
  function IdNumber(s: Json): int {
    var id := Get(s, "id");
    if id.JNum? then id.n else 0
  }

  predicate NameLe(a: Json, b: Json) { CodeUnitLe(StrOf(Get(a, "name")), StrOf(Get(b, "name"))) }
  predicate PhaseLe(a: Json, b: Json) { CodeUnitLe(StrOf(PhaseOf(a)), StrOf(PhaseOf(b))) }
  predicate NewerFirst(a: Json, b: Json) { IdNumber(b) <= IdNumber(a) }
  predicate AnyOrder(a: Json, b: Json) { true }

  /** The comparator picked by `sortBy`; any other value compares everything equal. */
  function Comparator(sortBy: string): (Json, Json) -> bool {
    if sortBy == "name" then NameLe
    else if sortBy == "date" then NewerFirst
    else if sortBy == "phase" then PhaseLe
    else AnyOrder
  }

  lemma ComparatorsArePreorders(sortBy: string)
    ensures TotalPreorder(Comparator(sortBy))
  {
    if sortBy == "name" {
      forall a: Json, b: Json ensures NameLe(a, b) || NameLe(b, a) {
        CodeUnitLeTotal(StrOf(Get(a, "name")), StrOf(Get(b, "name")));
      }
      forall a: Json, b: Json, c: Json | NameLe(a, b) && NameLe(b, c) ensures NameLe(a, c) {
        CodeUnitLeTrans(StrOf(Get(a, "name")), StrOf(Get(b, "name")), StrOf(Get(c, "name")));
      }
    } else if sortBy == "phase" {
      forall a: Json, b: Json ensures PhaseLe(a, b) || PhaseLe(b, a) {
        CodeUnitLeTotal(StrOf(PhaseOf(a)), StrOf(PhaseOf(b)));
      }
      forall a: Json, b: Json, c: Json | PhaseLe(a, b) && PhaseLe(b, c) ensures PhaseLe(a, c) {
        CodeUnitLeTrans(StrOf(PhaseOf(a)), StrOf(PhaseOf(b)), StrOf(PhaseOf(c)));
      }
    }
  }

  /** `filteredScenarios`: the matching scenarios, stably sorted. Sorting by phase
      throws when a compared scenario has no string phase. */
  function Shown(scenarios: seq<Json>, filter: string, sortBy: string): Option<seq<Json>> {
    var m := Matching(scenarios, filter);
    if m.None? then None
    else if sortBy == "phase" && |m.value| >= 2 && exists x :: x in m.value && !PhaseOf(x).JStr? then None
    else Some(SortBy(m.value, Comparator(sortBy)))
  }

  /** The shown list holds exactly the scenarios whose name or description contains the
      filter, each as often as in the list, ordered by the chosen key; an unknown key
      keeps the list order. */
  lemma ShownRule(scenarios: seq<Json>, filter: string, sortBy: string)
    requires Shown(scenarios, filter, sortBy).Some?
    ensures var r := Shown(scenarios, filter, sortBy).value;
      (forall x :: x in r <==> x in scenarios && MatchesFilter(x, filter) == Some(true))
      && multiset(r) == multiset(Matching(scenarios, filter).value)
      && SortedBy(r, Comparator(sortBy))
      && (sortBy !in {"name", "date", "phase"} ==> r == Matching(scenarios, filter).value)
  {
    var m := Matching(scenarios, filter).value;
    var r := Shown(scenarios, filter, sortBy).value;
    ComparatorsArePreorders(sortBy);
    SortBySorted(m, Comparator(sortBy));
    assert forall x :: x in r <==> x in multiset(r);
    if sortBy !in {"name", "date", "phase"} {
      SortByOfSorted(m, AnyOrder);
    }
  }

  datatype Stats = Stats(alivePlayers: nat, totalPlayers: nat, historyCount: Json, testTargets: Json)

  /** The players whose `isAlive` is truthy. */
  function AliveOnes(players: seq<Json>): (r: seq<Json>)
    ensures |r| <= |players|
  {
    if players == [] then []
    else (if Truthy(Get(players[0], "isAlive")) then [players[0]] else []) + AliveOnes(players[1..])
  }

  /** Every player is alive exactly when none is filtered out. */
  lemma {:induction false} AllAlive(players: seq<Json>)
    ensures |AliveOnes(players)| == |players| <==> forall p :: p in players ==> Truthy(Get(p, "isAlive"))
  {
    if players != [] {
      AllAlive(players[1..]);
      assert forall p :: p in players <==> p == players[0] || p in players[1..];
    }
  }

  /** `getScenarioStats`; `None` is a throw (a missing `gameState`, `gameHistory` or
      `testTargets`, players that are not an array, or a `null` player). */
  function ScenarioStats(s: Json): (r: Option<Stats>)
    ensures r.Some? ==> r.value.alivePlayers <= r.value.totalPlayers
  {
    var gs := Get(s, "gameState");
    var players := Get(gs, "players");
    var history := Get(gs, "gameHistory");
    var targets := Get(s, "testTargets");
    if Nullish(s) || Nullish(gs) || !players.JArr? || (exists p :: p in players.items && Nullish(p))
       || Nullish(history) || Nullish(targets) then None
    else Some(Stats(|AliveOnes(players.items)|, |players.items|, Get(history, "length"), Get(targets, "length")))
  }

  /** The counts of a scenario whose lists are arrays: the alive count reaches the total
      exactly when every player is alive, and the other two are the list lengths. */
  lemma StatsRule(s: Json)
    requires ScenarioStats(s).Some?
    requires Get(Get(s, "gameState"), "gameHistory").JArr? && Get(s, "testTargets").JArr?
    ensures var st := ScenarioStats(s).value;
      var players := Get(Get(s, "gameState"), "players").items;
      st.totalPlayers == |players|
      && (st.alivePlayers == st.totalPlayers <==> forall p :: p in players ==> Truthy(Get(p, "isAlive")))
      && st.historyCount == JNum(|Get(Get(s, "gameState"), "gameHistory").items|)
      && st.testTargets == JNum(|Get(s, "testTargets").items|)
  {
    AllAlive(Get(Get(s, "gameState"), "players").items);
  }
}
