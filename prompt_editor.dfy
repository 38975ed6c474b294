// The prompt-template editor of the tuning tool: `updatePrompt` writes a string at a
// dotted path of the nested prompt object, `resetToDefault` restores the originals,
// `getPromptPreview` fills `{{name}}` placeholders with example values, the section list
// is filtered by a search term, and four small lookup tables label the fields.

module PromptEditor {
  import opened Wrappers
  import opened JsStrings
  import opened Language

  /** `updatePrompt` on values: `keys` is the dotted path. Every key but the last is read
      (`current[k]`); an entry that is not truthy is first replaced by `{}`. The last key
      is then assigned. Writing a property of a string or a number throws in strict mode;
      that outcome is `None`. */
  function SetPath(v: Value, keys: seq<string>, value: string): Option<Value>
    requires keys != []
    decreases |keys|
  {
    if |keys| == 1 then
      if v.Obj? then Some(Obj(v.fields[keys[0] := Str(value)])) else None
    else if v.Obj? then
      var child := if Truthy(Prop(v, keys[0])) then Prop(v, keys[0]) else Obj(map[]);
      var sub := SetPath(child, keys[1..], value);
      if sub.None? then None else Some(Obj(v.fields[keys[0] := sub.value]))
    else if Truthy(Prop(v, keys[0])) then
      // reading on through a string (its length or one of its characters) is allowed
      SetPath(Prop(v, keys[0]), keys[1..], value)
    else None
  }

  /** Whether the walk along `keys` only meets objects or entries it may replace. */
  predicate Writable(v: Value, keys: seq<string>)
    requires keys != []
    decreases |keys|
  {
    v.Obj? && (|keys| == 1 || !Truthy(Prop(v, keys[0])) || Writable(Prop(v, keys[0]), keys[1..]))
  }

  /** The chain `{k1: {k2: … {kn: value}}}` a path builds from nothing. */
  function Chain(keys: seq<string>, value: string): (r: Value)
    requires keys != []
    ensures r.Obj? && r.fields.Keys == {keys[0]}
    decreases |keys|
  {
    if |keys| == 1 then Obj(map[keys[0] := Str(value)])
    else Obj(map[keys[0] := Chain(keys[1..], value)])
  }

  /** Once the walk has reached a string or a number, the update throws. */
  lemma {:induction false} PrimitiveThrows(v: Value, keys: seq<string>, value: string)
    requires keys != [] && !v.Obj?
    ensures SetPath(v, keys, value) == None
    decreases |keys|
  {
    if |keys| > 1 && Truthy(Prop(v, keys[0])) {
      assert !Prop(v, keys[0]).Obj?;
      PrimitiveThrows(Prop(v, keys[0]), keys[1..], value);
    }
  }

  /** The update succeeds exactly when the path only meets objects or replaceable
      entries. */
  lemma {:induction false} UpdateSucceeds(v: Value, keys: seq<string>, value: string)
    requires keys != []
    ensures SetPath(v, keys, value).Some? <==> Writable(v, keys)
    decreases |keys|
  {
    if !v.Obj? {
      PrimitiveThrows(v, keys, value);
    } else if |keys| > 1 {
      var c := Prop(v, keys[0]);
      if Truthy(c) {
        UpdateSucceeds(c, keys[1..], value);
      } else {
        EmptyGrowsChain(keys[1..], value);
      }
    }
  }

  /** Writing a path into an empty object builds the chain of single-key objects. */
  lemma {:induction false} EmptyGrowsChain(keys: seq<string>, value: string)
    requires keys != []
    ensures SetPath(Obj(map[]), keys, value) == Some(Chain(keys, value))
    decreases |keys|
  {
    if |keys| > 1 {
      assert !Truthy(Prop(Obj(map[]), keys[0]));
      EmptyGrowsChain(keys[1..], value);
    }
  }

  /** After a successful update, following the path in the new prompts gives the written
      string. */
  lemma {:induction false} UpdateThenRead(v: Value, keys: seq<string>, value: string)
    requires keys != [] && SetPath(v, keys, value).Some?
    ensures Walk(SetPath(v, keys, value).value, keys) == Str(value)
    decreases |keys|
  {
    if !v.Obj? {
      PrimitiveThrows(v, keys, value);
    } else if |keys| > 1 {
      var c := Prop(v, keys[0]);
      var child := if Truthy(c) then c else Obj(map[]);
      UpdateThenRead(child, keys[1..], value);
    }
  }

  /** A key on the path whose entry is missing or falsy gets a fresh object holding only
      the rest of the path; every other key of the object keeps its entry. */
  lemma UpdateStep(v: Value, keys: seq<string>, value: string)
    requires keys != [] && SetPath(v, keys, value).Some?
    ensures v.Obj? && SetPath(v, keys, value).value.Obj?
    ensures SetPath(v, keys, value).value.fields.Keys == v.fields.Keys + {keys[0]}
    ensures forall k :: k in v.fields && k != keys[0] ==> SetPath(v, keys, value).value.fields[k] == v.fields[k]
    ensures |keys| > 1 && !Truthy(Prop(v, keys[0])) ==>
      SetPath(v, keys, value).value.fields[keys[0]] == Chain(keys[1..], value)
  {
    if !v.Obj? {
      PrimitiveThrows(v, keys, value);
    } else if |keys| > 1 && !Truthy(Prop(v, keys[0])) {
      EmptyGrowsChain(keys[1..], value);
    }
  }

  /** One object on the walk down, with the key taken from it. */
  datatype Frame = Frame(fields: map<string, Value>, key: string)

  /** Writes a finished subtree back up through the frames, innermost first. */
  function Plug(frames: seq<Frame>, r: Option<Value>): Option<Value>
    decreases |frames|
  {
    if frames == [] || r.None? then r
    else
      var f := frames[|frames| - 1];
      Plug(frames[..|frames| - 1], Some(Obj(f.fields[f.key := r.value])))
  }

  /** The loop of `updatePrompt`: walks down all keys but the last, replacing falsy
      entries by `{}`, assigns the last key, and writes the changed objects back. */
  method UpdatePath(top: Value, keys: seq<string>, value: string) returns (r: Option<Value>)
    requires keys != []
    ensures r == SetPath(top, keys, value)
  {
    var current := top;
    var frames: seq<Frame> := [];
    var i := 0;
    while i < |keys| - 1
      invariant 0 <= i <= |keys| - 1
      invariant Plug(frames, SetPath(current, keys[i..], value)) == SetPath(top, keys, value)
    {
      if !current.Obj? {
        PrimitiveThrows(current, keys[i..], value);
        return None;
      }
      var child := if Truthy(Prop(current, keys[i])) then Prop(current, keys[i]) else Obj(map[]);
      assert keys[i..][1..] == keys[i + 1..];
      frames := frames + [Frame(current.fields, keys[i])];
      current := child;
      i := i + 1;
    }
    if !current.Obj? {
      return None;
    }
    var acc := Obj(current.fields[keys[i] := Str(value)]);
    assert SetPath(current, keys[i..], value) == Some(acc) by {
      assert keys[i..] == [keys[i]];
    }
    var j := |frames|;
    assert frames[..j] == frames;
    while j > 0
      invariant 0 <= j <= |frames|
      invariant Plug(frames[..j], Some(acc)) == SetPath(top, keys, value)
    {
      var f := frames[j - 1];
      assert frames[..j][..j - 1] == frames[..j - 1];
      acc := Obj(f.fields[f.key := acc]);
      j := j - 1;
    }
    r := Some(acc);
  }

  /** `getPromptPreview`: each variable in turn replaces every `{{name}}` by its
      example. */
  datatype Variable = Variable(name: string, example: string)

  function Entries(variables: seq<Variable>): (r: seq<(string, string)>)
    ensures |r| == |variables|
    ensures forall i :: 0 <= i < |r| ==> r[i] == (variables[i].name, variables[i].example)
  {
    if variables == [] then [] else [(variables[0].name, variables[0].example)] + Entries(variables[1..])
  }

  method PromptPreview(prompt: string, variables: seq<Variable>) returns (preview: string)
    ensures preview == Interpolate(prompt, Entries(variables))
    ensures variables == [] ==> preview == prompt
    ensures !Contains(prompt, "{{") ==> preview == prompt
  {
    preview := prompt;
    var i := 0;
    while i < |variables|
      invariant 0 <= i <= |variables|
      invariant Interpolate(preview, Entries(variables[i..])) == Interpolate(prompt, Entries(variables))
    {
      assert Entries(variables[i..])[1..] == Entries(variables[i + 1..]);
      preview := ReplaceAll(preview, Placeholder(variables[i].name), variables[i].example);
      i := i + 1;
    }
    if !Contains(prompt, "{{") {
      NoPlaceholdersUnchanged(prompt, Entries(variables));
    }
  }

  /** The four sections of the editor. */
  datatype Section = Section(id: string, caption: string)

  const SECTIONS: seq<Section> := [
    Section("gameHistory", "游戏历史模板"),
    Section("playerInfo", "玩家信息模板"),
    Section("tasks", "任务模板"),
    Section("speakers", "发言者标识")
  ]

  /** `section.label.toLowerCase().includes(searchTerm.toLowerCase())` */
  predicate Matches(caption: string, searchTerm: string) {
    Contains(ToLower(caption), ToLower(searchTerm))
  }

  /** The sections whose label contains the search term, in their order. */
  function FilteredSections(sections: seq<Section>, searchTerm: string): (r: seq<Section>)
    ensures |r| <= |sections|
    ensures forall s :: s in r <==> s in sections && Matches(s.caption, searchTerm)
  {
    if sections == [] then []
    else
      (if Matches(sections[0].caption, searchTerm) then [sections[0]] else []) +
      FilteredSections(sections[1..], searchTerm)
  }

  /** The filter distributes over concatenation, so the kept sections keep their order. */
  lemma {:induction false} FilteredSectionsAppend(a: seq<Section>, b: seq<Section>, searchTerm: string)
    ensures FilteredSections(a + b, searchTerm) == FilteredSections(a, searchTerm) + FilteredSections(b, searchTerm)
  {
    if a == [] {
      assert a + b == b;
    } else {
      assert (a + b)[1..] == a[1..] + b;
      FilteredSectionsAppend(a[1..], b, searchTerm);
    }
  }

  /** An empty search term keeps every section, in order. */
  lemma {:induction false} EmptySearchKeepsAll(sections: seq<Section>)
    ensures FilteredSections(sections, "") == sections
  {
    if sections != [] {
      assert OccursAt(ToLower(sections[0].caption), ToLower(""), 0);
      EmptySearchKeepsAll(sections[1..]);
    }
  }

  /** `table[key] || fallback` over a table of strings. */
  function LookupOr(table: map<string, string>, key: string, fallback: string): (r: string)
    ensures key in table && table[key] != "" ==> r == table[key]
    ensures key !in table ==> r == fallback
  {
    if key in table && table[key] != "" then table[key] else fallback
  }

  const PLAYER_INFO_LABELS: map<string, string> := map[
    "currentAlivePlayers" := "存活玩家标题",
    "playerEntry" := "玩家条目格式",
    "human" := "人类标识",
    "ai" := "AI标识",
    "unknownRole" := "未知身份标识",
    "yourTeammateWerewolf" := "狼人队友标识",
    "werewolfTeammates" := "狼人队友列表",
    "onlyWerewolfLeft" := "最后狼人提示",
    "yourInfo" := "你的信息格式"
  ]

  const PLAYER_INFO_VARIABLES: map<string, string> := map[
    "playerEntry" := "可用变量: playerId, playerType, roleDisplay",
    "yourTeammateWerewolf" := "可用变量: role",
    "werewolfTeammates" := "可用变量: teammates",
    "yourInfo" := "可用变量: playerId, role"
  ]

  const TASK_VARIABLES: map<string, string> := map[
    "werewolfTarget" := "无特殊变量",
    "guardProtect" := "可用变量: lastProtected",
    "seerCheck" := "无特殊变量",
    "witchSaveChoice" := "可用变量: targetId, targetRole, antidoteStatus",
    "witchPoisonChoice" := "可用变量: poisonStatus",
    "hunterShoot" := "可用变量: playerId",
    "discussionStatement" := "可用变量: playerId, role",
    "votePlayer" := "可用变量: playerId, role"
  ]

  const SPEAKER_LABELS: map<string, string> := map[
    "system" := "系统消息",
    "player" := "玩家发言"
  ]

  const NO_VARIABLES := "无变量"
  const NO_VARIABLE_INFO := "无变量信息"

  function PlayerInfoLabel(key: string): string { LookupOr(PLAYER_INFO_LABELS, key, key) }
  function PlayerInfoVariables(key: string): string { LookupOr(PLAYER_INFO_VARIABLES, key, NO_VARIABLES) }
  function TaskVariables(key: string): string { LookupOr(TASK_VARIABLES, key, NO_VARIABLE_INFO) }
  function SpeakerLabel(key: string): string { LookupOr(SPEAKER_LABELS, key, key) }

  predicate NoEmptyEntry(table: map<string, string>) {
    forall k :: k in table ==> table[k] != ""
  }

  lemma TablesHaveNoEmptyEntry()
    ensures NoEmptyEntry(PLAYER_INFO_LABELS) && NoEmptyEntry(PLAYER_INFO_VARIABLES)
    ensures NoEmptyEntry(TASK_VARIABLES) && NoEmptyEntry(SPEAKER_LABELS)
  {
  }

  /** Every helper gives a listed key's entry; an unknown key gives the key itself for the
      label helpers and the fixed fallback text for the variable helpers. */
  lemma HelperLookups(key: string)
    ensures PlayerInfoLabel(key) == if key in PLAYER_INFO_LABELS then PLAYER_INFO_LABELS[key] else key
    ensures SpeakerLabel(key) == if key in SPEAKER_LABELS then SPEAKER_LABELS[key] else key
    ensures PlayerInfoVariables(key) == if key in PLAYER_INFO_VARIABLES then PLAYER_INFO_VARIABLES[key] else NO_VARIABLES
    ensures TaskVariables(key) == if key in TASK_VARIABLES then TASK_VARIABLES[key] else NO_VARIABLE_INFO
  {
    TablesHaveNoEmptyEntry();
  }

  /** The editor's own state: the prompts being edited (a top-level object), the
      originals and the unsaved-changes flag. */
  class Editor {
    var editablePrompts: map<string, Value>
    const originalPrompts: map<string, Value>
    var hasChanges: bool

    constructor(editablePrompts: map<string, Value>, originalPrompts: map<string, Value>)
      ensures this.editablePrompts == editablePrompts && this.originalPrompts == originalPrompts
      ensures !hasChanges
    {
      this.editablePrompts := editablePrompts;
      this.originalPrompts := originalPrompts;
      hasChanges := false;
    }

    /** `updatePrompt(path, value)`: the top level is copied, the path written; a throw
        leaves the editor as it was. */
    method UpdatePrompt(path: string, value: string) returns (ok: bool)
      modifies this
      ensures var r := SetPath(Obj(old(editablePrompts)), Split(path, '.'), value);
        ok == r.Some? &&
        (ok ==> r.value.Obj? && editablePrompts == r.value.fields && hasChanges) &&
        (!ok ==> editablePrompts == old(editablePrompts) && hasChanges == old(hasChanges))
    {
      var keys := Split(path, '.');
      var r := UpdatePath(Obj(editablePrompts), keys, value);
      ok := r.Some?;
      if ok {
        UpdateStep(Obj(editablePrompts), keys, value);
        editablePrompts := r.value.fields;
        hasChanges := true;
      }
    }

    /** `resetToDefault`: a deep copy of the originals, and no unsaved changes. */
    method ResetToDefault()
      modifies this
      ensures editablePrompts == originalPrompts && !hasChanges
    {
      editablePrompts := originalPrompts;
      hasChanges := false;
    }
  }
}
