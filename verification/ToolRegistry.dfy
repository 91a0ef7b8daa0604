/**
 The tool registry and the paths that use it (digcore/diagnose/registry.go, types.go,
 toolconv.go, executor.go): a flat index beside categories, what is offered to the AI,
 and what the executor accepts.
 */
module ToolRegistry {
  datatype Scope = Local | Remote

  datatype Tool = Tool(name: string, scope: Scope, supportedOS: seq<string>)

  datatype Category = Category(plugin: string, description: string, scope: Scope, tools: seq<Tool>)

  datatype Registry = Registry(categories: map<string, Category>, index: map<string, Tool>)

  const EMPTY := Registry(map[], map[])

  predicate SupportsOS(t: Tool, goos: string) {
    t.supportedOS == [] || goos in t.supportedOS
  }

  function LowerChar(c: char): (r: char) {
    if 'A' <= c <= 'Z' then c + 32 as char else c
  }

  function ToLower(s: string): (r: string) {
    seq(|s|, i requires 0 <= i < |s| => LowerChar(s[i]))
  }

  predicate MatchesAt(s: string, sub: string, i: int)
    requires 0 <= i <= |s| - |sub|
  {
    s[i..i + |sub|] == sub
  }

  predicate Contains(s: string, sub: string) {
    exists i :: 0 <= i <= |s| - |sub| && MatchesAt(s, sub, i)
  }

  predicate CategorySupportsOS(cat: Category, goos: string) {
    var desc := ToLower(cat.description);
    if Contains(desc, "linux only.") then goos == "linux"
    else if Contains(desc, "darwin only.") || Contains(desc, "macos only.") then goos == "darwin"
    else if Contains(desc, "windows only.") then goos == "windows"
    else true
  }

  // ---------------------------------------------------------------- registration

  datatype Registration =
    | AddTool(category: string, tool: Tool)
    | SetCategory(name: string, plugin: string, description: string, scope: Scope)

  function Apply(r: Registry, step: Registration): (t: Registry) {
    match step
    case AddTool(category, tool) =>
      if tool.name in r.index then r
      else
        var cat := if category in r.categories then r.categories[category]
                   else Category(category, "", tool.scope, []);
        Registry(r.categories[category := cat.(tools := cat.tools + [tool])], r.index[tool.name := tool])
    case SetCategory(name, plugin, description, scope) =>
      var tools := if name in r.categories then r.categories[name].tools else [];
      r.(categories := r.categories[name := Category(plugin, description, scope, tools)])
  }

  function Built(steps: seq<Registration>): (r: Registry) {
    if steps == [] then EMPTY else Apply(Built(steps[..|steps| - 1]), steps[|steps| - 1])
  }

  // ---------------------------------------------------------------- agreement

  /** A place where a tool sits: a category and a position in it. */
  datatype Slot = Slot(category: string, pos: nat)

  predicate IsSlot(r: Registry, s: Slot) {
    s.category in r.categories && s.pos < |r.categories[s.category].tools|
  }

  function At(r: Registry, s: Slot): (t: Tool)
    requires IsSlot(r, s)
  {
    r.categories[s.category].tools[s.pos]
  }

  function Slots(r: Registry): (ss: set<Slot>)
    ensures forall s :: s in ss <==> IsSlot(r, s)
  {
    set c, i | c in r.categories && 0 <= i < |r.categories[c].tools| :: Slot(c, i)
  }

  ghost predicate Housed(r: Registry, name: string) {
    exists s :: IsSlot(r, s) && At(r, s).name == name
  }

  /** Every slot's tool is the one indexed under its name, every indexed tool has a slot,
      no two slots share a name, and the index counts the slots. */
  ghost predicate Agrees(r: Registry) {
    && SlotsIndexed(r)
    && AllHoused(r)
    && NamesUnique(r)
    && |r.index| == |Slots(r)|
  }

  ghost predicate SlotsIndexed(r: Registry) {
    forall s :: IsSlot(r, s) ==> At(r, s).name in r.index && r.index[At(r, s).name] == At(r, s)
  }

  ghost predicate AllHoused(r: Registry) {
    forall name :: name in r.index ==> Housed(r, name)
  }

  ghost predicate NamesUnique(r: Registry) {
    forall s, t :: IsSlot(r, s) && IsSlot(r, t) && At(r, s).name == At(r, t).name ==> s == t
  }

  /** A step that keeps every slot where it is. */
  lemma SameSlots(r: Registry, t: Registry)
    requires Agrees(r) && t.index == r.index
    requires forall s :: IsSlot(t, s) <==> IsSlot(r, s)
    requires forall s :: IsSlot(r, s) ==> At(t, s) == At(r, s)
    ensures Agrees(t)
  {
    assert Slots(t) == Slots(r);
    forall name | name in t.index
      ensures Housed(t, name)
    {
      assert Housed(r, name);
      var s :| IsSlot(r, s) && At(r, s).name == name;
      assert IsSlot(t, s) && At(t, s).name == name;
    }
  }

  /** A step that adds one slot for a new name. */
  ghost predicate AddsSlot(r: Registry, t: Registry, new_: Slot) {
    && IsSlot(t, new_) && !IsSlot(r, new_)
    && At(t, new_).name !in r.index && t.index == r.index[At(t, new_).name := At(t, new_)]
    && (forall s :: IsSlot(t, s) <==> IsSlot(r, s) || s == new_)
    && (forall s :: IsSlot(r, s) ==> At(t, s) == At(r, s))
  }

  lemma NewNameStaysUnique(r: Registry, t: Registry, new_: Slot)
    requires AddsSlot(r, t, new_) && SlotsIndexed(r) && NamesUnique(r)
    ensures SlotsIndexed(t) && NamesUnique(t)
  {
    forall s | IsSlot(t, s)
      ensures At(t, s).name in t.index && t.index[At(t, s).name] == At(t, s)
      ensures s != new_ ==> At(t, s).name != At(t, new_).name
    {
      if s != new_ {
        assert At(t, s) == At(r, s);
      }
    }
    forall s, u | IsSlot(t, s) && IsSlot(t, u) && At(t, s).name == At(t, u).name
      ensures s == u
    {
      if s != new_ && u != new_ {
        assert IsSlot(r, s) && IsSlot(r, u) && At(t, s) == At(r, s) && At(t, u) == At(r, u);
      }
    }
  }

  lemma NewNameIsHoused(r: Registry, t: Registry, new_: Slot, name: string)
    requires AddsSlot(r, t, new_) && name in t.index && (name in r.index ==> Housed(r, name))
    ensures Housed(t, name)
  {
    if name == At(t, new_).name {
      assert IsSlot(t, new_);
    } else {
      var s :| IsSlot(r, s) && At(r, s).name == name;
      assert IsSlot(t, s) && At(t, s).name == name;
    }
  }

  lemma OneMoreIsHoused(r: Registry, t: Registry, new_: Slot)
    requires AllHoused(r) && AddsSlot(r, t, new_)
    ensures AllHoused(t)
  {
    forall name | name in t.index
      ensures Housed(t, name)
    {
      NewNameIsHoused(r, t, new_, name);
    }
  }

  lemma OneMoreIsCounted(r: Registry, t: Registry, new_: Slot)
    requires |r.index| == |Slots(r)| && AddsSlot(r, t, new_)
    ensures |t.index| == |Slots(t)|
  {
    OneMoreElement(Slots(r), Slots(t), new_);
    OneMoreElement(r.index.Keys, t.index.Keys, At(t, new_).name);
  }

  lemma OneMoreElement<T>(a: set<T>, b: set<T>, x: T)
    requires x !in a && forall y :: y in b <==> y in a || y == x
    ensures |b| == |a| + 1
  {
    assert b == a + {x};
  }

  lemma OneMoreSlot(r: Registry, t: Registry, new_: Slot)
    requires Agrees(r) && AddsSlot(r, t, new_)
    ensures Agrees(t)
  {
    NewNameStaysUnique(r, t, new_);
    OneMoreIsHoused(r, t, new_);
    OneMoreIsCounted(r, t, new_);
  }

  lemma AddToolKeepsAgreement(r: Registry, category: string, tool: Tool)
    requires Agrees(r)
    ensures Agrees(Apply(r, AddTool(category, tool)))
  {
    if tool.name !in r.index {
      var pos := if category in r.categories then |r.categories[category].tools| else 0;
      NewToolAddsSlot(r, category, tool, pos);
      OneMoreSlot(r, Apply(r, AddTool(category, tool)), Slot(category, pos));
    }
  }

  lemma NewToolAddsSlot(r: Registry, category: string, tool: Tool, pos: nat)
    requires tool.name !in r.index
    requires pos == if category in r.categories then |r.categories[category].tools| else 0
    ensures AddsSlot(r, Apply(r, AddTool(category, tool)), Slot(category, pos))
  {
    var t := Apply(r, AddTool(category, tool));
    assert At(t, Slot(category, pos)) == tool;
  }

  lemma ApplyKeepsAgreement(r: Registry, step: Registration)
    requires Agrees(r)
    ensures Agrees(Apply(r, step))
  {
    match step
    case AddTool(category, tool) => AddToolKeepsAgreement(r, category, tool);
    case SetCategory(_, _, _, _) => SameSlots(r, Apply(r, step));
  }

  /** Registry agreement: after any sequence of registrations, duplicates included, each
      indexed tool sits in exactly one category slot and vice versa, and ToolCount is the
      number of slots. */
  lemma {:induction false} RegistryAgreement(steps: seq<Registration>)
    ensures Agrees(Built(steps))
  {
    if steps == [] {
      assert Slots(EMPTY) == {};
    } else {
      RegistryAgreement(steps[..|steps| - 1]);
      ApplyKeepsAgreement(Built(steps[..|steps| - 1]), steps[|steps| - 1]);
    }
  }

  // ---------------------------------------------------------------- lookups

  /** The named tool has a home whose category, and itself, allow the OS. */
  ghost predicate Available(r: Registry, name: string, goos: string) {
    exists s :: IsSlot(r, s) && At(r, s).name == name && SupportsOS(At(r, s), goos)
                && CategorySupportsOS(r.categories[s.category], goos)
  }

  /** ToolSupportedOn walks the categories in map order, which is arbitrary: the answer
      does not depend on it. */
  method ToolSupportedOn(r: Registry, name: string, goos: string) returns (b: bool)
    requires Agrees(r)
    ensures b <==> Available(r, name, goos)
  {
    if name !in r.index || !SupportsOS(r.index[name], goos) {
      return false;
    }
    var left := r.categories.Keys;
    while left != {}
      invariant left <= r.categories.Keys
      invariant forall s :: IsSlot(r, s) && At(r, s).name == name ==> s.category in left
      decreases |left|
    {
      var c :| c in left;
      var tools := r.categories[c].tools;
      for i := 0 to |tools|
        invariant forall k :: 0 <= k < i ==> tools[k].name != name
      {
        if tools[i].name == name {
          assert IsSlot(r, Slot(c, i)) && At(r, Slot(c, i)).name == name;
          return CategorySupportsOS(r.categories[c], goos);
        }
      }
      left := left - {c};
    }
    assert false;
  }

  /** The tools that support an OS, in their order. */
  function Supporting(tools: seq<Tool>, goos: string): (ts: seq<Tool>)
    ensures forall t :: t in ts <==> t in tools && SupportsOS(t, goos)
  {
    if tools == [] then []
    else
      var last := tools[|tools| - 1];
      var before := Supporting(tools[..|tools| - 1], goos);
      if SupportsOS(last, goos) then before + [last] else before
  }

  /** `ts` are the tools at the positions `at`, in order, and those are the supporting ones. */
  ghost predicate Picked(tools: seq<Tool>, goos: string, ts: seq<Tool>, at: seq<nat>) {
    && |at| == |ts|
    && (forall k :: 0 <= k < |at| ==> at[k] < |tools| && tools[at[k]] == ts[k] && SupportsOS(ts[k], goos))
    && (forall j, k :: 0 <= j < k < |at| ==> at[j] < at[k])
    && (forall i :: 0 <= i < |tools| && SupportsOS(tools[i], goos) ==> i in at)
  }

  /** The listing keeps the order of the tools and leaves out exactly the unsupported ones. */
  lemma {:induction false} SupportingInOrder(tools: seq<Tool>, goos: string) returns (at: seq<nat>)
    ensures Picked(tools, goos, Supporting(tools, goos), at)
  {
    at := [];
    if tools != [] {
      var n := |tools| - 1;
      at := SupportingInOrder(tools[..n], goos);
      assert tools == tools[..n] + [tools[n]];
      PickLast(tools[..n], tools[n], goos, Supporting(tools[..n], goos), at);
      if SupportsOS(tools[n], goos) {
        at := at + [n];
      }
    }
  }

  lemma PickLast(tools: seq<Tool>, last: Tool, goos: string, ts: seq<Tool>, at: seq<nat>)
    requires Picked(tools, goos, ts, at)
    ensures if SupportsOS(last, goos) then Picked(tools + [last], goos, ts + [last], at + [|tools|])
            else Picked(tools + [last], goos, ts, at)
  {
    assert forall i :: 0 <= i < |tools| ==> (tools + [last])[i] == tools[i];
    assert |tools| in at + [|tools|];
    assert forall i :: i in at ==> i in at + [|tools|];
  }

  method ByPluginForOS(r: Registry, plugin: string, goos: string) returns (filtered: seq<Tool>)
    ensures filtered == if plugin in r.categories && CategorySupportsOS(r.categories[plugin], goos)
                        then Supporting(r.categories[plugin].tools, goos) else []
    ensures forall t :: t in filtered <==>
      && plugin in r.categories && CategorySupportsOS(r.categories[plugin], goos)
      && t in r.categories[plugin].tools && SupportsOS(t, goos)
  {
    filtered := [];
    if plugin !in r.categories || !CategorySupportsOS(r.categories[plugin], goos) {
      return;
    }
    var tools := r.categories[plugin].tools;
    for i := 0 to |tools|
      invariant filtered == Supporting(tools[..i], goos)
    {
      assert tools[..i + 1][..i] == tools[..i];
      if SupportsOS(tools[i], goos) {
        filtered := filtered + [tools[i]];
      }
    }
    assert tools[..|tools|] == tools;
  }

  /** The tools listed for a plugin on an OS are exactly the available tools that live in
      that category. */
  lemma ListedIffAvailable(r: Registry, plugin: string, goos: string, t: Tool)
    requires Agrees(r) && plugin in r.categories && t in r.categories[plugin].tools
    ensures CategorySupportsOS(r.categories[plugin], goos) && SupportsOS(t, goos)
       <==> Available(r, t.name, goos)
  {
    var i :| 0 <= i < |r.categories[plugin].tools| && r.categories[plugin].tools[i] == t;
    var home := Slot(plugin, i);
    assert IsSlot(r, home) && At(r, home) == t;
  }

  // ---------------------------------------------------------------- operating systems, written out

  /** The same letter, the second one in lower case. */
  predicate SameLetter(c: char, lower: char) {
    c == lower || ('A' <= c <= 'Z' && lower as int == c as int + 32)
  }

  /** The text has the phrase at `i`, in any letter case. */
  ghost predicate PhraseAt(text: string, phrase: string, i: nat) {
    i + |phrase| <= |text| && forall j :: 0 <= j < |phrase| ==> SameLetter(text[i + j], phrase[j])
  }

  ghost predicate HasPhrase(text: string, phrase: string) {
    exists i: nat :: PhraseAt(text, phrase, i)
  }

  predicate LowerCase(s: string) {
    forall i :: 0 <= i < |s| ==> !('A' <= s[i] <= 'Z')
  }

  lemma PhraseAtIff(text: string, phrase: string, i: nat)
    requires LowerCase(phrase) && i + |phrase| <= |text|
    ensures PhraseAt(text, phrase, i) <==> MatchesAt(ToLower(text), phrase, i)
  {
    var low := ToLower(text)[i..i + |phrase|];
    assert forall j :: 0 <= j < |phrase| ==> low[j] == LowerChar(text[i + j]);
    if PhraseAt(text, phrase, i) {
      assert forall j :: 0 <= j < |phrase| ==> low[j] == phrase[j];
    } else {
      var j :| 0 <= j < |phrase| && !SameLetter(text[i + j], phrase[j]);
      assert low[j] != phrase[j];
    }
  }

  lemma HasPhraseIff(text: string, phrase: string)
    requires LowerCase(phrase)
    ensures HasPhrase(text, phrase) <==> Contains(ToLower(text), phrase)
  {
    if i: nat :| PhraseAt(text, phrase, i) {
      PhraseAtIff(text, phrase, i);
    }
    if Contains(ToLower(text), phrase) {
      var i :| 0 <= i <= |ToLower(text)| - |phrase| && MatchesAt(ToLower(text), phrase, i);
      PhraseAtIff(text, phrase, i);
    }
  }

  /** What a category's description says about the OS. */
  ghost predicate DescriptionAllows(description: string, goos: string) {
    if HasPhrase(description, "linux only.") then goos == "linux"
    else if HasPhrase(description, "darwin only.") || HasPhrase(description, "macos only.") then goos == "darwin"
    else if HasPhrase(description, "windows only.") then goos == "windows"
    else true
  }

  lemma CategoryByDescription(cat: Category, goos: string)
    ensures CategorySupportsOS(cat, goos) <==> DescriptionAllows(cat.description, goos)
  {
    HasPhraseIff(cat.description, "linux only.");
    HasPhraseIff(cat.description, "darwin only.");
    HasPhraseIff(cat.description, "macos only.");
    HasPhraseIff(cat.description, "windows only.");
  }

  /** A tool is available exactly where its category's description and its own list of
      operating systems, an empty one standing for all, say so. */
  lemma AvailableWhere(r: Registry, category: string, goos: string, t: Tool)
    requires Agrees(r) && category in r.categories && t in r.categories[category].tools
    ensures Available(r, t.name, goos) <==>
      && DescriptionAllows(r.categories[category].description, goos)
      && (|t.supportedOS| == 0 || exists i :: 0 <= i < |t.supportedOS| && t.supportedOS[i] == goos)
  {
    CategoryByDescription(r.categories[category], goos);
    ListedIffAvailable(r, category, goos, t);
  }

  // ---------------------------------------------------------------- registrations, written out

  /** Registration `i` is the first one under its tool's name. */
  predicate FirstOfItsName(steps: seq<Registration>, i: nat) {
    && i < |steps| && steps[i].AddTool?
    && forall j :: 0 <= j < i ==> !(steps[j].AddTool? && steps[j].tool.name == steps[i].tool.name)
  }

  /** The first registration of a name stays: it is what the index holds, and it sits in the
      category it was registered for. */
  lemma {:induction false} FirstRegistrationStays(steps: seq<Registration>, i: nat)
    requires FirstOfItsName(steps, i)
    ensures var r := Built(steps);
      var step := steps[i];
      && step.tool.name in r.index && r.index[step.tool.name] == step.tool
      && step.category in r.categories && step.tool in r.categories[step.category].tools
  {
    var n := |steps| - 1;
    if i < n {
      FirstRegistrationStays(steps[..n], i);
    } else {
      IndexedNamesWereRegistered(steps[..n], steps[n].tool.name);
    }
  }

  /** Nothing else gets into the index. */
  lemma {:induction false} IndexedNamesWereRegistered(steps: seq<Registration>, name: string)
    ensures name in Built(steps).index ==>
      exists j :: 0 <= j < |steps| && steps[j].AddTool? && steps[j].tool.name == name
  {
    if steps != [] && name in Built(steps).index {
      var n := |steps| - 1;
      IndexedNamesWereRegistered(steps[..n], name);
      if name in Built(steps[..n]).index {
        var j :| 0 <= j < n && steps[..n][j].AddTool? && steps[..n][j].tool.name == name;
        assert steps[j] == steps[..n][j];
      } else {
        assert steps[n].AddTool? && steps[n].tool.name == name;
      }
    }
  }

  /** The last description a category was given is the one it has. */
  lemma {:induction false} LastDescriptionStays(steps: seq<Registration>, i: nat)
    requires i < |steps| && steps[i].SetCategory?
    requires forall j :: i < j < |steps| ==> !(steps[j].SetCategory? && steps[j].name == steps[i].name)
    ensures var r := Built(steps);
      && steps[i].name in r.categories
      && r.categories[steps[i].name].description == steps[i].description
      && r.categories[steps[i].name].plugin == steps[i].plugin
  {
    var n := |steps| - 1;
    if i < n {
      LastDescriptionStays(steps[..n], i);
    }
  }

  // ---------------------------------------------------------------- offering and executing

  const LIST_CATEGORIES := "list_tool_categories"
  const LIST_TOOLS := "list_tools"
  const CALL_TOOL := "call_tool"

  predicate MetaName(name: string) {
    name == LIST_CATEGORIES || name == LIST_TOOLS || name == CALL_TOOL
  }

  datatype Routing =
    | ListCategories
    | ListTools(category: string)
    | MissingArgument(name: string)
    | Run(tool: Tool)
    | UnknownTool(name: string)
    | UnsupportedTool(name: string)

  /** A missing argument reads as the empty string. */
  function Arg(args: map<string, string>, name: string): (v: string) {
    if name in args then args[name] else ""
  }

  /** Looking up a tool by name and checking the OS. */
  ghost function LookedUp(r: Registry, name: string, goos: string): (routing: Routing) {
    if name !in r.index then UnknownTool(name)
    else if Available(r, name, goos) then Run(r.index[name])
    else UnsupportedTool(name)
  }

  /** Where executeTool sends a call the AI makes: to a listing, or through the index, by
      the name of the call itself or by the name argument of call_tool. */
  ghost function Routed(r: Registry, name: string, args: map<string, string>, goos: string): (routing: Routing) {
    if name == LIST_CATEGORIES then ListCategories
    else if name == LIST_TOOLS then
      if Arg(args, "category") == "" then MissingArgument("category") else ListTools(Arg(args, "category"))
    else if name == CALL_TOOL then
      if Arg(args, "name") == "" then MissingArgument("name") else LookedUp(r, Arg(args, "name"), goos)
    else LookedUp(r, name, goos)
  }

  method Route(r: Registry, name: string, args: map<string, string>, goos: string) returns (routing: Routing)
    requires Agrees(r)
    ensures routing == Routed(r, name, args, goos)
  {
    if name == LIST_CATEGORIES {
      return ListCategories;
    }
    if name == LIST_TOOLS {
      var category := Arg(args, "category");
      if category == "" {
        return MissingArgument("category");
      }
      return ListTools(category);
    }
    if name == CALL_TOOL {
      var toolName := Arg(args, "name");
      if toolName == "" {
        return MissingArgument("name");
      }
      routing := LookUp(r, toolName, goos);
      return;
    }
    routing := LookUp(r, name, goos);
  }

  method LookUp(r: Registry, name: string, goos: string) returns (routing: Routing)
    requires Agrees(r)
    ensures routing == LookedUp(r, name, goos)
  {
    if name !in r.index {
      return UnknownTool(name);
    }
    var supported := ToolSupportedOn(r, name, goos);
    if !supported {
      return UnsupportedTool(name);
    }
    return Run(r.index[name]);
  }

  /** Some call runs the tool. */
  ghost predicate Callable(r: Registry, t: Tool, goos: string) {
    exists name, args :: Routed(r, name, args, goos) == Run(t)
  }

  /** An indexed tool is reached through call_tool exactly when it is available on the OS
      and has a name. Called by its own name it is reached exactly when it is available and
      that is not the name of a meta tool, or is call_tool and the name argument says so too. */
  lemma ReachedIff(r: Registry, name: string, args: map<string, string>, goos: string)
    requires Agrees(r) && name in r.index
    ensures Arg(args, "name") == name ==>
      (Routed(r, CALL_TOOL, args, goos) == Run(r.index[name]) <==> name != "" && Available(r, name, goos))
    ensures Routed(r, name, args, goos) == Run(r.index[name]) <==>
      && Available(r, name, goos)
      && (!MetaName(name) || (name == CALL_TOOL && Arg(args, "name") == CALL_TOOL))
  {
    if name == CALL_TOOL && Routed(r, name, args, goos) == Run(r.index[name]) {
      SameToolSameName(r, Arg(args, "name"), name);
    }
  }

  /** The tool name a call asks for: its own, or the name argument of call_tool. */
  predicate AsksFor(name: string, args: map<string, string>, tool: string) {
    if name == "call_tool" then tool != "" && "name" in args && args["name"] == tool
    else name == tool && name !in {"list_tool_categories", "list_tools"}
  }

  /** The argument a call cannot do without is missing or empty. */
  predicate Lacks(name: string, args: map<string, string>, arg: string) {
    && ((name == "list_tools" && arg == "category") || (name == "call_tool" && arg == "name"))
    && (arg in args ==> args[arg] == "")
  }

  /** Which calls end in which answer, other than running a tool. */
  lemma AnsweredOtherwise(r: Registry, name: string, args: map<string, string>, goos: string, x: string)
    ensures Routed(r, name, args, goos) == ListCategories <==> name == "list_tool_categories"
    ensures Routed(r, name, args, goos) == ListTools(x)
      <==> name == "list_tools" && x != "" && "category" in args && args["category"] == x
    ensures Routed(r, name, args, goos) == MissingArgument(x) <==> Lacks(name, args, x)
    ensures Routed(r, name, args, goos) == UnknownTool(x) <==> AsksFor(name, args, x) && x !in r.index
    ensures Routed(r, name, args, goos) == UnsupportedTool(x)
      <==> AsksFor(name, args, x) && x in r.index && !Available(r, x, goos)
  {
  }

  /** Every indexed tool can be called somehow exactly when it is available on the OS. */
  lemma CallableIffAvailable(r: Registry, name: string, goos: string)
    requires Agrees(r) && name in r.index
    ensures Callable(r, r.index[name], goos) <==> Available(r, name, goos)
  {
    var t := r.index[name];
    if Available(r, name, goos) {
      if MetaName(name) {
        assert Routed(r, CALL_TOOL, map["name" := name], goos) == Run(t);
      } else {
        assert Routed(r, name, map[], goos) == Run(t);
      }
    }
    if called, args :| Routed(r, called, args, goos) == Run(t) {
      var looked := if called == CALL_TOOL then Arg(args, "name") else called;
      assert r.index[looked] == t && Available(r, looked, goos);
      SameToolSameName(r, looked, name);
    }
  }

  lemma SameToolSameName(r: Registry, a: string, b: string)
    requires Agrees(r) && a in r.index && b in r.index && r.index[a] == r.index[b]
    ensures a == b
  {
    assert Housed(r, a) && Housed(r, b);
    var s :| IsSlot(r, s) && At(r, s).name == a;
    var t :| IsSlot(r, t) && At(r, t).name == b;
    assert r.index[At(r, s).name] == At(r, s) && r.index[At(r, t).name] == At(r, t);
  }

  /** Builds the tool set for a plugin and calls one of its tools, once by its own name and
      once through call_tool. The direct call runs that very tool exactly when it has no
      meta-tool name; call_tool runs it exactly when it has a name at all. */
  method OfferThenCall(r: Registry, plugin: string, goos: string, k: nat)
      returns (offered: seq<Tool>, direct: Routing, indirect: Routing)
    requires Agrees(r)
    ensures k < |offered| && !MetaName(offered[k].name) ==> direct == Run(offered[k])
    ensures k < |offered| && offered[k].name in {LIST_CATEGORIES, LIST_TOOLS} ==> !direct.Run?
    ensures k < |offered| && offered[k].name == CALL_TOOL ==> direct == MissingArgument("name")
    ensures k < |offered| ==> (indirect == Run(offered[k]) <==> offered[k].name != "")
  {
    offered := ByPluginForOS(r, plugin, goos);
    if k >= |offered| {
      return offered, ListCategories, ListCategories;
    }
    var t := offered[k];
    assert t in offered;
    ListedIffAvailable(r, plugin, goos, t);
    var i :| 0 <= i < |r.categories[plugin].tools| && r.categories[plugin].tools[i] == t;
    assert IsSlot(r, Slot(plugin, i)) && At(r, Slot(plugin, i)) == t;
    direct := Route(r, t.name, map[], goos);
    indirect := Route(r, CALL_TOOL, map["name" := t.name], goos);
  }

  lemma OneTool(category: string, t: Tool)
    ensures var r := Built([AddTool(category, t)]);
      && Agrees(r) && t.name in r.index && r.index[t.name] == t
      && category in r.categories && r.categories[category] == Category(category, "", t.scope, [t])
  {
    var steps := [AddTool(category, t)];
    RegistryAgreement(steps);
    assert steps[..0] == [] && Built([]) == EMPTY;
    assert [] + [t] == [t];
  }

  /** A tool that took a meta-tool name: it is offered on every OS, calling it by that name
      never reaches it, and call_tool does. */
  lemma MetaNamedTool(args: map<string, string>, goos: string)
    ensures var t := Tool(LIST_TOOLS, Local, []);
      var r := Built([AddTool("p", t)]);
      && Agrees(r) && "p" in r.categories && CategorySupportsOS(r.categories["p"], goos)
      && t in Supporting(r.categories["p"].tools, goos)
      && !Routed(r, LIST_TOOLS, args, goos).Run?
      && Routed(r, CALL_TOOL, map["name" := LIST_TOOLS], goos) == Run(t)
  {
    var t := Tool(LIST_TOOLS, Local, []);
    OneTool("p", t);
    ShadowedTool(Built([AddTool("p", t)]), "p", t, args, goos);
  }

  lemma ShadowedTool(r: Registry, plugin: string, t: Tool, args: map<string, string>, goos: string)
    requires Agrees(r) && t.name in r.index && r.index[t.name] == t && t.name == LIST_TOOLS && t.supportedOS == []
    requires plugin in r.categories && r.categories[plugin] == Category(plugin, "", t.scope, [t])
    ensures CategorySupportsOS(r.categories[plugin], goos) && t in Supporting(r.categories[plugin].tools, goos)
    ensures !Routed(r, LIST_TOOLS, args, goos).Run?
    ensures Routed(r, CALL_TOOL, map["name" := LIST_TOOLS], goos) == Run(t)
  {
    assert t in r.categories[plugin].tools;
    assert ToLower("") == "";
    ListedIffAvailable(r, plugin, goos, t);
  }

  // ---------------------------------------------------------------- the object

  class ToolRegistry {
    var categories: map<string, Category>
    var toolIndex: map<string, Tool>

    constructor ()
      ensures View() == EMPTY && Agrees(View())
    {
      categories, toolIndex := map[], map[];
      new;
      RegistryAgreement([]);
    }

    ghost function View(): (r: Registry)
      reads this
    {
      Registry(categories, toolIndex)
    }

    method Register(category: string, tool: Tool)
      requires Agrees(View())
      modifies this
      ensures View() == Apply(old(View()), AddTool(category, tool)) && Agrees(View())
    {
      ApplyKeepsAgreement(View(), AddTool(category, tool));
      if tool.name in toolIndex {
        return;
      }
      var cat := Category(category, "", tool.scope, []);
      if category in categories {
        cat := categories[category];
      }
      categories := categories[category := cat.(tools := cat.tools + [tool])];
      toolIndex := toolIndex[tool.name := tool];
    }

    method RegisterCategory(name: string, plugin: string, description: string, scope: Scope)
      requires Agrees(View())
      modifies this
      ensures View() == Apply(old(View()), SetCategory(name, plugin, description, scope)) && Agrees(View())
    {
      ApplyKeepsAgreement(View(), SetCategory(name, plugin, description, scope));
      var tools: seq<Tool> := [];
      if name in categories {
        tools := categories[name].tools;
      }
      categories := categories[name := Category(plugin, description, scope, tools)];
    }

    method ToolCount() returns (n: nat)
      requires Agrees(View())
      ensures n == |Slots(View())|
    {
      n := |toolIndex|;
    }
  }
}
