/** The permission checker: layered policies, each capped by its ancestors, and doom-loop detection. */
module Permission {
  import opened Sequences

  datatype Decision = Allow | Ask | Deny
  {
    function Rank(): nat { if Allow? then 0 else if Ask? then 1 else 2 }
  }

  datatype Mode = ReadOnly | Yolo

  datatype Rule = Rule(pattern: string, regex: bool)

  /** Per-tool rule lists. */
  datatype RuleSet = RuleSet(allow: map<string, seq<Rule>>, ask: map<string, seq<Rule>>, deny: map<string, seq<Rule>>)

  datatype Overlay = Overlay(mode: Option<Mode>, extra: RuleSet, denied: set<string>)

  /** One checker as it stands: its configuration's rules, its grants of (tool, pattern) and its parent. */
  datatype Policy = Policy(
    rules: RuleSet,
    mode: Mode,
    grants: seq<(string, string)>,
    overlay: Option<Overlay>,
    readOnly: bool,
    parent: Option<Policy>)

  /** A call: `action` is the argument of that name when it is a string, `canonical` the stable encoding
      of all arguments, `targets` what the rules match against. */
  datatype ToolCall = ToolCall(tool: string, action: Option<string>, canonical: string, targets: seq<string>)

  /** Pattern matching and the read-equivalent MCP servers are not modelled further. */
  datatype World = World(matches: (Rule, string) -> bool, readMcp: string -> bool)

  const READ_TOOLS: set<string> := {
    "read", "grep", "find_files", "list_dir", "lsp_diagnostics", "memory_read", "memory_recall", "memory_list",
    "memory_search", "ask_user", "task", "tasks_list", "tasks_output", "tasks_wait" }

  const READ_ACTIONS: set<string> := { "list", "question", "send", "inspect", "review" }

  /** Read-class with the given action; without one the `workers` tool counts as writing. */
  predicate IsReadClass(world: World, tool: string, action: Option<string>)
  {
    if tool == "workers" then action.Some? && action.value in READ_ACTIONS
    else tool in READ_TOOLS || world.readMcp(tool)
  }

  /** Listing workers, asking, answering and reviewing count as reading; starting, stopping, resuming, integrating
      and cleaning up do not, nor does a call whose action is not known. Of the other tools those named above
      and the read-equivalent servers count. */
  lemma ReadClassExactly(world: World, tool: string, action: Option<string>)
    ensures IsReadClass(world, tool, action) <==>
      || (tool == "workers"
          && action in {Some("list"), Some("question"), Some("send"), Some("inspect"), Some("review")})
      || (tool != "workers" && (tool in READ_TOOLS || world.readMcp(tool)))
    ensures tool in {"write", "edit", "bash"} ==> (IsReadClass(world, tool, action) <==> world.readMcp(tool))
    ensures tool in {"read", "grep", "find_files", "list_dir"} ==> IsReadClass(world, tool, action)
  {
    if tool == "workers" && action.Some? && action.value in READ_ACTIONS {
      assert action == Some(action.value);
    }
  }

  function RulesFor(table: map<string, seq<Rule>>, tool: string): seq<Rule>
  {
    if tool in table then table[tool] else []
  }

  predicate Applies(world: World, rule: Rule, targets: seq<string>)
  {
    exists t :: t in targets && world.matches(rule, t)
  }

  /** Some rule of the tool's list matches some target. */
  predicate Hit(world: World, table: map<string, seq<Rule>>, call: ToolCall)
  {
    exists rule :: rule in RulesFor(table, call.tool) && Applies(world, rule, call.targets)
  }

  /** The allow table is walked first and the ask table last, so a matching ask rule always wins. */
  function AllowAsk(world: World, rules: RuleSet, call: ToolCall): Option<Decision>
  {
    if Hit(world, rules.ask, call) then Some(Ask)
    else if Hit(world, rules.allow, call) then Some(Allow)
    else None
  }

  predicate Granted(world: World, grants: seq<(string, string)>, call: ToolCall)
  {
    exists t, g :: t in call.targets && g in grants && g.0 == call.tool && world.matches(Rule(g.1, false), t)
  }

  function Fallback(world: World, mode: Mode, call: ToolCall): Decision
  {
    if mode.Yolo? || IsReadClass(world, call.tool, call.action) then Allow else Deny
  }

  /** One layer's decision: the policy alone, or seen through its overlay. */
  function BaseDecision(world: World, p: Policy, overlay: Option<Overlay>, call: ToolCall): Decision
  {
    if Hit(world, p.rules.deny, call) || (overlay.Some? && Hit(world, overlay.value.extra.deny, call)) then Deny
    else if overlay.Some? && call.tool in overlay.value.denied then Deny
    else if p.readOnly && !IsReadClass(world, call.tool, call.action) then Deny
    else
      var extra := if overlay.Some? then AllowAsk(world, overlay.value.extra, call) else None;
      if extra.Some? then extra.value
      else
        var matched := AllowAsk(world, p.rules, call);
        if matched.Some? then matched.value
        else if Granted(world, p.grants, call) then Allow
        else
          var mode := if overlay.Some? && overlay.value.mode.Some? then overlay.value.mode.value else p.mode;
          Fallback(world, mode, call)
  }

  function Stricter(a: Decision, b: Decision): Decision
  {
    if a.Rank() >= b.Rank() then a else b
  }

  /** Every layer of the policy and of its ancestors, intersected. */
  function PolicyDecision(world: World, p: Policy, call: ToolCall): Decision
  {
    var base := BaseDecision(world, p, None, call);
    var own := if p.overlay.Some? then Stricter(base, BaseDecision(world, p, p.overlay, call)) else base;
    if p.parent.Some? then Stricter(own, PolicyDecision(world, p.parent.value, call)) else own
  }

  /** A policy derived for an agent or a child: same configuration and mode, capped by its parent. */
  function Derived(p: Policy, overlay: Option<Overlay>, grants: seq<(string, string)>, readOnly: bool): Policy
  {
    Policy(p.rules, p.mode, grants, overlay, p.readOnly || readOnly, Some(p))
  }

  predicate AncestorOf(a: Policy, p: Policy)
  {
    a == p || (p.parent.Some? && AncestorOf(a, p.parent.value))
  }

  predicate OpensWrites(world: World, table: map<string, seq<Rule>>)
  {
    exists tool :: tool in table && table[tool] != [] && !IsReadClass(world, tool, None)
  }

  predicate RulesOpenWrites(world: World, rules: RuleSet)
  {
    OpensWrites(world, rules.allow) || OpensWrites(world, rules.ask)
  }

  /** The property a shared checkout relies on. */
  predicate IsReadOnly(world: World, p: Policy)
  {
    if p.readOnly || (p.parent.Some? && IsReadOnly(world, p.parent.value)) then true
    else if !p.mode.ReadOnly? && (p.overlay.None? || p.overlay.value.mode != Some(ReadOnly)) then false
    else
      && !RulesOpenWrites(world, p.rules)
      && !(p.overlay.Some? && RulesOpenWrites(world, p.overlay.value.extra))
      && forall g :: g in p.grants ==> IsReadClass(world, g.0, None)
  }

  // ---- layers ----

  /** The decisions of all the layers that bear on a call. */
  function Layers(world: World, p: Policy, call: ToolCall): seq<Decision>
  {
    [BaseDecision(world, p, None, call)]
    + (if p.overlay.Some? then [BaseDecision(world, p, p.overlay, call)] else [])
    + (if p.parent.Some? then Layers(world, p.parent.value, call) else [])
  }

  /** A call is denied exactly when some layer of some ancestor denies it, and allowed exactly when no
      layer denies or asks. */
  lemma {:induction false} EveryLayerDecides(world: World, p: Policy, call: ToolCall)
    ensures PolicyDecision(world, p, call) == Deny <==> Deny in Layers(world, p, call)
    ensures PolicyDecision(world, p, call) == Allow <==>
      Deny !in Layers(world, p, call) && Ask !in Layers(world, p, call)
  {
    var base, seen := BaseDecision(world, p, None, call), BaseDecision(world, p, p.overlay, call);
    var own := [base] + (if p.overlay.Some? then [seen] else []);
    assert forall d :: d in own <==> d == base || (p.overlay.Some? && d == seen);
    if p.parent.Some? {
      EveryLayerDecides(world, p.parent.value, call);
      var rest := Layers(world, p.parent.value, call);
      assert Layers(world, p, call) == own + rest;
      assert forall d :: d in own + rest <==> d in own || d in rest;
    } else {
      assert Layers(world, p, call) == own;
    }
  }

  /** A derived policy is at least as strict as every ancestor, whatever its overlay, grants and mode. */
  lemma {:induction false} DescendantsAreStricter(world: World, a: Policy, p: Policy, call: ToolCall)
    requires AncestorOf(a, p)
    ensures PolicyDecision(world, p, call).Rank() >= PolicyDecision(world, a, call).Rank()
  {
    if a != p {
      DescendantsAreStricter(world, a, p.parent.value, call);
    }
  }

  /** A deny rule of any ancestor, its overlay's included, cannot be bypassed. */
  lemma DenyIsUnbypassable(world: World, a: Policy, p: Policy, call: ToolCall)
    requires AncestorOf(a, p)
    requires
      || Hit(world, a.rules.deny, call)
      || (a.overlay.Some? && (call.tool in a.overlay.value.denied || Hit(world, a.overlay.value.extra.deny, call)))
    ensures PolicyDecision(world, p, call) == Deny
  {
    DescendantsAreStricter(world, a, p, call);
  }

  // ---- what a session may change ----

  lemma MoreGrants(world: World, grants: seq<(string, string)>, more: (string, string), call: ToolCall)
    ensures Granted(world, grants, call) ==> Granted(world, grants + [more], call)
    ensures Granted(world, grants + [more], call) && !Granted(world, grants, call) ==> more.0 == call.tool
  {
    if Granted(world, grants, call) {
      var t, g :| t in call.targets && g in grants && g.0 == call.tool && world.matches(Rule(g.1, false), t);
      assert g in grants + [more];
    }
    if Granted(world, grants + [more], call) && !Granted(world, grants, call) {
      var t, g :| t in call.targets && g in grants + [more] && g.0 == call.tool && world.matches(Rule(g.1, false), t);
      assert g == more;
    }
  }

  /** An "allow always" grant can only lift the mode fallback's denial, for its own tool; no deny rule,
      ask rule, overlay or read-only flag yields to it. */
  lemma GrantOnlyLiftsFallback(
    world: World, p: Policy, more: (string, string), overlay: Option<Overlay>, call: ToolCall)
    ensures
      var granted := p.(grants := p.grants + [more]);
      var before, after := BaseDecision(world, p, overlay, call), BaseDecision(world, granted, overlay, call);
      after == before || (
        && before == Deny && after == Allow && more.0 == call.tool
        && !Hit(world, p.rules.deny, call) && !Hit(world, p.rules.ask, call)
        && (overlay.Some? ==> !Hit(world, overlay.value.extra.deny, call) && !Hit(world, overlay.value.extra.ask, call)
                              && call.tool !in overlay.value.denied)
        && (p.readOnly ==> IsReadClass(world, call.tool, call.action)))
  {
    MoreGrants(world, p.grants, more, call);
  }

  /** Switching the fallback to readonly never makes any decision laxer. */
  lemma ReadOnlyModeTightens(world: World, p: Policy, call: ToolCall)
    ensures PolicyDecision(world, p.(mode := ReadOnly), call).Rank() >= PolicyDecision(world, p, call).Rank()
  {
    var q := p.(mode := ReadOnly);
    assert BaseDecision(world, q, None, call).Rank() >= BaseDecision(world, p, None, call).Rank();
    assert BaseDecision(world, q, p.overlay, call).Rank() >= BaseDecision(world, p, p.overlay, call).Rank();
  }

  // ---- read-only ----

  /** Rules that name no writing tool say nothing about a writing call. */
  lemma ReadRulesMissWrites(world: World, rules: RuleSet, call: ToolCall)
    requires !RulesOpenWrites(world, rules) && !IsReadClass(world, call.tool, call.action)
    ensures AllowAsk(world, rules, call).None?
  {
    assert !IsReadClass(world, call.tool, None);
    assert RulesFor(rules.allow, call.tool) == [] && RulesFor(rules.ask, call.tool) == [];
  }

  lemma ReadGrantsMissWrites(world: World, grants: seq<(string, string)>, call: ToolCall)
    requires forall g :: g in grants ==> IsReadClass(world, g.0, None)
    requires !IsReadClass(world, call.tool, call.action)
    ensures !Granted(world, grants, call)
  {
    assert !IsReadClass(world, call.tool, None);
  }

  /** When a policy reports itself read-only, every call that is not read-class is denied, for all
      rules, grants, overlays and arguments. */
  lemma {:induction false} ReadOnlyDeniesWrites(world: World, p: Policy, call: ToolCall)
    requires IsReadOnly(world, p) && !IsReadClass(world, call.tool, call.action)
    ensures PolicyDecision(world, p, call) == Deny
  {
    if p.readOnly {
      assert BaseDecision(world, p, None, call) == Deny;
    } else if p.parent.Some? && IsReadOnly(world, p.parent.value) {
      ReadOnlyDeniesWrites(world, p.parent.value, call);
    } else {
      ReadRulesMissWrites(world, p.rules, call);
      ReadGrantsMissWrites(world, p.grants, call);
      if p.mode.ReadOnly? {
        assert BaseDecision(world, p, None, call) == Deny;
      } else {
        ReadRulesMissWrites(world, p.overlay.value.extra, call);
        assert BaseDecision(world, p, p.overlay, call) == Deny;
      }
    }
  }

  /** Being read-only is inherited by every derivation. */
  lemma {:induction false} ReadOnlyIsInherited(world: World, a: Policy, p: Policy)
    requires AncestorOf(a, p) && IsReadOnly(world, a)
    ensures IsReadOnly(world, p)
  {
    if a != p {
      ReadOnlyIsInherited(world, a, p.parent.value);
    }
  }

  /** What deriving a checker promises: capped by the parent, and read-only when either asks for it. */
  lemma DerivationNarrows(
    world: World, p: Policy, overlay: Option<Overlay>, grants: seq<(string, string)>, readOnly: bool, call: ToolCall)
    ensures
      var child := Derived(p, overlay, grants, readOnly);
      && PolicyDecision(world, child, call).Rank() >= PolicyDecision(world, p, call).Rank()
      && (readOnly || IsReadOnly(world, p) ==> IsReadOnly(world, child))
      && (readOnly && !IsReadClass(world, call.tool, call.action) ==> PolicyDecision(world, child, call) == Deny)
  {
    var child := Derived(p, overlay, grants, readOnly);
    assert AncestorOf(p, child);
    DescendantsAreStricter(world, p, child, call);
    if readOnly && !IsReadClass(world, call.tool, call.action) { ReadOnlyDeniesWrites(world, child, call); }
  }

  // ---- rule tables ----

  /** The rules of both tables in the order they are walked, each with what it says. */
  function Walk(rules: RuleSet, tool: string): seq<(Rule, Decision)>
  {
    Map(RulesFor(rules.allow, tool), (rule: Rule) => (rule, Allow))
    + Map(RulesFor(rules.ask, tool), (rule: Rule) => (rule, Ask))
  }

  /** What the last rule that matches says; nothing exactly if none matches. */
  ghost predicate LastSays(world: World, walk: seq<(Rule, Decision)>, targets: seq<string>, said: Option<Decision>)
  {
    match said
    case None => forall k :: 0 <= k < |walk| ==> !Applies(world, walk[k].0, targets)
    case Some(d) => exists k :: 0 <= k < |walk| && IsLast(world, walk, targets, k) && walk[k].1 == d
  }

  ghost predicate IsLast(world: World, walk: seq<(Rule, Decision)>, targets: seq<string>, k: nat)
    requires k < |walk|
  {
    && Applies(world, walk[k].0, targets)
    && forall j :: k < j < |walk| ==> !Applies(world, walk[j].0, targets)
  }

  lemma LastSaysMore(
    world: World, walk: seq<(Rule, Decision)>, targets: seq<string>, said: Option<Decision>, rule: Rule, d: Decision)
    requires LastSays(world, walk, targets, said)
    ensures LastSays(world, walk + [(rule, d)], targets, if Applies(world, rule, targets) then Some(d) else said)
  {
    var more, n := walk + [(rule, d)], |walk|;
    assert more[n] == (rule, d);
    assert forall k :: 0 <= k < n ==> more[k] == walk[k];
    if Applies(world, rule, targets) {
      assert IsLast(world, more, targets, n);
    } else if said.Some? {
      var k :| 0 <= k < n && IsLast(world, walk, targets, k) && walk[k].1 == said.value;
      assert IsLast(world, more, targets, k);
    }
  }

  lemma LastSaysOnce(
    world: World, walk: seq<(Rule, Decision)>, targets: seq<string>, a: Option<Decision>, b: Option<Decision>)
    requires LastSays(world, walk, targets, a) && LastSays(world, walk, targets, b)
    ensures a == b
  {
    if a.Some? && b.Some? {
      var j :| 0 <= j < |walk| && IsLast(world, walk, targets, j) && walk[j].1 == a.value;
      var k :| 0 <= k < |walk| && IsLast(world, walk, targets, k) && walk[k].1 == b.value;
    }
  }

  /** One more rule of the walk. */
  lemma WalkOn(world: World, rules: RuleSet, call: ToolCall, i: nat, said: Option<Decision>)
    requires i < |Walk(rules, call.tool)|
    requires LastSays(world, Walk(rules, call.tool)[..i], call.targets, said)
    ensures
      var allow, ask := RulesFor(rules.allow, call.tool), RulesFor(rules.ask, call.tool);
      var rule := if i < |allow| then allow[i] else ask[i - |allow|];
      LastSays(world, Walk(rules, call.tool)[..i + 1], call.targets,
        if Applies(world, rule, call.targets) then Some(if i < |allow| then Allow else Ask) else said)
  {
    var walk := Walk(rules, call.tool);
    assert walk[..i + 1] == walk[..i] + [walk[i]];
    hide LastSays, Applies;
    LastSaysMore(world, walk[..i], call.targets, said, walk[i].0, walk[i].1);
  }

  lemma WalkStarts(world: World, rules: RuleSet, call: ToolCall)
    ensures
      var walk := Walk(rules, call.tool);
      && |walk| == |RulesFor(rules.allow, call.tool)| + |RulesFor(rules.ask, call.tool)|
      && walk[..|walk|] == walk && LastSays(world, walk[..0], call.targets, None)
  {
  }

  /** Walks both tables keeping the last match: with the allow rules and then the ask rules as one list, the
      result is what the last rule that matches says, and nothing exactly if none does. */
  method LastMatchAllowAsk(world: World, rules: RuleSet, call: ToolCall) returns (result: Option<Decision>)
    ensures result == AllowAsk(world, rules, call)
    ensures LastSays(world, Walk(rules, call.tool), call.targets, result)
  {
    hide LastSays, Walk, Applies, Hit, AllowAsk, RulesFor;
    result := None;
    var allow, ask := RulesFor(rules.allow, call.tool), RulesFor(rules.ask, call.tool);
    ghost var walk := Walk(rules, call.tool);
    WalkStarts(world, rules, call);
    for i := 0 to |allow|
      invariant LastSays(world, walk[..i], call.targets, result)
    {
      WalkOn(world, rules, call, i, result);
      if Applies(world, allow[i], call.targets) { result := Some(Allow); }
    }
    for i := 0 to |ask|
      invariant LastSays(world, walk[..|allow| + i], call.targets, result)
    {
      WalkOn(world, rules, call, |allow| + i, result);
      if Applies(world, ask[i], call.targets) { result := Some(Ask); }
    }
    AllowAskIsLast(world, rules, call);
    LastSaysOnce(world, walk, call.targets, result, AllowAsk(world, rules, call));
  }

  lemma {:induction false} LastOf(world: World, walk: seq<(Rule, Decision)>, targets: seq<string>) returns (k: nat)
    requires exists j :: 0 <= j < |walk| && Applies(world, walk[j].0, targets)
    ensures k < |walk| && IsLast(world, walk, targets, k)
  {
    var n := |walk| - 1;
    if Applies(world, walk[n].0, targets) {
      k := n;
    } else {
      var j :| 0 <= j < |walk| && Applies(world, walk[j].0, targets);
      assert walk[..n][j] == walk[j];
      k := LastOf(world, walk[..n], targets);
      assert forall j :: 0 <= j < n ==> walk[..n][j] == walk[j];
    }
  }

  lemma HitAt(world: World, table: map<string, seq<Rule>>, call: ToolCall)
    ensures
      var rules := RulesFor(table, call.tool);
      Hit(world, table, call) <==> exists k :: 0 <= k < |rules| && Applies(world, rules[k], call.targets)
  {
    var rules := RulesFor(table, call.tool);
    if Hit(world, table, call) {
      var rule :| rule in rules && Applies(world, rule, call.targets);
      var k :| 0 <= k < |rules| && rules[k] == rule;
      assert Applies(world, rules[k], call.targets);
    }
    if k :| 0 <= k < |rules| && Applies(world, rules[k], call.targets) {
      assert rules[k] in rules && Applies(world, rules[k], call.targets);
    }
  }

  predicate SomeBetween(world: World, walk: seq<(Rule, Decision)>, targets: seq<string>, from: nat, to: nat)
    requires from <= to <= |walk|
  {
    exists k :: from <= k < to && Applies(world, walk[k].0, targets)
  }

  lemma WalkHits(world: World, rules: RuleSet, call: ToolCall)
    ensures
      var walk, n := Walk(rules, call.tool), |RulesFor(rules.allow, call.tool)|;
      && n <= |walk|
      && (forall k :: 0 <= k < |walk| ==> walk[k].1 == if k < n then Allow else Ask)
      && (Hit(world, rules.allow, call) <==> SomeBetween(world, walk, call.targets, 0, n))
      && (Hit(world, rules.ask, call) <==> SomeBetween(world, walk, call.targets, n, |walk|))
  {
    var allow, ask := RulesFor(rules.allow, call.tool), RulesFor(rules.ask, call.tool);
    var walk, n := Walk(rules, call.tool), |allow|;
    HitAt(world, rules.allow, call);
    HitAt(world, rules.ask, call);
    hide Hit, Applies;
    assert forall k :: 0 <= k < n ==> walk[k] == (allow[k], Allow);
    assert forall k :: 0 <= k < |ask| ==> walk[n + k] == (ask[k], Ask);
    if k :| n <= k < |walk| && Applies(world, walk[k].0, call.targets) {
      assert walk[n + (k - n)] == (ask[k - n], Ask);
    }
  }

  /** The two tables decide as the last matching rule of the walk says. */
  lemma AllowAskIsLast(world: World, rules: RuleSet, call: ToolCall)
    ensures LastSays(world, Walk(rules, call.tool), call.targets, AllowAsk(world, rules, call))
  {
    WalkHits(world, rules, call);
    hide Hit, Applies, Walk;
    var walk := Walk(rules, call.tool);
    if AllowAsk(world, rules, call).Some? {
      var k := LastOf(world, walk, call.targets);
      assert IsLast(world, walk, call.targets, k);
    }
  }

  // ---- one policy on its own ----

  /** Some rule of the list matches some target. */
  predicate Matching(world: World, rules: seq<Rule>, targets: seq<string>)
  {
    exists rule, t :: rule in rules && t in targets && world.matches(rule, t)
  }

  /** Some remembered grant for the tool matches some target. */
  predicate Remembered(world: World, grants: seq<(string, string)>, tool: string, targets: seq<string>)
  {
    exists i, t :: 0 <= i < |grants| && grants[i].0 == tool && t in targets
      && world.matches(Rule(grants[i].1, false), t)
  }

  lemma MatchingIsHit(world: World, table: map<string, seq<Rule>>, call: ToolCall)
    ensures Hit(world, table, call) <==> call.tool in table && Matching(world, table[call.tool], call.targets)
  {
    if Hit(world, table, call) {
      var rule :| rule in RulesFor(table, call.tool) && Applies(world, rule, call.targets);
      var t :| t in call.targets && world.matches(rule, t);
      assert call.tool in table && rule in table[call.tool];
    }
    if call.tool in table && Matching(world, table[call.tool], call.targets) {
      var rule, t :| rule in table[call.tool] && t in call.targets && world.matches(rule, t);
      assert Applies(world, rule, call.targets);
    }
  }

  lemma RememberedIsGranted(world: World, grants: seq<(string, string)>, call: ToolCall)
    ensures Granted(world, grants, call) <==> Remembered(world, grants, call.tool, call.targets)
  {
    if Granted(world, grants, call) {
      var t, g :| t in call.targets && g in grants && g.0 == call.tool && world.matches(Rule(g.1, false), t);
      var i :| 0 <= i < |grants| && grants[i] == g;
      assert grants[i].0 == call.tool && world.matches(Rule(grants[i].1, false), t);
    }
    if Remembered(world, grants, call.tool, call.targets) {
      var i, t :| 0 <= i < |grants| && grants[i].0 == call.tool && t in call.targets
        && world.matches(Rule(grants[i].1, false), t);
      assert grants[i] in grants && world.matches(Rule(grants[i].1, false), t);
    }
  }

  /** What a policy without overlay and ancestors decides: a deny rule comes first and a read-only flag
      second; then an ask rule, an allow rule or a grant; and what nothing names is up to the mode. */
  lemma AloneDecides(world: World, p: Policy, call: ToolCall)
    requires p.overlay.None? && p.parent.None?
    ensures
      var d := PolicyDecision(world, p, call);
      var denies := call.tool in p.rules.deny && Matching(world, p.rules.deny[call.tool], call.targets);
      var asks := call.tool in p.rules.ask && Matching(world, p.rules.ask[call.tool], call.targets);
      var allows := call.tool in p.rules.allow && Matching(world, p.rules.allow[call.tool], call.targets);
      var readClass := IsReadClass(world, call.tool, call.action);
      var remembers := Remembered(world, p.grants, call.tool, call.targets);
      && (d == Ask <==> asks && !denies && (p.readOnly ==> readClass))
      && (d == Allow <==>
            !denies && !asks && (p.readOnly ==> readClass) && (allows || remembers || readClass || p.mode.Yolo?))
      && (d == Deny <==>
            denies || (!readClass && (p.readOnly || (p.mode.ReadOnly? && !asks && !allows && !remembers))))
  {
    MatchingIsHit(world, p.rules.deny, call);
    MatchingIsHit(world, p.rules.ask, call);
    MatchingIsHit(world, p.rules.allow, call);
    RememberedIsGranted(world, p.grants, call);
  }

  /** What an overlay adds to its layer: its own deny rules and denied tools come first, and its own ask and
      allow rules before the policy's; its mode, if it has one, takes the place of the policy's. */
  lemma OverlayDecides(world: World, p: Policy, o: Overlay, call: ToolCall)
    ensures
      var d := BaseDecision(world, p, Some(o), call);
      var readClass := IsReadClass(world, call.tool, call.action);
      var denies := call.tool in o.extra.deny && Matching(world, o.extra.deny[call.tool], call.targets);
      var asks := call.tool in o.extra.ask && Matching(world, o.extra.ask[call.tool], call.targets);
      var allows := call.tool in o.extra.allow && Matching(world, o.extra.allow[call.tool], call.targets);
      var below := p.(mode := if o.mode.Some? then o.mode.value else p.mode, overlay := None, parent := None);
      && (denies || call.tool in o.denied ==> d == Deny)
      && (!denies && call.tool !in o.denied ==>
            if (asks || allows) && !Hit(world, p.rules.deny, call) && (p.readOnly ==> readClass)
            then d == (if asks then Ask else Allow)
            else d == PolicyDecision(world, below, call))
  {
    MatchingIsHit(world, o.extra.deny, call);
    MatchingIsHit(world, o.extra.ask, call);
    MatchingIsHit(world, o.extra.allow, call);
  }

  /** A bare policy without deny rules reports itself read-only exactly if it denies every call that is not
      read-class, whatever its patterns match. */
  lemma ReadOnlyExactly(world: World, p: Policy)
    requires p.overlay.None? && p.parent.None? && p.rules.deny == map[]
    requires !IsReadClass(world, "write", None)
    ensures IsReadOnly(world, p) <==> forall matches: (Rule, string) -> bool, call: ToolCall ::
      !IsReadClass(world, call.tool, call.action) ==>
        PolicyDecision(World(matches, world.readMcp), p, call) == Deny
  {
    if IsReadOnly(world, p) {
      forall matches: (Rule, string) -> bool, call: ToolCall | !IsReadClass(world, call.tool, call.action)
        ensures PolicyDecision(World(matches, world.readMcp), p, call) == Deny
      {
        SameReads(world, World(matches, world.readMcp), p);
        ReadOnlyDeniesWrites(World(matches, world.readMcp), p, call);
      }
    } else {
      var call := OpenCall(world, p);
      var all := World((rule, target) => true, world.readMcp);
      assert PolicyDecision(all, p, call) != Deny;
    }
  }

  lemma SameReads(world: World, other: World, p: Policy)
    requires other.readMcp == world.readMcp && p.overlay.None? && p.parent.None?
    ensures forall tool, action :: IsReadClass(other, tool, action) == IsReadClass(world, tool, action)
    ensures IsReadOnly(other, p) == IsReadOnly(world, p)
  {
  }

  lemma OpenCall(world: World, p: Policy) returns (call: ToolCall)
    requires p.overlay.None? && p.parent.None? && p.rules.deny == map[] && !IsReadOnly(world, p)
    requires !IsReadClass(world, "write", None)
    ensures !IsReadClass(world, call.tool, call.action)
    ensures PolicyDecision(World((rule, target) => true, world.readMcp), p, call) != Deny
  {
    var all := World((rule, target) => true, world.readMcp);
    SameReads(world, all, p);
    var tool := "write";
    if !p.mode.Yolo? {
      if OpensWrites(world, p.rules.allow) {
        tool :| tool in p.rules.allow && p.rules.allow[tool] != [] && !IsReadClass(world, tool, None);
        assert all.matches(p.rules.allow[tool][0], "") && p.rules.allow[tool][0] in p.rules.allow[tool];
      } else if OpensWrites(world, p.rules.ask) {
        tool :| tool in p.rules.ask && p.rules.ask[tool] != [] && !IsReadClass(world, tool, None);
        assert all.matches(p.rules.ask[tool][0], "") && p.rules.ask[tool][0] in p.rules.ask[tool];
      } else {
        var i :| 0 <= i < |p.grants| && !IsReadClass(world, p.grants[i].0, None);
        tool := p.grants[i].0;
        assert all.matches(Rule(p.grants[i].1, false), "");
      }
    }
    call := ToolCall(tool, None, "", [""]);
    assert "" in call.targets;
    AloneDecides(all, p, call);
  }

  // ---- doom loop ----

  /** What makes two calls identical. */
  function Identity(call: ToolCall): (string, string) { (call.tool, call.canonical) }

  /** How many calls at the end of the history are the same as its last one. */
  function Repeats(history: seq<(string, string)>): nat
  {
    if history == [] then 0
    else if |history| >= 2 && history[|history| - 2] == history[|history| - 1] then
      Repeats(history[..|history| - 1]) + 1
    else 1
  }

  /** `Repeats` is the length of the longest suffix of identical calls. */
  lemma {:induction false} RepeatsIsLongestRun(history: seq<(string, string)>)
    requires history != []
    ensures
      var n, last := |history|, history[|history| - 1];
      && 1 <= Repeats(history) <= n
      && (forall k :: n - Repeats(history) <= k < n ==> history[k] == last)
      && (Repeats(history) < n ==> history[n - Repeats(history) - 1] != last)
  {
    if |history| >= 2 && history[|history| - 2] == history[|history| - 1] {
      RepeatsIsLongestRun(history[..|history| - 1]);
    }
  }

  function Doomed(decision: Decision, count: nat): Decision
  {
    if count >= 4 then Deny else if count >= 3 && decision == Allow then Ask else decision
  }

  class DoomTracker {
    var lastCall: Option<(string, string)>
    var count: nat
    ghost var history: seq<(string, string)>

    ghost predicate Valid()
      reads this
    {
      && (lastCall.None? <==> history == [])
      && (history != [] ==> lastCall == Some(history[|history| - 1]) && count == Repeats(history))
    }

    constructor ()
      ensures Valid() && history == []
    {
      lastCall, count, history := None, 0, [];
    }

    method Record(call: ToolCall) returns (n: nat)
      requires Valid()
      modifies this
      ensures Valid() && history == old(history) + [Identity(call)]
      ensures n == Repeats(history)
    {
      assert (history + [Identity(call)])[..|history|] == history;
      if lastCall == Some(Identity(call)) {
        count := count + 1;
      } else {
        lastCall := Some(Identity(call));
        count := 1;
      }
      history := history + [Identity(call)];
      n := count;
    }

    /** The checker's verdict on one call, which it also counts. */
    method Check(world: World, p: Policy, call: ToolCall) returns (d: Decision)
      requires Valid()
      modifies this
      ensures Valid() && history == old(history) + [Identity(call)]
      ensures d == Doomed(PolicyDecision(world, p, call), Repeats(history))
    {
      var n := Record(call);
      d := Doomed(PolicyDecision(world, p, call), n);
    }
  }

  function Identities(calls: seq<ToolCall>): seq<(string, string)> { Map(calls, Identity) }

  /** The verdict on the `i`-th call of a series, each decided by the policy in force at that moment. */
  function Verdict(world: World, policies: seq<Policy>, calls: seq<ToolCall>, i: nat): Decision
    requires i < |calls| == |policies|
  {
    Doomed(PolicyDecision(world, policies[i], calls[i]), Repeats(Identities(calls[..i + 1])))
  }

  method CheckAll(world: World, policies: seq<Policy>, calls: seq<ToolCall>) returns (verdicts: seq<Decision>)
    requires |policies| == |calls|
    ensures |verdicts| == |calls|
    ensures forall i :: 0 <= i < |calls| ==> verdicts[i] == Verdict(world, policies, calls, i)
  {
    var doom := new DoomTracker();
    verdicts := [];
    for i := 0 to |calls|
      invariant doom.Valid() && |verdicts| == i
      invariant doom.history == Identities(calls[..i])
      invariant forall k :: 0 <= k < i ==> verdicts[k] == Verdict(world, policies, calls, k)
    {
      var d := doom.Check(world, policies[i], calls[i]);
      assert calls[..i + 1] == calls[..i] + [calls[i]];
      verdicts := verdicts + [d];
    }
  }

  /** The `n` calls up to the `i`-th are identical. */
  predicate SameCalls(calls: seq<ToolCall>, i: nat, n: nat)
    requires n <= i + 1 <= |calls|
  {
    forall k :: i + 1 - n <= k <= i ==> Identity(calls[k]) == Identity(calls[i])
  }

  lemma RepeatsCountsCalls(calls: seq<ToolCall>, i: nat, n: nat)
    requires 1 <= n <= i + 1 <= |calls|
    ensures Repeats(Identities(calls[..i + 1])) >= n <==> SameCalls(calls, i, n)
  {
    var history := Identities(calls[..i + 1]);
    RepeatsIsLongestRun(history);
    assert forall k :: 0 <= k <= i ==> history[k] == Identity(calls[k]);
  }

  /** Doom tracking only tightens the policy; it leaves a call alone unless it is at least the third
      identical one in a row, never lets that one through unasked, and always denies the fourth. */
  lemma DoomOnlyTightens(world: World, policies: seq<Policy>, calls: seq<ToolCall>, i: nat)
    requires i < |calls| == |policies|
    ensures
      var policy, verdict := PolicyDecision(world, policies[i], calls[i]), Verdict(world, policies, calls, i);
      && verdict.Rank() >= policy.Rank()
      && (verdict != policy ==> i >= 2 && SameCalls(calls, i, 3))
      && (i >= 2 && SameCalls(calls, i, 3) ==> verdict != Allow)
      && (i >= 3 && SameCalls(calls, i, 4) ==> verdict == Deny)
      && (verdict == Deny && policy != Deny ==> i >= 3 && SameCalls(calls, i, 4))
  {
    RepeatsIsLongestRun(Identities(calls[..i + 1]));
    if i >= 2 { RepeatsCountsCalls(calls, i, 3); }
    if i >= 3 { RepeatsCountsCalls(calls, i, 4); }
  }
}
