/** The keybindings file and its cache (`keybindings.ts`): tolerant loading, upsert, removal and the
    backfill of defaults at startup. Every operation that writes holds one semaphore, and a load that
    goes through the cache runs once for all who wait for it, so that each is a single step here. */
module KeybindingsConfig {
  import opened Prelude
  import G = WhenGrammar
  import W = WhenExpressions

  /** `when` is absent, or the text of a condition. */
  datatype Rule = Rule(key: string, command: string, when: Option<string>)

  datatype Shortcut = Shortcut(key: string, modKey: bool, metaKey: bool, ctrlKey: bool, altKey: bool, shiftKey: bool)

  datatype Resolved = Resolved(command: string, shortcut: Shortcut, when: Option<W.When>)

  const MAX_KEYBINDINGS_COUNT := 256

  /** One element of the JSON array: a rule, or something that does not decode as one. */
  datatype Entry = Decoded(rule: Rule) | Undecodable(text: string)

  /** The file is missing, is not a JSON array, or holds entries. */
  datatype File = Missing | NotAnArray | Entries(entries: seq<Entry>)

  datatype Issue = MalformedConfig | InvalidEntry(index: nat)

  datatype ConfigState = ConfigState(keybindings: seq<Resolved>, issues: seq<Issue>)

  datatype ConfigError = ExpectedArray | WriteFailed

  // ----- Shortcuts -----

  function EncodeShortcut(shortcut: Shortcut): Option<string> {
    if shortcut.key == "" then None
    else if shortcut.key != "+" && '+' in shortcut.key then None
    else Some(Pressed("mod+", shortcut.modKey, FromMeta(shortcut)))
  }

  /** The modifiers that are pressed, in this order, and then the key. */
  function FromMeta(shortcut: Shortcut): string { Pressed("meta+", shortcut.metaKey, FromCtrl(shortcut)) }

  function FromCtrl(shortcut: Shortcut): string { Pressed("ctrl+", shortcut.ctrlKey, FromAlt(shortcut)) }

  function FromAlt(shortcut: Shortcut): string { Pressed("alt+", shortcut.altKey, FromShift(shortcut)) }

  function FromShift(shortcut: Shortcut): string { Pressed("shift+", shortcut.shiftKey, Spelled(shortcut.key)) }

  function Pressed(modifier: string, pressed: bool, rest: string): string {
    if pressed then modifier + rest else rest
  }

  function Spelled(key: string): string { if key == " " then "space" else key }

  function Latest<T>(items: seq<T>): (latest: seq<T>)
    ensures |latest| <= MAX_KEYBINDINGS_COUNT
  {
    if |items| > MAX_KEYBINDINGS_COUNT then items[|items| - MAX_KEYBINDINGS_COUNT..] else items
  }

  function Without(rules: seq<Rule>, dropped: set<Rule>): seq<Rule> {
    if rules == [] then []
    else
      var last := rules[|rules| - 1];
      Without(rules[..|rules| - 1], dropped) + if last in dropped then [] else [last]
  }

  function AsEntries(rules: seq<Rule>): seq<Entry> {
    seq(|rules|, k requires 0 <= k < |rules| => Decoded(rules[k]))
  }

  /** What the service is built from: how a shortcut's text is read, and the default rules. */
  datatype Setup = Setup(parse: string -> Option<Shortcut>, defaults: seq<Rule>) {
    predicate Valid() {
      |defaults| <= MAX_KEYBINDINGS_COUNT
    }

    /** `compileResolvedKeybindingRule`. */
    function Compile(rule: Rule): Option<Resolved> {
      var shortcut := parse(rule.key);
      if shortcut.None? then None
      else if rule.when.None? then Some(Resolved(rule.command, shortcut.value, None))
      else
        var ast := W.Parse(rule.when.value);
        if ast.None? then None else Some(Resolved(rule.command, shortcut.value, ast))
    }

    predicate Compiles(rule: Rule) { Compile(rule).Some? }

    function CompileAll(rules: seq<Rule>): seq<Resolved> {
      if rules == [] then []
      else
        var last := Compile(rules[|rules| - 1]);
        CompileAll(rules[..|rules| - 1]) + if last.Some? then [last.value] else []
    }

    /** `compileResolvedKeybindingsConfig`. */
    function CompileConfig(rules: seq<Rule>): seq<Resolved> {
      Latest(CompileAll(rules))
    }

    /** The shortcut in its normal form, and the condition; none if it does not parse. */
    function Context(rule: Rule): Option<(string, string)> {
      var shortcut := parse(rule.key);
      if shortcut.None? then None
      else
        var encoded := EncodeShortcut(shortcut.value);
        if encoded.None? then None else Some((encoded.value, if rule.when.Some? then rule.when.value else ""))
    }

    predicate SameContext(left: Rule, right: Rule) {
      Context(left).Some? && Context(left) == Context(right)
    }

    // ----- Merging with the defaults -----

    function Retained(resolved: seq<Resolved>, overridden: set<string>): seq<Resolved> {
      if resolved == [] then []
      else
        var last := resolved[|resolved| - 1];
        Retained(resolved[..|resolved| - 1], overridden) + if last.command in overridden then [] else [last]
    }

    function Commands(custom: seq<Resolved>): set<string> {
      set binding <- custom :: binding.command
    }

    /** `mergeWithDefaultKeybindings`. */
    function Merge(custom: seq<Resolved>): seq<Resolved> {
      if custom == [] then CompileConfig(defaults)
      else Latest(Retained(CompileConfig(defaults), Commands(custom)) + custom)
    }

    // ----- Loading -----

    predicate Usable(entry: Entry) {
      entry.Decoded? && Compiles(entry.rule)
    }

    function GoodRules(entries: seq<Entry>): seq<Rule> {
      if entries == [] then []
      else
        var last := entries[|entries| - 1];
        GoodRules(entries[..|entries| - 1]) + if Usable(last) then [last.rule] else []
    }

    function Issues(entries: seq<Entry>): seq<Issue> {
      if entries == [] then []
      else Issues(entries[..|entries| - 1]) + if Usable(entries[|entries| - 1]) then [] else [InvalidEntry(|entries| - 1)]
    }

    function RulesOf(file: File): seq<Rule> {
      if file.Entries? then GoodRules(file.entries) else []
    }

    function IssuesOf(file: File): seq<Issue> {
      match file
      case Missing => []
      case NotAnArray => [MalformedConfig]
      case Entries(entries) => Issues(entries)
    }

    /** What a fresh load of the file gives. */
    function Load(file: File): ConfigState {
      ConfigState(Merge(CompileConfig(RulesOf(file))), IssuesOf(file))
    }

    // ----- The steps -----

    function UpsertedRules(custom: seq<Rule>, rule: Rule, replace: Option<Rule>): seq<Rule> {
      Latest(Without(custom, {rule} + if replace.Some? then {replace.value} else {}) + [rule])
    }

    // ----- Backfill -----

    predicate HasCommand(custom: seq<Rule>, command: string) {
      exists entry <- custom :: entry.command == command
    }

    predicate Conflicts(custom: seq<Rule>, rule: Rule) {
      exists entry <- custom :: SameContext(entry, rule)
    }

    predicate IsMissing(custom: seq<Rule>, rule: Rule) {
      !HasCommand(custom, rule.command) && !Conflicts(custom, rule)
    }

    function MissingDefaults(custom: seq<Rule>, rules: seq<Rule>): seq<Rule> {
      if rules == [] then []
      else
        var last := rules[|rules| - 1];
        MissingDefaults(custom, rules[..|rules| - 1]) + if IsMissing(custom, last) then [last] else []
    }

    function Appended(custom: seq<Rule>): seq<Rule> {
      var missing := MissingDefaults(custom, defaults);
      var slots := if |custom| < MAX_KEYBINDINGS_COUNT then MAX_KEYBINDINGS_COUNT - |custom| else 0;
      if |missing| < slots then missing else missing[..slots]
    }

    /** The file after the startup sync, if its write succeeds. */
    function Synced(file: File): File {
      if file.Missing? then Entries(AsEntries(defaults))
      else if IssuesOf(file) != [] || Appended(RulesOf(file)) == [] then file
      else Entries(AsEntries(RulesOf(file) + Appended(RulesOf(file))))
    }

    // ----- One operation, holding the semaphore -----

    /** Whether the operation writes, the disk accepts it, and the list is short enough to encode. */
    predicate Writes(rules: seq<Rule>, disk: bool) {
      disk && |rules| <= MAX_KEYBINDINGS_COUNT
    }

    function AfterWrite(state: State, rules: seq<Rule>, disk: bool): State {
      if Writes(rules, disk) then State(Entries(AsEntries(rules)), Some(ConfigState(Merge(CompileConfig(rules)), []))) else state
    }

    function Step(state: State, operation: Operation): State {
      match operation
      case Get => if state.cache.Some? then state else state.(cache := Some(Load(state.file)))
      case Revalidate => state.(cache := Some(Load(state.file)))
      case Upsert(rule, replace, disk) =>
        if state.file.NotAnArray? then state else AfterWrite(state, UpsertedRules(RulesOf(state.file), rule, replace), disk)
      case Remove(target, disk) =>
        if state.file.NotAnArray? then state else AfterWrite(state, Without(RulesOf(state.file), {target}), disk)
      case Sync(disk) =>
        if Synced(state.file) != state.file && !disk then state else State(Synced(state.file), None)
      case Edit(file) => state.(file := file)
      case Interrupted(change) => state.(file := Step(state, change).file)
    }

    function Run(state: State, operations: seq<Operation>): State {
      if operations == [] then state else Step(Run(state, operations[..|operations| - 1]), operations[|operations| - 1])
    }

    /** A filled cache holds what a fresh load of the file would. */
    predicate Coherent(state: State) {
      state.cache.Some? ==> state.cache.value == Load(state.file)
    }
  }

  datatype State = State(file: File, cache: Option<ConfigState>)

  /** `disk` says whether the disk takes the write. An edit is somebody else writing the file. A change can
      be interrupted after it wrote the file and before it touched the cache. */
  datatype Operation =
    | Get
    | Revalidate
    | Upsert(rule: Rule, replace: Option<Rule>, disk: bool)
    | Remove(target: Rule, disk: bool)
    | Sync(disk: bool)
    | Edit(file: File)
    | Interrupted(change: Operation)

  // ----- What a rule compiles to -----

  /** A rule compiles to a binding exactly if its key reads as the binding's shortcut, its command is the binding's,
      and its condition, if it has one, lays out a derivation of the binding's condition. */
  lemma CompilesExactly(setup: Setup, rule: Rule, binding: Resolved)
    ensures setup.Compile(rule) == Some(binding) <==>
      && setup.parse(rule.key) == Some(binding.shortcut) && rule.command == binding.command
      && (rule.when.Some? <==> binding.when.Some?)
      && (rule.when.Some? && binding.when.Some? ==>
            exists tokens :: G.LaysOut(rule.when.value, tokens) && G.Derives(tokens, binding.when.value))
  {
    if rule.when.Some? && binding.when.Some? {
      G.ParsesExactly(rule.when.value, binding.when.value);
    }
  }

  // ----- When two rules have the same shortcut context -----

  predicate IsEncodable(shortcut: Shortcut) {
    shortcut.key != "" && (shortcut.key == "+" || '+' !in shortcut.key)
  }

  lemma PressedIsRead(modifier: string, p: bool, u: string, q: bool, v: string)
    requires !(modifier <= u) && !(modifier <= v) && Pressed(modifier, p, u) == Pressed(modifier, q, v)
    ensures p == q && u == v
  {
    assert modifier <= modifier + u && modifier <= modifier + v;
    assert u == (modifier + u)[|modifier|..] && v == (modifier + v)[|modifier|..];
  }

  /** A key is not taken for a modifier, as a modifier's text goes on after its plus. */
  lemma KeyIsNoModifier(shortcut: Shortcut, modifier: string)
    requires IsEncodable(shortcut) && |modifier| > 1 && '+' in modifier
    ensures !(modifier <= Spelled(shortcut.key))
  {
  }

  lemma PressedIsOther(modifier: string, other: string, pressed: bool, rest: string)
    requires |modifier| > 1 && |other| > 1 && (modifier[0] != other[0] || modifier[1] != other[1]) && !(modifier <= rest)
    ensures !(modifier <= Pressed(other, pressed, rest))
  {
    var text := other + rest;
    assert text[0] == other[0] && text[1] == other[1];
  }

  /** No later modifier and no key begins like this one. */
  lemma NoneBeginsLike(shortcut: Shortcut, modifier: string)
    requires IsEncodable(shortcut) && modifier in {"shift+", "alt+", "ctrl+", "meta+", "mod+"}
    ensures !(modifier <= Spelled(shortcut.key))
    ensures modifier != "shift+" ==> !(modifier <= FromShift(shortcut))
    ensures modifier !in {"shift+", "alt+"} ==> !(modifier <= FromAlt(shortcut))
    ensures modifier in {"meta+", "mod+"} ==> !(modifier <= FromCtrl(shortcut))
    ensures modifier == "mod+" ==> !(modifier <= FromMeta(shortcut))
  {
    KeyIsNoModifier(shortcut, modifier);
    if modifier != "shift+" {
      PressedIsOther(modifier, "shift+", shortcut.shiftKey, Spelled(shortcut.key));
      if modifier != "alt+" {
        PressedIsOther(modifier, "alt+", shortcut.altKey, FromShift(shortcut));
        if modifier != "ctrl+" {
          PressedIsOther(modifier, "ctrl+", shortcut.ctrlKey, FromAlt(shortcut));
          if modifier != "meta+" {
            PressedIsOther(modifier, "meta+", shortcut.metaKey, FromCtrl(shortcut));
          }
        }
      }
    }
  }

  lemma AltIsRead(a: Shortcut, b: Shortcut)
    requires IsEncodable(a) && IsEncodable(b) && FromAlt(a) == FromAlt(b)
    ensures a.altKey == b.altKey && a.shiftKey == b.shiftKey && Spelled(a.key) == Spelled(b.key)
  {
    NoneBeginsLike(a, "alt+");
    NoneBeginsLike(b, "alt+");
    PressedIsRead("alt+", a.altKey, FromShift(a), b.altKey, FromShift(b));
    NoneBeginsLike(a, "shift+");
    NoneBeginsLike(b, "shift+");
    PressedIsRead("shift+", a.shiftKey, Spelled(a.key), b.shiftKey, Spelled(b.key));
  }

  lemma MetaIsRead(a: Shortcut, b: Shortcut)
    requires IsEncodable(a) && IsEncodable(b) && FromMeta(a) == FromMeta(b)
    ensures a.metaKey == b.metaKey && a.ctrlKey == b.ctrlKey && FromAlt(a) == FromAlt(b)
  {
    NoneBeginsLike(a, "meta+");
    NoneBeginsLike(b, "meta+");
    PressedIsRead("meta+", a.metaKey, FromCtrl(a), b.metaKey, FromCtrl(b));
    NoneBeginsLike(a, "ctrl+");
    NoneBeginsLike(b, "ctrl+");
    PressedIsRead("ctrl+", a.ctrlKey, FromAlt(a), b.ctrlKey, FromAlt(b));
  }

  /** The text of a shortcut says which shortcut it is, but for the two spellings of the space bar. */
  lemma EncodedShortcutsDiffer(a: Shortcut, b: Shortcut)
    requires IsEncodable(a) && IsEncodable(b) && EncodeShortcut(a) == EncodeShortcut(b)
    ensures a.(key := Spelled(a.key)) == b.(key := Spelled(b.key))
  {
    NoneBeginsLike(a, "mod+");
    NoneBeginsLike(b, "mod+");
    PressedIsRead("mod+", a.modKey, FromMeta(a), b.modKey, FromMeta(b));
    MetaIsRead(a, b);
    AltIsRead(a, b);
  }

  predicate SameShortcut(a: Shortcut, b: Shortcut) {
    IsEncodable(a) && IsEncodable(b) && a.(key := Spelled(a.key)) == b.(key := Spelled(b.key))
  }

  lemma SameShortcutsEncodeAlike(a: Shortcut, b: Shortcut)
    requires SameShortcut(a, b)
    ensures EncodeShortcut(a) == EncodeShortcut(b)
  {
  }

  function WhenText(rule: Rule): string { if rule.when.Some? then rule.when.value else "" }

  /** Two rules have the same shortcut context exactly if both keys parse to the same shortcut, one with a key
      that can be written, and their conditions have the same text, an absent one counting as empty. */
  lemma SameContextExactly(setup: Setup, left: Rule, right: Rule)
    ensures setup.SameContext(left, right) <==>
      && setup.parse(left.key).Some? && setup.parse(right.key).Some?
      && SameShortcut(setup.parse(left.key).value, setup.parse(right.key).value)
      && WhenText(left) == WhenText(right)
  {
    if setup.parse(left.key).Some? && setup.parse(right.key).Some? {
      var a, b := setup.parse(left.key).value, setup.parse(right.key).value;
      if setup.SameContext(left, right) {
        EncodedShortcutsDiffer(a, b);
      }
      if SameShortcut(a, b) {
        SameShortcutsEncodeAlike(a, b);
      }
    }
  }

  /** The rule a binding is written as: `ResolvedKeybindingFromConfig` in its other direction. */
  function EncodeRule(binding: Resolved): Option<Rule> {
    var key := EncodeShortcut(binding.shortcut);
    if key.None? then None
    else Some(Rule(key.value, binding.command, if binding.when.Some? then Some(W.Encode(binding.when.value)) else None))
  }

  /** A binding that was written as a rule compiles back to itself exactly if the key's text reads as its
      shortcut, the names of its condition are names, and its parentheses are not too deep. */
  lemma RuleReadsBackExactly(setup: Setup, binding: Resolved)
    requires EncodeRule(binding).Some?
    ensures setup.Compile(EncodeRule(binding).value) == Some(binding) <==>
      && setup.parse(EncodeShortcut(binding.shortcut).value) == Some(binding.shortcut)
      && (binding.when.Some? ==> W.ValidNames(binding.when.value) && W.Depth(binding.when.value) <= 64)
  {
    if binding.when.Some? {
      W.ReadsBackExactly(binding.when.value);
    }
  }

  // ----- Which items a list keeps, and in which order -----

  ghost function UsablePlaces(setup: Setup, entries: seq<Entry>): set<nat> {
    set place: nat | place < |entries| && entries[place].Decoded? && setup.Compile(entries[place].rule).Some?
  }

  lemma UsablePlacesGrow(setup: Setup, entries: seq<Entry>, entry: Entry)
    ensures UsablePlaces(setup, entries + [entry])
         == UsablePlaces(setup, entries) + if entry.Decoded? && setup.Compile(entry.rule).Some? then {|entries|} else {}
  {
  }

  /** Loading a file gives the rules of the entries that decode and compile, in their order ... */
  lemma {:induction false} GoodRulesAre(setup: Setup, entries: seq<Entry>) returns (at: seq<nat>)
    ensures ArePlaces(at, UsablePlaces(setup, entries)) && |at| == |setup.GoodRules(entries)|
    ensures forall k :: 0 <= k < |at| ==> at[k] < |entries| && entries[at[k]] == Decoded(setup.GoodRules(entries)[k])
  {
    at := [];
    if entries != [] {
      var n := |entries| - 1;
      at := GoodRulesAre(setup, entries[..n]);
      UsablePlacesGrow(setup, entries[..n], entries[n]);
      assert entries == entries[..n] + [entries[n]];
      if setup.Usable(entries[n]) {
        OneMorePlace(at, UsablePlaces(setup, entries[..n]), n);
        at := at + [n];
      }
    }
  }

  ghost function BadPlaces(setup: Setup, entries: seq<Entry>): set<nat> {
    set place: nat | place < |entries| && (entries[place].Decoded? ==> setup.Compile(entries[place].rule).None?)
  }

  lemma BadPlacesGrow(setup: Setup, entries: seq<Entry>, entry: Entry)
    ensures BadPlaces(setup, entries + [entry])
         == BadPlaces(setup, entries) + if entry.Decoded? && setup.Compile(entry.rule).Some? then {} else {|entries|}
  {
  }

  /** ... and an issue with its index for every other entry. */
  lemma {:induction false} IssuesAre(setup: Setup, entries: seq<Entry>) returns (at: seq<nat>)
    ensures ArePlaces(at, BadPlaces(setup, entries)) && |at| == |setup.Issues(entries)|
    ensures forall k :: 0 <= k < |at| ==> setup.Issues(entries)[k] == InvalidEntry(at[k])
  {
    at := [];
    if entries != [] {
      var n := |entries| - 1;
      at := IssuesAre(setup, entries[..n]);
      BadPlacesGrow(setup, entries[..n], entries[n]);
      assert entries == entries[..n] + [entries[n]];
      if !setup.Usable(entries[n]) {
        OneMorePlace(at, BadPlaces(setup, entries[..n]), n);
        at := at + [n];
      }
    }
  }

  ghost function CompiledPlaces(setup: Setup, rules: seq<Rule>): set<nat> {
    set place: nat | place < |rules| && setup.Compile(rules[place]).Some?
  }

  lemma CompiledPlacesGrow(setup: Setup, rules: seq<Rule>, rule: Rule)
    ensures CompiledPlaces(setup, rules + [rule]) == CompiledPlaces(setup, rules) + if setup.Compile(rule).Some? then {|rules|} else {}
  {
  }

  /** Compiling a list gives what each rule that compiles resolves to, in their order. */
  lemma {:induction false} CompiledAre(setup: Setup, rules: seq<Rule>) returns (at: seq<nat>)
    ensures ArePlaces(at, CompiledPlaces(setup, rules)) && |at| == |setup.CompileAll(rules)|
    ensures forall k :: 0 <= k < |at| ==> at[k] < |rules| && setup.Compile(rules[at[k]]) == Some(setup.CompileAll(rules)[k])
  {
    at := [];
    if rules != [] {
      var n := |rules| - 1;
      at := CompiledAre(setup, rules[..n]);
      CompiledPlacesGrow(setup, rules[..n], rules[n]);
      assert rules == rules[..n] + [rules[n]];
      if setup.Compile(rules[n]).Some? {
        OneMorePlace(at, CompiledPlaces(setup, rules[..n]), n);
        at := at + [n];
      }
    }
  }

  ghost function KeptPlaces(rules: seq<Rule>, dropped: set<Rule>): set<nat> {
    set place: nat | place < |rules| && rules[place] !in dropped
  }

  lemma KeptPlacesGrow(rules: seq<Rule>, rule: Rule, dropped: set<Rule>)
    ensures KeptPlaces(rules + [rule], dropped) == KeptPlaces(rules, dropped) + if rule in dropped then {} else {|rules|}
  {
  }

  /** Dropping rules keeps all others, in their order. */
  lemma {:induction false} WithoutKeeps(rules: seq<Rule>, dropped: set<Rule>) returns (at: seq<nat>)
    ensures ArePlaces(at, KeptPlaces(rules, dropped)) && |at| == |Without(rules, dropped)|
    ensures forall k :: 0 <= k < |at| ==> at[k] < |rules| && Without(rules, dropped)[k] == rules[at[k]]
  {
    at := [];
    if rules != [] {
      var n := |rules| - 1;
      at := WithoutKeeps(rules[..n], dropped);
      KeptPlacesGrow(rules[..n], rules[n], dropped);
      assert rules == rules[..n] + [rules[n]];
      if rules[n] !in dropped {
        OneMorePlace(at, KeptPlaces(rules[..n], dropped), n);
        at := at + [n];
      }
    }
  }

  // ----- What compiling and loading keep -----

  lemma {:induction false} WrittenEntriesLoad(setup: Setup, rules: seq<Rule>)
    requires forall rule <- rules :: setup.Compiles(rule)
    ensures setup.GoodRules(AsEntries(rules)) == rules && setup.Issues(AsEntries(rules)) == []
  {
    if rules != [] {
      var front, last := rules[..|rules| - 1], rules[|rules| - 1];
      assert AsEntries(rules)[..|rules| - 1] == AsEntries(front);
      assert last in rules;
      WrittenEntriesLoad(setup, front);
      assert rules == front + [last];
    }
  }

  lemma {:induction false} LoadedRulesCompile(setup: Setup, entries: seq<Entry>)
    ensures forall rule <- setup.GoodRules(entries) :: setup.Compiles(rule)
    ensures |setup.GoodRules(entries)| <= |entries|
  {
    if entries != [] {
      LoadedRulesCompile(setup, entries[..|entries| - 1]);
    }
  }

  lemma {:induction false} WithoutIs(rules: seq<Rule>, dropped: set<Rule>)
    ensures forall rule :: rule in Without(rules, dropped) <==> rule in rules && rule !in dropped
    ensures |Without(rules, dropped)| <= |rules|
  {
    if rules != [] {
      WithoutIs(rules[..|rules| - 1], dropped);
      assert rules == rules[..|rules| - 1] + [rules[|rules| - 1]];
    }
  }

  // ----- The cache agrees with the file -----

  /** Rules that do not compile resolve to nothing, so a load gives the bindings the rules resolve to. */
  lemma {:induction false} UncompiledRulesResolveToNothing(setup: Setup, rules: seq<Rule>)
    ensures setup.CompileAll(setup.GoodRules(AsEntries(rules))) == setup.CompileAll(rules)
  {
    if rules != [] {
      assert AsEntries(rules)[..|rules| - 1] == AsEntries(rules[..|rules| - 1]);
      UncompiledRulesResolveToNothing(setup, rules[..|rules| - 1]);
      var front, last := setup.GoodRules(AsEntries(rules[..|rules| - 1])), rules[|rules| - 1];
      assert (front + [last])[..|front|] == front && front + [] == front;
      assert setup.GoodRules(AsEntries(rules)) == front + if setup.Compiles(last) then [last] else [];
    }
  }

  lemma LoadOfWrittenRules(setup: Setup, rules: seq<Rule>)
    ensures setup.Load(Entries(AsEntries(rules))) == ConfigState(setup.Merge(setup.CompileConfig(rules)), setup.Issues(AsEntries(rules)))
  {
    UncompiledRulesResolveToNothing(setup, rules);
  }

  lemma IssuesOfAppended(setup: Setup, front: seq<Rule>, last: Rule)
    requires forall rule <- front :: setup.Compiles(rule)
    ensures setup.Issues(AsEntries(front + [last])) == if setup.Compiles(last) then [] else [InvalidEntry(|front|)]
  {
    WrittenEntriesLoad(setup, front);
    assert AsEntries(front + [last]) == AsEntries(front) + [Decoded(last)];
    IssuesOfOneMore(setup, AsEntries(front), Decoded(last));
  }

  lemma IssuesOfOneMore(setup: Setup, entries: seq<Entry>, entry: Entry)
    ensures setup.Issues(entries + [entry]) == setup.Issues(entries) + if setup.Usable(entry) then [] else [InvalidEntry(|entries|)]
  {
    assert (entries + [entry])[..|entries|] == entries;
  }

  /** After rules were written and the cache was filled from them, the two agree exactly when the last
      rule compiles, if the ones before it do: for one that does not, a fresh load reports an issue
      that the cache lacks. */
  lemma AgreesAfterWriteExactly(setup: Setup, front: seq<Rule>, last: Rule)
    requires forall rule <- front :: setup.Compiles(rule)
    ensures setup.Load(Entries(AsEntries(front + [last]))) == ConfigState(setup.Merge(setup.CompileConfig(front + [last])), [])
       <==> setup.Compiles(last)
  {
    LoadOfWrittenRules(setup, front + [last]);
    IssuesOfAppended(setup, front, last);
  }

  lemma UpsertedShape(setup: Setup, custom: seq<Rule>, rule: Rule, replace: Option<Rule>)
    ensures var rules := setup.UpsertedRules(custom, rule, replace);
      && 0 < |rules| <= MAX_KEYBINDINGS_COUNT && rules[|rules| - 1] == rule
      && forall other <- rules[..|rules| - 1] :: other in custom && other != rule && Some(other) != replace
  {
    var kept := Without(custom, {rule} + if replace.Some? then {replace.value} else {});
    WithoutIs(custom, {rule} + if replace.Some? then {replace.value} else {});
    var rules := setup.UpsertedRules(custom, rule, replace);
    var from := |kept| + 1 - |rules|;
    assert rules == (kept + [rule])[from..];
    assert rules[..|rules| - 1] == kept[from..];
  }

  /** An upsert deletes nothing else: before the rule stand all the rules other than it and the one it replaces,
      in their order, but for the oldest of them when more than 255 are left, and no more of those than needed. */
  lemma UpsertKeepsOthers(setup: Setup, custom: seq<Rule>, rule: Rule, replace: Option<Rule>) returns (at: seq<nat>, oldest: nat)
    ensures ArePlaces(at, set place: nat | place < |custom| && custom[place] != rule && Some(custom[place]) != replace)
    ensures oldest == if |at| > 255 then |at| - 255 else 0
    ensures var rules := setup.UpsertedRules(custom, rule, replace);
      && |rules| == |at| - oldest + 1 && rules[|rules| - 1] == rule
      && forall k :: 0 <= k < |rules| - 1 ==> at[oldest + k] < |custom| && rules[k] == custom[at[oldest + k]]
  {
    var dropped := {rule} + if replace.Some? then {replace.value} else {};
    at := WithoutKeeps(custom, dropped);
    oldest := if |at| > 255 then |at| - 255 else 0;
    assert KeptPlaces(custom, dropped)
        == (set place: nat | place < |custom| && custom[place] != rule && Some(custom[place]) != replace);
  }

  /** An upsert that was written leaves cache and file in agreement exactly when its rule compiles. */
  lemma UpsertAgreesExactly(setup: Setup, state: State, rule: Rule, replace: Option<Rule>)
    requires !state.file.NotAnArray?
    ensures setup.Coherent(setup.Step(state, Upsert(rule, replace, true))) <==> setup.Compiles(rule)
  {
    var custom := setup.RulesOf(state.file);
    var rules := setup.UpsertedRules(custom, rule, replace);
    FileRulesCompile(setup, state.file);
    UpsertedShape(setup, custom, rule, replace);
    var front := rules[..|rules| - 1];
    assert rules == front + [rule];
    AgreesAfterWriteExactly(setup, front, rule);
  }

  /** The case exists: a rule whose shortcut does not parse is accepted, and the cache hides its issue. */
  lemma BrokenRuleDisagrees() returns (setup: Setup, state: State, rule: Rule)
    ensures setup.Valid() && setup.Coherent(state) && !setup.Coherent(setup.Step(state, Upsert(rule, None, true)))
  {
    setup, state, rule := Setup(text => None, []), State(Missing, None), Rule("?", "command", None);
    UpsertAgreesExactly(setup, state, rule, None);
  }

  lemma {:induction false} WithoutOthers(rules: seq<Rule>, dropped: set<Rule>)
    requires forall rule <- rules :: rule !in dropped
    ensures Without(rules, dropped) == rules
  {
    if rules != [] {
      var front, last := rules[..|rules| - 1], rules[|rules| - 1];
      assert last in rules;
      WithoutOthers(front, dropped);
      assert rules == front + [last];
    }
  }

  /** A file may hold more usable rules than the schema allows; removing one of them is refused unless
      that alone brings the list within the limit. */
  lemma CrowdedRemovalIsRefused() returns (setup: Setup, state: State, target: Rule)
    ensures setup.Valid() && target in setup.RulesOf(state.file)
    ensures setup.Step(state, Remove(target, true)) == state
  {
    setup := Setup(text => Some(Shortcut("a", false, false, false, false, false)), []);
    target := Rule("a", "drop", None);
    var others := seq(257, _ => Rule("a", "keep", None));
    state := State(Entries(AsEntries(others + [target])), None);
    RemovalLeavesOthers(setup, others, target);
  }

  lemma RemovalLeavesOthers(setup: Setup, others: seq<Rule>, target: Rule)
    requires target !in others && forall rule <- others + [target] :: setup.Compiles(rule)
    ensures setup.GoodRules(AsEntries(others + [target])) == others + [target]
    ensures Without(others + [target], {target}) == others
  {
    WrittenEntriesLoad(setup, others + [target]);
    WithoutOthers(others, {target});
    assert (others + [target])[..|others|] == others;
    assert Without(others, {target}) + [] == others;
  }

  lemma FileRulesCompile(setup: Setup, file: File)
    ensures forall rule <- setup.RulesOf(file) :: setup.Compiles(rule)
  {
    if file.Entries? {
      LoadedRulesCompile(setup, file.entries);
    }
  }

  lemma WrittenFileLoads(setup: Setup, rules: seq<Rule>)
    requires forall rule <- rules :: setup.Compiles(rule)
    ensures setup.Load(Entries(AsEntries(rules))) == ConfigState(setup.Merge(setup.CompileConfig(rules)), [])
  {
    WrittenEntriesLoad(setup, rules);
  }

  lemma RemainingCompile(setup: Setup, file: File, target: Rule)
    ensures forall rule <- Without(setup.RulesOf(file), {target}) :: setup.Compiles(rule)
  {
    FileRulesCompile(setup, file);
    WithoutIs(setup.RulesOf(file), {target});
  }

  lemma WriteAgrees(setup: Setup, state: State, rules: seq<Rule>, disk: bool)
    requires setup.Coherent(state) && forall rule <- rules :: setup.Compiles(rule)
    ensures setup.Coherent(setup.AfterWrite(state, rules, disk))
  {
    WrittenFileLoads(setup, rules);
  }

  lemma RemoveAgrees(setup: Setup, state: State, target: Rule, disk: bool)
    requires setup.Coherent(state)
    ensures setup.Coherent(setup.Step(state, Remove(target, disk)))
  {
    RemainingCompile(setup, state.file, target);
    WriteAgrees(setup, state, Without(setup.RulesOf(state.file), {target}), disk);
  }

  predicate KeepsAgreement(setup: Setup, operation: Operation) {
    !operation.Edit? && !operation.Interrupted? && (operation.Upsert? ==> setup.Compiles(operation.rule))
  }

  lemma StepAgrees(setup: Setup, state: State, operation: Operation)
    requires setup.Coherent(state) && KeepsAgreement(setup, operation)
    ensures setup.Coherent(setup.Step(state, operation))
  {
    if operation.Upsert? && !state.file.NotAnArray? {
      UpsertAgreesExactly(setup, state, operation.rule, operation.replace);
      UpsertedShape(setup, setup.RulesOf(state.file), operation.rule, operation.replace);
    }
    if operation.Remove? {
      RemoveAgrees(setup, state, operation.target, operation.disk);
    }
  }

  /** Over any run of reads, revalidations, upserts of rules that compile, removals and startup syncs,
      whatever writes fail, a filled cache equals a fresh load of the file. */
  lemma {:induction false} RunAgrees(setup: Setup, state: State, operations: seq<Operation>)
    requires setup.Coherent(state)
    requires forall operation <- operations :: KeepsAgreement(setup, operation)
    ensures setup.Coherent(setup.Run(state, operations))
  {
    if operations != [] {
      var front, last := operations[..|operations| - 1], operations[|operations| - 1];
      assert last in operations;
      RunAgrees(setup, state, front);
      StepAgrees(setup, setup.Run(state, front), last);
    }
  }

  /** Revalidating restores the agreement, whatever was edited before, and a run then keeps it. */
  lemma RunAgreesAfterRevalidate(setup: Setup, state: State, operations: seq<Operation>)
    requires forall operation <- operations :: KeepsAgreement(setup, operation)
    ensures setup.Coherent(setup.Run(setup.Step(state, Revalidate), operations))
    ensures setup.Step(state, Revalidate).cache == Some(setup.Load(state.file))
  {
    RunAgrees(setup, setup.Step(state, Revalidate), operations);
  }

  // ----- When agreement is lost and when it returns -----

  /** The rules a change would write, if it can read the file. */
  function ChangedRules(setup: Setup, state: State, operation: Operation): seq<Rule>
    requires operation.Upsert? || operation.Remove?
  {
    if operation.Upsert? then setup.UpsertedRules(setup.RulesOf(state.file), operation.rule, operation.replace)
    else Without(setup.RulesOf(state.file), {operation.target})
  }

  predicate WritesRules(setup: Setup, state: State, operation: Operation) {
    && (operation.Upsert? || operation.Remove?) && !state.file.NotAnArray?
    && setup.Writes(ChangedRules(setup, state, operation), operation.disk)
  }

  /** After this the cache is right or empty, whatever it held before. */
  predicate Renews(setup: Setup, state: State, operation: Operation) {
    match operation
    case Revalidate => true
    case Sync(disk) => disk || setup.Synced(state.file) == state.file
    case Upsert(rule, _, _) => WritesRules(setup, state, operation) && setup.Compiles(rule)
    case Remove(_, _) => WritesRules(setup, state, operation)
    case _ => false
  }

  /** This can leave the cache behind the file. */
  predicate Disturbs(setup: Setup, state: State, operation: Operation) {
    operation.Edit? || operation.Interrupted? || (operation.Upsert? && WritesRules(setup, state, operation) && !setup.Compiles(operation.rule))
  }

  lemma RenewalAgrees(setup: Setup, state: State, operation: Operation)
    requires Renews(setup, state, operation)
    ensures setup.Coherent(setup.Step(state, operation))
  {
    if operation.Upsert? {
      UpsertAgreesExactly(setup, state, operation.rule, operation.replace);
      assert setup.Step(state, operation) == setup.Step(state, Upsert(operation.rule, operation.replace, true));
    } else if operation.Remove? {
      RemainingCompile(setup, state.file, operation.target);
      WrittenFileLoads(setup, ChangedRules(setup, state, operation));
    }
  }

  /** A cache that is behind the file stays so, with the file, until an operation renews it: whatever else
      happens meanwhile changes nothing. */
  lemma StaleUntilRenewed(setup: Setup, state: State, operation: Operation)
    requires !setup.Coherent(state) && !Disturbs(setup, state, operation)
    ensures if Renews(setup, state, operation) then setup.Coherent(setup.Step(state, operation)) else setup.Step(state, operation) == state
  {
    if Renews(setup, state, operation) {
      RenewalAgrees(setup, state, operation);
    }
  }

  /** An interrupted change loses the agreement exactly when it changed what the file loads to and the
      cache was filled. */
  lemma InterruptionAgreesExactly(setup: Setup, state: State, change: Operation)
    requires setup.Coherent(state)
    ensures setup.Coherent(setup.Step(state, Interrupted(change))) <==>
      state.cache.None? || setup.Load(setup.Step(state, change).file) == setup.Load(state.file)
  {
  }

  /** Something disturbed the cache and nothing has renewed it since. */
  predicate IsDisturbed(setup: Setup, state: State, operations: seq<Operation>) {
    if operations == [] then false
    else
      var front, last := operations[..|operations| - 1], operations[|operations| - 1];
      var now := setup.Run(state, front);
      !Renews(setup, now, last) && (Disturbs(setup, now, last) || IsDisturbed(setup, state, front))
  }

  lemma CalmStepAgrees(setup: Setup, state: State, operation: Operation)
    requires setup.Coherent(state) && !Disturbs(setup, state, operation)
    ensures setup.Coherent(setup.Step(state, operation))
  {
    if Renews(setup, state, operation) {
      RenewalAgrees(setup, state, operation);
    }
  }

  /** Over any run at all, also with edits, interruptions and rules that do not compile: the cache agrees
      with the file unless something disturbed it and nothing renewed it since. */
  lemma {:induction false} RunAgreesUnlessDisturbed(setup: Setup, state: State, operations: seq<Operation>)
    requires setup.Coherent(state) && !IsDisturbed(setup, state, operations)
    ensures setup.Coherent(setup.Run(state, operations))
  {
    if operations != [] {
      var front, last := operations[..|operations| - 1], operations[|operations| - 1];
      if Renews(setup, setup.Run(state, front), last) {
        RenewalAgrees(setup, setup.Run(state, front), last);
      } else {
        RunAgreesUnlessDisturbed(setup, state, front);
        CalmStepAgrees(setup, setup.Run(state, front), last);
      }
    }
  }

  /** An interruption does disturb: a first rule is written to a missing file, and the cache still holds
      the defaults alone. */
  lemma InterruptedUpsertDisagrees() returns (setup: Setup, state: State, rule: Rule)
    ensures setup.Valid() && setup.Coherent(state) && setup.Compiles(rule)
    ensures !setup.Coherent(setup.Step(state, Interrupted(Upsert(rule, None, true))))
  {
    setup := Setup(text => Some(Shortcut("a", false, false, false, false, false)), []);
    rule := Rule("a", "command", None);
    state := State(Missing, Some(setup.Load(Missing)));
    var resolved := setup.Compile(rule).value;
    assert setup.UpsertedRules([], rule, None) == [rule];
    WrittenEntriesLoad(setup, [rule]);
    assert setup.CompileAll([rule]) == [resolved];
    assert setup.Load(Entries(AsEntries([rule]))).keybindings == setup.Merge([resolved]);
    var at, oldest := MergeKeepsCustom(setup, [resolved]);
  }

  // ----- Merging keeps the user's rules -----

  ghost function UnboundPlaces(defaults: seq<Resolved>, custom: seq<Resolved>): set<nat> {
    set place: nat | place < |defaults| && forall binding <- custom :: binding.command != defaults[place].command
  }

  lemma UnboundPlacesGrow(defaults: seq<Resolved>, binding: Resolved, custom: seq<Resolved>)
    ensures UnboundPlaces(defaults + [binding], custom)
         == UnboundPlaces(defaults, custom) + if forall other <- custom :: other.command != binding.command then {|defaults|} else {}
  {
  }

  lemma {:induction false} RetainedAre(setup: Setup, defaults: seq<Resolved>, custom: seq<Resolved>) returns (at: seq<nat>)
    ensures ArePlaces(at, UnboundPlaces(defaults, custom)) && |at| == |setup.Retained(defaults, setup.Commands(custom))|
    ensures forall k :: 0 <= k < |at| ==> at[k] < |defaults| && setup.Retained(defaults, setup.Commands(custom))[k] == defaults[at[k]]
  {
    at := [];
    if defaults != [] {
      var n := |defaults| - 1;
      at := RetainedAre(setup, defaults[..n], custom);
      UnboundPlacesGrow(defaults[..n], defaults[n], custom);
      assert defaults == defaults[..n] + [defaults[n]];
      if defaults[n].command !in setup.Commands(custom) {
        OneMorePlace(at, UnboundPlaces(defaults[..n], custom), n);
        at := at + [n];
      }
    }
  }

  /** The merged list ends with all of the user's bindings in their order, and before them stand, in their
      order, all the defaults for commands the user has not bound, but for the first of them when the whole
      would exceed 256 bindings. */
  lemma MergeKeepsCustom(setup: Setup, custom: seq<Resolved>) returns (at: seq<nat>, oldest: nat)
    requires |custom| <= MAX_KEYBINDINGS_COUNT
    ensures var merged, defaults := setup.Merge(custom), setup.CompileConfig(setup.defaults);
      && ArePlaces(at, UnboundPlaces(defaults, custom))
      && oldest == (if |at| + |custom| <= 256 then 0 else |at| + |custom| - 256) <= |at|
      && |merged| == |at| - oldest + |custom| && merged[|merged| - |custom|..] == custom
      && forall k :: 0 <= k < |merged| - |custom| ==> at[oldest + k] < |defaults| && merged[k] == defaults[at[oldest + k]]
  {
    var defaults := setup.CompileConfig(setup.defaults);
    var kept := setup.Retained(defaults, setup.Commands(custom));
    at := RetainedAre(setup, defaults, custom);
    oldest := if |at| + |custom| <= 256 then 0 else |at| + |custom| - 256;
    MergeIs(setup, custom, kept);
    LatestOfTwo(kept, custom, oldest);
  }

  lemma MergeIs(setup: Setup, custom: seq<Resolved>, kept: seq<Resolved>)
    requires kept == setup.Retained(setup.CompileConfig(setup.defaults), setup.Commands(custom))
    ensures setup.Merge(custom) == Latest(kept + custom)
  {
    if custom == [] {
      assert setup.Commands(custom) == {};
      AllRetained(setup, setup.CompileConfig(setup.defaults));
      assert kept + custom == kept;
    }
  }

  lemma LatestOfTwo<T>(front: seq<T>, back: seq<T>, oldest: nat)
    requires |back| <= 256 && oldest == if |front| + |back| <= 256 then 0 else |front| + |back| - 256
    ensures var latest := Latest(front + back);
      && oldest <= |front| && |latest| == |front| - oldest + |back| && latest[|latest| - |back|..] == back
      && forall k :: 0 <= k < |latest| - |back| ==> latest[k] == front[oldest + k]
  {
    var all := front + back;
    var latest := Latest(all);
    assert latest == all[oldest..] by { assert all[0..] == all; }
    assert all[|front|..] == back;
    assert all[oldest..][|front| - oldest..] == all[|front|..];
    assert forall k :: 0 <= k < |front| - oldest ==> all[oldest..][k] == front[oldest + k];
  }

  lemma {:induction false} AllRetained(setup: Setup, resolved: seq<Resolved>)
    ensures setup.Retained(resolved, {}) == resolved
  {
    if resolved != [] {
      AllRetained(setup, resolved[..|resolved| - 1]);
      assert resolved == resolved[..|resolved| - 1] + [resolved[|resolved| - 1]];
    }
  }

  lemma {:induction false} AllCompiled(setup: Setup, rules: seq<Rule>)
    requires forall rule <- rules :: setup.Compiles(rule)
    ensures |setup.CompileAll(rules)| == |rules|
    ensures forall k :: 0 <= k < |rules| ==> setup.Compile(rules[k]) == Some(setup.CompileAll(rules)[k])
  {
    if rules != [] {
      var front := rules[..|rules| - 1];
      assert rules[|rules| - 1] in rules && forall rule <- front :: rule in rules;
      AllCompiled(setup, front);
    }
  }

  lemma CompiledConfigIs(setup: Setup, rules: seq<Rule>, custom: seq<Resolved>)
    requires |rules| <= MAX_KEYBINDINGS_COUNT && (forall rule <- rules :: setup.Compiles(rule)) && custom == setup.CompileConfig(rules)
    ensures |custom| == |rules| && forall k :: 0 <= k < |rules| ==> setup.Compile(rules[k]) == Some(custom[k])
  {
    AllCompiled(setup, rules);
  }

  lemma MergeEndsWith(setup: Setup, custom: seq<Resolved>, merged: seq<Resolved>)
    requires |custom| <= MAX_KEYBINDINGS_COUNT && merged == setup.Merge(custom)
    ensures |custom| <= |merged| <= 256 && merged[|merged| - |custom|..] == custom
  {
    var at, oldest := MergeKeepsCustom(setup, custom);
  }

  /** The list ends with what each of the rules resolves to, in their order. */
  predicate EndsWithResolved(setup: Setup, rules: seq<Rule>, keybindings: seq<Resolved>) {
    && |rules| <= |keybindings| <= 256
    && forall k :: 0 <= k < |rules| ==> setup.Compile(rules[k]) == Some(keybindings[|keybindings| - |rules| + k])
  }

  lemma ResolvedAtEnd(setup: Setup, rules: seq<Rule>, custom: seq<Resolved>, keybindings: seq<Resolved>)
    requires |custom| == |rules| && forall k :: 0 <= k < |rules| ==> setup.Compile(rules[k]) == Some(custom[k])
    requires |custom| <= |keybindings| <= 256 && keybindings[|keybindings| - |custom|..] == custom
    ensures EndsWithResolved(setup, rules, keybindings)
  {
    forall k | 0 <= k < |rules|
      ensures setup.Compile(rules[k]) == Some(keybindings[|keybindings| - |rules| + k])
    {
      assert keybindings[|keybindings| - |custom|..][k] == custom[k];
    }
  }

  lemma EntriesResolve(setup: Setup, entries: seq<Entry>, rules: seq<Rule>, at: seq<nat>, keybindings: seq<Resolved>)
    requires |at| == |rules| && forall k :: 0 <= k < |at| ==> at[k] < |entries| && entries[at[k]] == Decoded(rules[k])
    requires EndsWithResolved(setup, rules, keybindings)
    ensures |at| <= |keybindings| <= 256
    ensures forall k :: 0 <= k < |at| ==>
      && at[k] < |entries| && entries[at[k]].Decoded?
      && setup.Compile(entries[at[k]].rule) == Some(keybindings[|keybindings| - |at| + k])
  {
  }

  /** A fresh load of a file with at most 256 usable rules ends with what each usable entry resolves to, in the
      order of the file. */
  lemma LoadIs(setup: Setup, entries: seq<Entry>, keybindings: seq<Resolved>) returns (at: seq<nat>)
    requires |setup.GoodRules(entries)| <= MAX_KEYBINDINGS_COUNT && keybindings == setup.Load(Entries(entries)).keybindings
    ensures ArePlaces(at, UsablePlaces(setup, entries)) && |at| <= |keybindings| <= 256
    ensures forall k :: 0 <= k < |at| ==>
      && at[k] < |entries| && entries[at[k]].Decoded?
      && setup.Compile(entries[at[k]].rule) == Some(keybindings[|keybindings| - |at| + k])
  {
    var rules := setup.GoodRules(entries);
    LoadedRulesCompile(setup, entries);
    at := GoodRulesAre(setup, entries);
    var custom := setup.CompileConfig(rules);
    CompiledConfigIs(setup, rules, custom);
    MergeEndsWith(setup, custom, keybindings);
    ResolvedAtEnd(setup, rules, custom, keybindings);
    EntriesResolve(setup, entries, rules, at, keybindings);
  }

  // ----- Startup backfill -----

  lemma {:induction false} MissingDefaultsAre(setup: Setup, custom: seq<Rule>, rules: seq<Rule>)
    ensures forall rule :: rule in setup.MissingDefaults(custom, rules) <==> rule in rules && setup.IsMissing(custom, rule)
  {
    if rules != [] {
      MissingDefaultsAre(setup, custom, rules[..|rules| - 1]);
      assert rules == rules[..|rules| - 1] + [rules[|rules| - 1]];
    }
  }

  ghost function MissingPlaces(setup: Setup, custom: seq<Rule>, rules: seq<Rule>): set<nat> {
    set place: nat | place < |rules| && forall entry <- custom :: entry.command != rules[place].command && !setup.SameContext(entry, rules[place])
  }

  lemma MissingPlacesGrow(setup: Setup, custom: seq<Rule>, rules: seq<Rule>, rule: Rule)
    ensures MissingPlaces(setup, custom, rules + [rule])
         == MissingPlaces(setup, custom, rules) + if setup.IsMissing(custom, rule) then {|rules|} else {}
  {
    assert setup.IsMissing(custom, rule) <==> forall entry <- custom :: entry.command != rule.command && !setup.SameContext(entry, rule);
    assert (rules + [rule])[|rules|] == rule;
    assert forall place: nat :: place < |rules| ==> (rules + [rule])[place] == rules[place];
  }

  lemma NextMissing(setup: Setup, custom: seq<Rule>, rules: seq<Rule>, k: nat)
    requires k < |rules|
    ensures setup.MissingDefaults(custom, rules[..k + 1])
         == setup.MissingDefaults(custom, rules[..k])
            + if setup.HasCommand(custom, rules[k].command) || setup.Conflicts(custom, rules[k]) then [] else [rules[k]]
  {
    assert rules[..k + 1][..k] == rules[..k];
  }

  lemma {:induction false} MissingAre(setup: Setup, custom: seq<Rule>, rules: seq<Rule>) returns (at: seq<nat>)
    ensures ArePlaces(at, MissingPlaces(setup, custom, rules)) && |at| == |setup.MissingDefaults(custom, rules)|
    ensures forall k :: 0 <= k < |at| ==> at[k] < |rules| && setup.MissingDefaults(custom, rules)[k] == rules[at[k]]
  {
    at := [];
    if rules != [] {
      var n := |rules| - 1;
      at := MissingAre(setup, custom, rules[..n]);
      MissingPlacesGrow(setup, custom, rules[..n], rules[n]);
      assert rules == rules[..n] + [rules[n]];
      if setup.IsMissing(custom, rules[n]) {
        OneMorePlace(at, MissingPlaces(setup, custom, rules[..n]), n);
        at := at + [n];
      }
    }
  }

  /** The backfill appends, in their order, the defaults whose command and shortcut context no user rule has:
      all of them, or the first of them up to 256 rules. */
  lemma BackfillIs(setup: Setup, custom: seq<Rule>) returns (at: seq<nat>)
    ensures ArePlaces(at, MissingPlaces(setup, custom, setup.defaults))
    ensures var appended := setup.Appended(custom);
      && |appended| <= |at| && (|appended| < |at| ==> |custom + appended| >= 256)
      && (appended != [] ==> |custom + appended| <= 256)
      && forall k :: 0 <= k < |appended| ==> at[k] < |setup.defaults| && appended[k] == setup.defaults[at[k]]
  {
    at := MissingAre(setup, custom, setup.defaults);
  }

  /** It is safe: it appends only defaults whose command and shortcut context no user rule has. */
  lemma BackfillIsSafe(setup: Setup, custom: seq<Rule>)
    ensures var appended := setup.Appended(custom);
      && (appended != [] ==> |custom + appended| <= MAX_KEYBINDINGS_COUNT)
      && forall rule <- appended ::
           rule in setup.defaults && forall entry <- custom :: entry.command != rule.command && !setup.SameContext(entry, rule)
  {
    var at := BackfillIs(setup, custom);
    forall rule <- setup.Appended(custom)
      ensures rule in setup.defaults && forall entry <- custom :: entry.command != rule.command && !setup.SameContext(entry, rule)
    {
      var k :| 0 <= k < |setup.Appended(custom)| && setup.Appended(custom)[k] == rule;
      assert at[k] in MissingPlaces(setup, custom, setup.defaults);
    }
  }

  /** The rule that wins a shortcut context: the last one. */
  function Winner(setup: Setup, rules: seq<Rule>, context: (string, string)): Option<Rule> {
    if rules == [] then None
    else if setup.Context(rules[|rules| - 1]) == Some(context) then Some(rules[|rules| - 1])
    else Winner(setup, rules[..|rules| - 1], context)
  }

  lemma {:induction false} AppendingElsewhere(setup: Setup, custom: seq<Rule>, more: seq<Rule>, context: (string, string))
    requires forall rule <- more :: setup.Context(rule) != Some(context)
    ensures Winner(setup, custom + more, context) == Winner(setup, custom, context)
  {
    if more == [] {
      assert custom + more == custom;
    } else {
      assert more[|more| - 1] in more;
      assert (custom + more)[..|custom + more| - 1] == custom + more[..|more| - 1];
      AppendingElsewhere(setup, custom, more[..|more| - 1], context);
    }
  }

  lemma {:induction false} WinnerIsThere(setup: Setup, rules: seq<Rule>, context: (string, string))
    ensures Winner(setup, rules, context).Some? ==>
      Winner(setup, rules, context).value in rules && setup.Context(Winner(setup, rules, context).value) == Some(context)
  {
    if rules != [] {
      WinnerIsThere(setup, rules[..|rules| - 1], context);
    }
  }

  /** So it shadows nothing: wherever a user rule won a shortcut, it still wins it. */
  lemma BackfillShadowsNothing(setup: Setup, custom: seq<Rule>, context: (string, string))
    requires Winner(setup, custom, context).Some?
    ensures Winner(setup, custom + setup.Appended(custom), context) == Winner(setup, custom, context)
  {
    WinnerIsThere(setup, custom, context);
    BackfillIsSafe(setup, custom);
    var winner := Winner(setup, custom, context).value;
    forall rule <- setup.Appended(custom)
      ensures setup.Context(rule) != Some(context)
    {
      assert !setup.SameContext(winner, rule);
    }
    AppendingElsewhere(setup, custom, setup.Appended(custom), context);
  }

  lemma NonEmptyHasElement(rules: seq<Rule>)
    ensures rules != [] ==> exists rule :: rule in rules
  {
    if rules != [] {
      assert rules[0] in rules;
    }
  }

  /** Once the missing defaults were appended, or as many as fitted, there is nothing left to append. */
  lemma NothingLeftToAppend(setup: Setup, custom: seq<Rule>)
    ensures setup.Appended(custom + setup.Appended(custom)) == []
  {
    var missing, appended := setup.MissingDefaults(custom, setup.defaults), setup.Appended(custom);
    var after := custom + appended;
    if |after| < MAX_KEYBINDINGS_COUNT {
      assert appended == missing;
      MissingDefaultsAre(setup, custom, setup.defaults);
      MissingDefaultsAre(setup, after, setup.defaults);
      forall rule <- setup.defaults
        ensures !setup.IsMissing(after, rule)
      {
        if setup.HasCommand(custom, rule.command) {
          var entry :| entry in custom && entry.command == rule.command;
          assert entry in after;
        } else if setup.Conflicts(custom, rule) {
          var entry :| entry in custom && setup.SameContext(entry, rule);
          assert entry in after;
        } else {
          assert rule in missing && rule in after;
        }
      }
      NonEmptyHasElement(setup.MissingDefaults(after, setup.defaults));
    }
  }

  lemma DefaultsMissNothing(setup: Setup)
    ensures setup.Appended(setup.defaults) == []
  {
    MissingDefaultsAre(setup, setup.defaults, setup.defaults);
    NonEmptyHasElement(setup.MissingDefaults(setup.defaults, setup.defaults));
  }

  /** A rewritten file either has issues or holds exactly the rules that were written. */
  lemma {:induction false} WrittenOrIssues(setup: Setup, rules: seq<Rule>)
    ensures setup.Issues(AsEntries(rules)) != [] || setup.GoodRules(AsEntries(rules)) == rules
  {
    if rules != [] {
      assert AsEntries(rules)[..|rules| - 1] == AsEntries(rules[..|rules| - 1]);
      WrittenOrIssues(setup, rules[..|rules| - 1]);
      assert rules == rules[..|rules| - 1] + [rules[|rules| - 1]];
    }
  }

  /** A second startup writes nothing, whatever the file held before the first one. */
  lemma SyncIsIdempotent(setup: Setup, file: File)
    ensures setup.Synced(setup.Synced(file)) == setup.Synced(file)
  {
    var rules := setup.RulesOf(file);
    if file.Missing? {
      WrittenOrIssues(setup, setup.defaults);
      DefaultsMissNothing(setup);
    } else if setup.Synced(file) != file {
      WrittenOrIssues(setup, rules + setup.Appended(rules));
      NothingLeftToAppend(setup, rules);
    }
  }

  /** A file the sync rewrites had no issues, so its rules are exactly its entries: none is lost. */
  lemma {:induction false} CleanFileIsItsRules(setup: Setup, entries: seq<Entry>)
    requires setup.Issues(entries) == []
    ensures AsEntries(setup.GoodRules(entries)) == entries
  {
    if entries != [] {
      CleanFileIsItsRules(setup, entries[..|entries| - 1]);
      var front, last := entries[..|entries| - 1], entries[|entries| - 1];
      assert AsEntries(setup.GoodRules(front) + [last.rule]) == AsEntries(setup.GoodRules(front)) + [last];
      assert entries == front + [last];
    }
  }

  /** An existing file keeps its entries as a prefix, entry by entry, and stays within the cap if it
      was within it. */
  lemma SyncKeepsEntries(setup: Setup, entries: seq<Entry>)
    ensures var file := setup.Synced(Entries(entries));
      && file.Entries? && entries <= file.entries
      && (|entries| <= MAX_KEYBINDINGS_COUNT ==> |file.entries| <= MAX_KEYBINDINGS_COUNT)
  {
    if setup.Synced(Entries(entries)) != Entries(entries) {
      var rules := setup.GoodRules(entries);
      CleanFileIsItsRules(setup, entries);
      BackfillIsSafe(setup, rules);
      assert AsEntries(rules + setup.Appended(rules))[..|rules|] == AsEntries(rules);
    }
  }

  predicate HoldsRule(file: File, rule: Rule) {
    file.Entries? && Decoded(rule) in file.entries
  }

  /** After the startup sync of a file without issues every default is in the file, unless a rule of the user's
      has its command or its shortcut context, or the file is full. A file with issues is left alone. */
  lemma SyncLeavesNothingOut(setup: Setup, file: File, rule: Rule)
    ensures setup.IssuesOf(file) != [] ==> setup.Synced(file) == file
    ensures setup.IssuesOf(file) == [] && rule in setup.defaults ==>
      || HoldsRule(setup.Synced(file), rule)
      || (exists entry <- setup.RulesOf(file) :: entry.command == rule.command || setup.SameContext(entry, rule))
      || (setup.Synced(file).Entries? && |setup.Synced(file).entries| >= 256)
  {
    var custom := setup.RulesOf(file);
    if file.Missing? {
      EntryOf(setup.defaults, rule);
    } else if setup.IssuesOf(file) == [] && setup.IsMissing(custom, rule) && rule in setup.defaults {
      MissingDefaultsAre(setup, custom, setup.defaults);
      CleanFileIsItsRules(setup, file.entries);
      assert AsEntries(custom + setup.Appended(custom)) == setup.Synced(file).entries by { assert custom + [] == custom; }
      if rule in setup.Appended(custom) {
        EntryOf(custom + setup.Appended(custom), rule);
      } else {
        var at := BackfillIs(setup, custom);
        assert setup.Appended(custom) != setup.MissingDefaults(custom, setup.defaults);
      }
    }
  }

  lemma EntryOf(rules: seq<Rule>, rule: Rule)
    ensures rule in rules ==> Decoded(rule) in AsEntries(rules)
  {
    if rule in rules {
      var k :| 0 <= k < |rules| && rules[k] == rule;
      assert AsEntries(rules)[k] == Decoded(rule);
    }
  }

  // ----- The service -----

  class Keybindings {
    const setup: Setup
    var file: File
    var cache: Option<ConfigState>

    constructor (setup: Setup, file: File)
      ensures this.setup == setup && this.file == file && cache == None
    {
      this.setup, this.file, cache := setup, file, None;
    }

    ghost function Current(): State
      reads this
    {
      State(file, cache)
    }

    /** `loadRuntimeCustomKeybindingsConfig`: bad entries are skipped and reported. */
    method LoadRuntime() returns (keybindings: seq<Rule>, issues: seq<Issue>)
      ensures keybindings == setup.RulesOf(file) && issues == setup.IssuesOf(file)
    {
      if file.Missing? {
        return [], [];
      }
      if file.NotAnArray? {
        return [], [MalformedConfig];
      }
      keybindings, issues := [], [];
      var entries := file.entries;
      for index := 0 to |entries|
        invariant keybindings == setup.GoodRules(entries[..index]) && issues == setup.Issues(entries[..index])
      {
        var entry := entries[index];
        assert entries[..index + 1][..index] == entries[..index];
        if entry.Undecodable? || setup.Compile(entry.rule).None? {
          issues := issues + [InvalidEntry(index)];
        } else {
          keybindings := keybindings + [entry.rule];
        }
      }
      assert entries[..|entries|] == entries;
    }

    /** `loadWritableCustomKeybindingsConfig`: the same rules, but a file that is no array is an error. */
    method LoadWritable() returns (rules: Result<seq<Rule>, ConfigError>)
      ensures rules == if file.NotAnArray? then Err(ExpectedArray) else Ok(setup.RulesOf(file))
    {
      var keybindings, _ := LoadRuntime();
      rules := if file.NotAnArray? then Err(ExpectedArray) else Ok(keybindings);
    }

    /** `writeConfigAtomically`: all or nothing, and never more entries than the schema allows. */
    method WriteConfig(rules: seq<Rule>, disk: bool) returns (ok: bool)
      modifies this`file
      ensures ok == setup.Writes(rules, disk)
      ensures file == if ok then Entries(AsEntries(rules)) else old(file)
    {
      ok := disk && |rules| <= MAX_KEYBINDINGS_COUNT;
      if ok {
        file := Entries(AsEntries(rules));
      }
    }

    /** `loadConfigState`, from the cache or the disk. */
    method LoadConfigState() returns (config: ConfigState)
      modifies this`cache
      ensures Current() == setup.Step(old(Current()), Get) && cache == Some(config)
      ensures old(setup.Coherent(Current())) ==> config == setup.Load(file)
    {
      if cache.None? {
        var keybindings, issues := LoadRuntime();
        cache := Some(ConfigState(setup.Merge(setup.CompileConfig(keybindings)), issues));
      }
      config := cache.value;
    }

    method RevalidateAndEmit() returns (emitted: ConfigState)
      modifies this`cache
      ensures Current() == setup.Step(old(Current()), Revalidate) && emitted == setup.Load(file)
    {
      cache := None;
      emitted := LoadConfigState();
    }

    /** The common end of both changes: the rules are written, and the cache is set to what they resolve to. */
    method StoreRules(rules: seq<Rule>, disk: bool) returns (resolved: Result<seq<Resolved>, ConfigError>)
      modifies this
      ensures Current() == setup.AfterWrite(old(Current()), rules, disk)
      ensures resolved == if setup.Writes(rules, disk) then Ok(setup.Load(file).keybindings) else Err(WriteFailed)
    {
      var written := WriteConfig(rules, disk);
      if !written {
        return Err(WriteFailed);
      }
      var merged := setup.Merge(setup.CompileConfig(rules));
      cache := Some(ConfigState(merged, []));
      LoadOfWrittenRules(setup, rules);
      resolved := Ok(merged);
    }

    method UpsertKeybindingRule(rule: Rule, replace: Option<Rule>, disk: bool) returns (resolved: Result<seq<Resolved>, ConfigError>)
      modifies this
      ensures Current() == setup.Step(old(Current()), Upsert(rule, replace, disk))
      ensures resolved ==
        if old(file).NotAnArray? then Err(ExpectedArray) else if disk then Ok(setup.Load(file).keybindings) else Err(WriteFailed)
      ensures resolved.Err? ==> Current() == old(Current())
    {
      var custom := LoadWritable();
      if custom.Err? {
        return Err(custom.error);
      }
      var next := Without(custom.value, {rule} + if replace.Some? then {replace.value} else {}) + [rule];
      var capped := Latest(next);
      assert capped == setup.UpsertedRules(custom.value, rule, replace);
      resolved := StoreRules(capped, disk);
    }

    /** Unlike an upsert, a removal is not capped: one that leaves more rules than the schema allows is
        refused and changes nothing. */
    method RemoveKeybindingRule(target: Rule, disk: bool) returns (resolved: Result<seq<Resolved>, ConfigError>)
      modifies this
      ensures Current() == setup.Step(old(Current()), Remove(target, disk))
      ensures resolved ==
        if old(file).NotAnArray? then Err(ExpectedArray)
        else if disk && |Without(setup.RulesOf(old(file)), {target})| <= MAX_KEYBINDINGS_COUNT then Ok(setup.Load(file).keybindings)
        else Err(WriteFailed)
      ensures resolved.Err? ==> Current() == old(Current())
    {
      var custom := LoadWritable();
      if custom.Err? {
        return Err(custom.error);
      }
      resolved := StoreRules(Without(custom.value, {target}), disk);
    }

    /** The defaults whose command no user rule has and whose shortcut context is free. */
    method FindMissingDefaults(custom: seq<Rule>) returns (missing: seq<Rule>)
      ensures missing == setup.MissingDefaults(custom, setup.defaults)
    {
      missing := [];
      for k := 0 to |setup.defaults|
        invariant missing == setup.MissingDefaults(custom, setup.defaults[..k])
      {
        var rule := setup.defaults[k];
        NextMissing(setup, custom, setup.defaults, k);
        if setup.HasCommand(custom, rule.command) || setup.Conflicts(custom, rule) {
          continue;
        }
        missing := missing + [rule];
      }
      assert setup.defaults[..|setup.defaults|] == setup.defaults;
    }

    /** `syncDefaultKeybindingsOnStartup`. */
    method SyncDefaults(disk: bool) returns (ok: bool)
      requires setup.Valid()
      modifies this
      ensures Current() == setup.Step(old(Current()), Sync(disk))
      ensures ok <==> disk || setup.Synced(old(file)) == old(file)
    {
      if file.Missing? {
        ok := WriteConfig(setup.defaults, disk);
        if ok {
          cache := None;
        }
        return;
      }
      var custom, issues := LoadRuntime();
      if issues != [] {
        cache := None;
        return true;
      }
      var missing := FindMissingDefaults(custom);
      var slots := if MAX_KEYBINDINGS_COUNT < |custom| then 0 else MAX_KEYBINDINGS_COUNT - |custom|;
      var append := if |missing| <= slots then missing else missing[..slots];
      ghost var synced := setup.Synced(file);
      if append == [] {
        cache := None;
        return true;
      }
      SyncedDiffers(setup, file);
      ok := WriteConfig(custom + append, disk);
      if ok {
        cache := None;
      }
    }
  }

  lemma SyncedDiffers(setup: Setup, file: File)
    requires file.Entries? && setup.Issues(file.entries) == [] && setup.Appended(setup.RulesOf(file)) != []
    ensures setup.Synced(file) != file
  {
    LoadedRulesCompile(setup, file.entries);
    CleanFileIsItsRules(setup, file.entries);
  }
}
