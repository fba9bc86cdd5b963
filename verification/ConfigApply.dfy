/** Applying parsed key/value policy to a configuration. The keys come out of a map in no particular
    order, and so do the capability classes of the result; what is shown is when these orders matter. */
module ConfigApply {
  import opened Common
  import opened RequestIds

  datatype Setting = Text(text: string) | Flag(on: bool) | Number(n: int) | Items(items: seq<string>)

  /** Simple settings and environments by key; the routing classes and the default among them. */
  datatype Config = Config(settings: map<string, Setting>, classes: seq<string>, defaultClass: string)

  datatype RoutingList = Fallback | Capabilities

  /** One message; `Reported` carries the text of a rejected environment, which need not name its key. */
  datatype Diagnostic = Secret(key: string) | BadValue(key: string) | UnknownKey(key: string)
                      | Reported(text: string)
                      | DefaultNotAClass | NotAClass(list: RoutingList, name: string)

  /** Which keys are secrets, what an environment's fields denote, and the values of the other
      structured keys: capabilities (listed by class) and recommendations. */
  datatype Rules = Rules(
    secret: string -> bool,
    environment: (string, string) -> Result<Setting, string>,
    structured: (string, string) -> Option<Setting>)

  const CLASSES := "routing.classes"
  const DEFAULT_CLASS := "routing.default_class"
  const FALLBACK := "routing.fallback"
  const CAPABILITIES := "routing.class_capabilities"

  // ----- values -----

  function Trimmed(parts: seq<string>): (r: seq<string>)
    ensures |r| == |parts|
  {
    seq(|parts|, i requires 0 <= i < |parts| => TrimSpace(parts[i]))
  }

  predicate Distinct(items: seq<string>) {
    forall i, j :: 0 <= i < j < |items| ==> items[i] != items[j]
  }

  /** A comma-separated list without empty or repeated items. */
  function ConfigList(value: string): (r: Option<seq<string>>)
    ensures r.Some? ==> r.value != [] && Distinct(r.value)
  {
    var items := Trimmed(Split(value, ','));
    if "" in items || !Distinct(items) then None else Some(items)
  }

  function NonEmpty(items: seq<string>): seq<string> {
    if items == [] then []
    else (if items[0] != "" then [items[0]] else []) + NonEmpty(items[1..])
  }

  function ParseBool(value: string): Option<Setting> {
    if value in {"1", "t", "T", "TRUE", "true", "True"} then Some(Flag(true))
    else if value in {"0", "f", "F", "FALSE", "false", "False"} then Some(Flag(false))
    else None
  }

  function AtLeast(least: int, value: string): Option<Setting> {
    var n := ParseInt(value);
    if n.Some? && n.value >= least then Some(Number(n.value)) else None
  }

  function OneOf(allowed: seq<string>, value: string): Option<Setting> {
    if value in allowed then Some(Text(value)) else None
  }

  const TEXT_KEYS := ["version", "agent", "gates.verify", "orchestration.model", "submit.command"]
  const FLAG_KEYS := ["orchestration.enabled", "delegation.enabled", "routing.allow_unknown_telemetry",
                      "criteria.required", "review.required"]
  const COUNT_KEYS := ["verify.timeout_seconds", "routing.max_tokens", "routing.max_cost_micros",
                       "routing.deadline_seconds", "routing.max_retries", "escalation.max_verify_fails"]
  const POSITIVE_KEYS := ["context.max_tokens", "submit.timeout_seconds", "promotion_threshold"]
  const SEVERITY_KEYS := ["security.secrets", "security.injection", "security.slopsquat",
                          "security.clean_worktree", "security.sandbox"]
  const STRUCTURED_KEYS := [CAPABILITIES, "routing.recommendations"]
  const ENVIRONMENTS := "environments."

  /** How the value of a key is read. */
  datatype Kind = AnyText | Boolean | Integer(least: int) | Among(allowed: seq<string>) | DistinctList | LooseList
                | Structured | Environment | Unknown

  function KindOf(key: string): Kind {
    if ENVIRONMENTS <= key then Environment
    else if key in STRUCTURED_KEYS then Structured
    else if key in TEXT_KEYS then AnyText
    else if key in FLAG_KEYS then Boolean
    else if key in COUNT_KEYS then Integer(0)
    else if key in POSITIVE_KEYS then Integer(1)
    else if key in SEVERITY_KEYS then Among(["off", "warn", "error"])
    else if key == "profile" then Among(["default", "production"])
    else if key == "security.profile" then Among(["prototype", "production"])
    else if key == "routing.version" then Among(["1"])
    else if key == FALLBACK then DistinctList
    else if key == "verify.trivial" then LooseList
    else Unknown
  }

  /** The setting a text denotes where it is read as one of the ordinary kinds. */
  function ReadAs(kind: Kind, value: string): Option<Setting> {
    match kind
    case AnyText => Some(Text(value))
    case Boolean => ParseBool(value)
    case Integer(least) => AtLeast(least, value)
    case Among(allowed) => OneOf(allowed, value)
    case DistinctList => (var items := ConfigList(value); if items.Some? then Some(Items(items.value)) else None)
    case LooseList =>
      (var items := NonEmpty(Trimmed(Split(value, ','))); if items != [] then Some(Items(items)) else None)
    case _ => None
  }

  /** The setting a key's value denotes, for every key but the two that name routing classes. */
  function Read(rules: Rules, key: string, value: string): Result<Setting, Diagnostic> {
    if rules.secret(key) then Err(Secret(key))
    else
      match KindOf(key)
      case Unknown => Err(UnknownKey(key))
      case Environment =>
        (match rules.environment(key[|ENVIRONMENTS|..], value)
         case Ok(setting) => Ok(setting)
         case Err(text) => Err(Reported(text)))
      case Structured => Denoted(key, rules.structured(key, value))
      case kind => Denoted(key, ReadAs(kind, value))
  }

  function Denoted(key: string, setting: Option<Setting>): Result<Setting, Diagnostic> {
    match setting
    case Some(value) => Ok(value)
    case None => Err(BadValue(key))
  }

  // ----- one key after another -----

  /** The configuration and the messages in the order they were raised. */
  datatype Outcome = Outcome(config: Config, diagnostics: seq<Diagnostic>)

  /** What a key does to the two routing fields. */
  function Reroute(rules: Rules, config: Config, key: string, value: string): Config {
    if rules.secret(key) then config
    else if key == CLASSES && ConfigList(value).Some? then
      var items := ConfigList(value).value;
      config.(classes := items, defaultClass := if config.defaultClass in items then config.defaultClass else items[0])
    else if key == DEFAULT_CLASS then config.(defaultClass := value)
    else config
  }

  predicate Routes(key: string) {
    key == CLASSES || key == DEFAULT_CLASS
  }

  function Complaint(rules: Rules, key: string, value: string): Option<Diagnostic> {
    if Routes(key) then
      if rules.secret(key) then Some(Secret(key))
      else if key == CLASSES && ConfigList(value).None? then Some(BadValue(key))
      else None
    else if Read(rules, key, value).Err? then Some(Read(rules, key, value).error) else None
  }

  function AsList(d: Option<Diagnostic>): seq<Diagnostic> {
    if d.Some? then [d.value] else []
  }

  function ApplyKey(rules: Rules, o: Outcome, key: string, value: string): Outcome {
    var config := Reroute(rules, o.config, key, value);
    var settings := if !Routes(key) && Read(rules, key, value).Ok?
                    then config.settings[key := Read(rules, key, value).value] else config.settings;
    Outcome(config.(settings := settings), o.diagnostics + AsList(Complaint(rules, key, value)))
  }

  function Fold(rules: Rules, config: Config, values: map<string, string>, order: seq<string>): Outcome
    requires forall i :: 0 <= i < |order| ==> order[i] in values
  {
    if order == [] then Outcome(config, [])
    else
      var key := order[|order| - 1];
      ApplyKey(rules, Fold(rules, config, values, order[..|order| - 1]), key, values[key])
  }

  // ----- messages in the order of the names that raise them -----

  function KeysOf(order: seq<string>): set<string> {
    set key | key in order
  }

  /** All the names, each once. */
  predicate IsOrder(names: set<string>, order: seq<string>) {
    Distinct(order) && KeysOf(order) == names
  }

  function Collect(raise: string -> Option<Diagnostic>, order: seq<string>): seq<Diagnostic> {
    if order == [] then [] else Collect(raise, order[..|order| - 1]) + AsList(raise(order[|order| - 1]))
  }

  function Raising(raise: string -> Option<Diagnostic>, names: set<string>): set<string> {
    set name | name in names && raise(name).Some?
  }

  lemma AppendKey(order: seq<string>, key: string)
    requires Distinct(order) && key !in KeysOf(order)
    ensures Distinct(order + [key]) && KeysOf(order + [key]) == KeysOf(order) + {key}
  {
  }

  lemma CollectAppend(raise: string -> Option<Diagnostic>, order: seq<string>, name: string)
    ensures Collect(raise, order + [name]) == Collect(raise, order) + AsList(raise(name))
  {
    assert (order + [name])[..|order|] == order;
  }

  lemma {:induction false} SomeOrder(names: set<string>) returns (order: seq<string>)
    ensures IsOrder(names, order)
  {
    if names == {} {
      order := [];
    } else {
      var name :| name in names;
      var rest := SomeOrder(names - {name});
      AppendKey(rest, name);
      order := rest + [name];
    }
  }

  lemma OrderEnding(names: set<string>, last: string) returns (order: seq<string>)
    requires last in names
    ensures IsOrder(names, order) && order != [] && order[|order| - 1] == last
  {
    var rest := SomeOrder(names - {last});
    AppendKey(rest, last);
    order := rest + [last];
  }

  lemma OrderStarting(names: set<string>, first: string) returns (order: seq<string>)
    requires first in names
    ensures IsOrder(names, order) && order != [] && order[0] == first
  {
    var rest := SomeOrder(names - {first});
    order := [first] + rest;
    assert forall name :: name in order <==> name == first || name in KeysOf(rest);
  }

  lemma RaisingGrows(raise: string -> Option<Diagnostic>, names: set<string>, name: string)
    requires name !in names
    ensures |Raising(raise, names + {name})| == |Raising(raise, names)| + if raise(name).Some? then 1 else 0
  {
    if raise(name).Some? {
      assert Raising(raise, names + {name}) == Raising(raise, names) + {name};
    } else {
      assert Raising(raise, names + {name}) == Raising(raise, names);
    }
  }

  lemma LastKey(order: seq<string>)
    requires Distinct(order) && order != []
    ensures var before, key := order[..|order| - 1], order[|order| - 1];
            Distinct(before) && key !in KeysOf(before) && KeysOf(order) == KeysOf(before) + {key}
  {
    assert order == order[..|order| - 1] + [order[|order| - 1]];
  }

  /** As many messages as names that raise one, each raised by a name. */
  lemma {:induction false} CollectCounts(raise: string -> Option<Diagnostic>, order: seq<string>)
    requires Distinct(order)
    ensures |Collect(raise, order)| == |Raising(raise, KeysOf(order))|
  {
    if order != [] {
      LastKey(order);
      CollectCounts(raise, order[..|order| - 1]);
      RaisingGrows(raise, KeysOf(order[..|order| - 1]), order[|order| - 1]);
    } else {
      assert Raising(raise, KeysOf(order)) == {};
    }
  }

  lemma {:induction false} CollectComesFrom(raise: string -> Option<Diagnostic>, order: seq<string>, i: nat)
    returns (name: string)
    requires i < |Collect(raise, order)|
    ensures name in KeysOf(order) && raise(name) == Some(Collect(raise, order)[i])
  {
    var before := order[..|order| - 1];
    if i < |Collect(raise, before)| {
      name := CollectComesFrom(raise, before, i);
    } else {
      name := order[|order| - 1];
    }
  }

  lemma {:induction false} FirstIsRaised(raise: string -> Option<Diagnostic>, order: seq<string>)
    requires order != [] && raise(order[0]).Some?
    ensures Collect(raise, order) != [] && Collect(raise, order)[0] == raise(order[0]).value
  {
    if |order| > 1 {
      FirstIsRaised(raise, order[..|order| - 1]);
    } else {
      assert Collect(raise, order[..0]) == [];
    }
  }

  /** No two names raise different messages. */
  predicate OneMessage(raise: string -> Option<Diagnostic>, names: set<string>) {
    forall x, y :: x in Raising(raise, names) && y in Raising(raise, names) ==> raise(x) == raise(y)
  }

  lemma SameMessages(raise: string -> Option<Diagnostic>, names: set<string>, a: seq<string>, b: seq<string>)
    requires OneMessage(raise, names) && IsOrder(names, a) && IsOrder(names, b)
    ensures Collect(raise, a) == Collect(raise, b)
  {
    CollectCounts(raise, a);
    CollectCounts(raise, b);
    forall i | 0 <= i < |Collect(raise, a)| ensures Collect(raise, a)[i] == Collect(raise, b)[i] {
      var x := CollectComesFrom(raise, a, i);
      var y := CollectComesFrom(raise, b, i);
    }
  }

  /** Two names that raise different messages tell two orders apart by the first message. */
  lemma OtherMessages(raise: string -> Option<Diagnostic>, names: set<string>) returns (a: seq<string>, b: seq<string>)
    requires !OneMessage(raise, names)
    ensures IsOrder(names, a) && IsOrder(names, b)
    ensures Collect(raise, a) != [] && Collect(raise, b) != [] && Collect(raise, a)[0] != Collect(raise, b)[0]
  {
    var x, y :| x in Raising(raise, names) && y in Raising(raise, names) && raise(x) != raise(y);
    a := OrderStarting(names, x);
    b := OrderStarting(names, y);
    FirstIsRaised(raise, a);
    FirstIsRaised(raise, b);
  }

  /** What each key of a map raises. */
  function Complaining(rules: Rules, values: map<string, string>): string -> Option<Diagnostic> {
    key => if key in values then Complaint(rules, key, values[key]) else None
  }

  /** What each name in a routing list raises. */
  function Straying(list: RoutingList, classes: seq<string>): string -> Option<Diagnostic> {
    name => if name in classes then None else Some(NotAClass(list, name))
  }

  // ----- the result, independent of order -----

  function SettingsOf(rules: Rules, config: Config, values: map<string, string>, keys: set<string>): map<string, Setting>
    requires keys <= values.Keys
  {
    config.settings
    + map key | key in keys && !Routes(key) && Read(rules, key, values[key]).Ok? :: Read(rules, key, values[key]).value
  }

  /** The classes a map declares, if it does. */
  function NewClasses(rules: Rules, values: map<string, string>, keys: set<string>): Option<seq<string>>
    requires keys <= values.Keys
  {
    if CLASSES in keys && !rules.secret(CLASSES) then ConfigList(values[CLASSES]) else None
  }

  function NewDefault(rules: Rules, values: map<string, string>, keys: set<string>): Option<string>
    requires keys <= values.Keys
  {
    if DEFAULT_CLASS in keys && !rules.secret(DEFAULT_CLASS) then Some(values[DEFAULT_CLASS]) else None
  }

  /** The configuration, given whether the classes are applied after the default among them. */
  function FinalConfig(rules: Rules, config: Config, values: map<string, string>, keys: set<string>, classesLast: bool): Config
    requires keys <= values.Keys
  {
    var classes, given := NewClasses(rules, values, keys), NewDefault(rules, values, keys);
    var items := if classes.Some? then classes.value else config.classes;
    var asked := if given.Some? then given.value else config.defaultClass;
    var chosen := if classes.Some? && asked !in items && (given.None? || classesLast) then items[0] else asked;
    Config(SettingsOf(rules, config, values, keys), items, chosen)
  }

  /** The classes come after the default in an order. */
  predicate ClassesLast(order: seq<string>) {
    exists i, j :: 0 <= i < j < |order| && order[i] == DEFAULT_CLASS && order[j] == CLASSES
  }

  lemma SettingsExtend(rules: Rules, config: Config, values: map<string, string>, keys: set<string>, key: string)
    requires keys <= values.Keys && key in values && key !in keys
    ensures SettingsOf(rules, config, values, keys + {key}) ==
            if !Routes(key) && Read(rules, key, values[key]).Ok?
            then SettingsOf(rules, config, values, keys)[key := Read(rules, key, values[key]).value]
            else SettingsOf(rules, config, values, keys)
  {
    assert forall k :: k in keys + {key} <==> k in keys || k == key;
  }

  lemma LastExtends(order: seq<string>, key: string)
    requires Distinct(order + [key])
    ensures ClassesLast(order + [key]) <==> ClassesLast(order) || (key == CLASSES && DEFAULT_CLASS in order)
  {
    var more := order + [key];
    if ClassesLast(order) {
      var i, j :| 0 <= i < j < |order| && order[i] == DEFAULT_CLASS && order[j] == CLASSES;
      assert more[i] == DEFAULT_CLASS && more[j] == CLASSES;
    }
    if key == CLASSES && DEFAULT_CLASS in order {
      var i :| 0 <= i < |order| && order[i] == DEFAULT_CLASS;
      assert more[i] == DEFAULT_CLASS && more[|order|] == CLASSES;
    }
  }

  lemma {:induction false} FoldConfigures(rules: Rules, config: Config, values: map<string, string>, order: seq<string>)
    requires Distinct(order) && forall i :: 0 <= i < |order| ==> order[i] in values
    ensures Fold(rules, config, values, order).config ==
            FinalConfig(rules, config, values, KeysOf(order), ClassesLast(order))
  {
    if order == [] {
      assert SettingsOf(rules, config, values, {}) == config.settings;
    } else {
      var before, key := order[..|order| - 1], order[|order| - 1];
      assert order == before + [key];
      LastKey(order);
      FoldConfigures(rules, config, values, before);
      SettingsExtend(rules, config, values, KeysOf(before), key);
      RouteStep(rules, config, values, before, key);
    }
  }

  lemma {:induction false} FoldCollects(rules: Rules, config: Config, values: map<string, string>, order: seq<string>)
    requires forall i :: 0 <= i < |order| ==> order[i] in values
    ensures Fold(rules, config, values, order).diagnostics == Collect(Complaining(rules, values), order)
  {
    if order != [] {
      FoldCollects(rules, config, values, order[..|order| - 1]);
    }
  }

  /** Applying the keys one after another gives the final configuration, whatever their order, and
      the messages in the order of the keys. */
  lemma FoldIsFinal(rules: Rules, config: Config, values: map<string, string>, order: seq<string>)
    requires Distinct(order) && forall i :: 0 <= i < |order| ==> order[i] in values
    ensures Fold(rules, config, values, order) == Outcome(
              FinalConfig(rules, config, values, KeysOf(order), ClassesLast(order)),
              Collect(Complaining(rules, values), order))
  {
    FoldConfigures(rules, config, values, order);
    FoldCollects(rules, config, values, order);
  }

  lemma RouteStep(rules: Rules, config: Config, values: map<string, string>, before: seq<string>, key: string)
    requires Distinct(before + [key]) && key in values && KeysOf(before) <= values.Keys
    ensures var was := FinalConfig(rules, config, values, KeysOf(before), ClassesLast(before));
            var now := FinalConfig(rules, config, values, KeysOf(before) + {key}, ClassesLast(before + [key]));
            var routed := Reroute(rules, was, key, values[key]);
            now.classes == routed.classes && now.defaultClass == routed.defaultClass
  {
    LastExtends(before, key);
    assert (before + [key])[|before|] == key;
    assert forall i :: 0 <= i < |before| ==> (before + [key])[i] == before[i];
    assert ClassesLast(before) ==> CLASSES in before && DEFAULT_CLASS in before;
  }

  // ----- routing -----

  function FallbackOf(config: Config): seq<string> {
    if FALLBACK in config.settings && config.settings[FALLBACK].Items? then config.settings[FALLBACK].items else []
  }

  /** The classes that capabilities are listed for, the keys of a map. */
  function CapabilitiesOf(config: Config): set<string> {
    if CAPABILITIES in config.settings && config.settings[CAPABILITIES].Items?
    then KeysOf(config.settings[CAPABILITIES].items) else {}
  }

  function DefaultFault(config: Config): seq<Diagnostic> {
    if config.defaultClass in config.classes then [] else [DefaultNotAClass]
  }

  /** The messages about routing, given the order in which the capability classes come. */
  function RoutingFaults(config: Config, capabilities: seq<string>): seq<Diagnostic> {
    DefaultFault(config) + Collect(Straying(Fallback, config.classes), FallbackOf(config))
    + Collect(Straying(Capabilities, config.classes), capabilities)
  }

  /** The routing stands exactly when everything it names is a class. */
  predicate RoutingStands(config: Config) {
    && config.defaultClass in config.classes
    && (forall name :: name in FallbackOf(config) ==> name in config.classes)
    && (forall name :: name in CapabilitiesOf(config) ==> name in config.classes)
  }

  lemma {:induction false} NobodyStrays(list: RoutingList, classes: seq<string>, order: seq<string>)
    ensures Collect(Straying(list, classes), order) == [] <==> forall name :: name in order ==> name in classes
  {
    if order != [] {
      var before, name := order[..|order| - 1], order[|order| - 1];
      NobodyStrays(list, classes, before);
      assert order == before + [name];
    }
  }

  lemma FaultlessStands(config: Config, capabilities: seq<string>)
    requires IsOrder(CapabilitiesOf(config), capabilities)
    ensures RoutingFaults(config, capabilities) == [] <==> RoutingStands(config)
  {
    NobodyStrays(Fallback, config.classes, FallbackOf(config));
    NobodyStrays(Capabilities, config.classes, capabilities);
    assert forall name :: name in capabilities <==> name in CapabilitiesOf(config);
  }

  /** Each fallback class in order. */
  method CheckFallback(config: Config) returns (faults: seq<Diagnostic>)
    ensures faults == Collect(Straying(Fallback, config.classes), FallbackOf(config))
  {
    faults := [];
    var fallback := FallbackOf(config);
    for i := 0 to |fallback|
      invariant faults == Collect(Straying(Fallback, config.classes), fallback[..i])
    {
      CollectAppend(Straying(Fallback, config.classes), fallback[..i], fallback[i]);
      assert fallback[..i + 1] == fallback[..i] + [fallback[i]];
      if fallback[i] !in config.classes {
        faults := faults + [NotAClass(Fallback, fallback[i])];
      }
    }
    assert fallback[..|fallback|] == fallback;
  }

  lemma OneNameMore(names: set<string>, rest: set<string>, name: string, order: seq<string>)
    requires rest <= names && name in rest && IsOrder(names - rest, order)
    ensures IsOrder(names - (rest - {name}), order + [name])
  {
    AppendKey(order, name);
    assert names - (rest - {name}) == (names - rest) + {name};
  }

  /** Each capability class, in whatever order the map gives them. */
  method CheckCapabilities(config: Config) returns (faults: seq<Diagnostic>, ghost order: seq<string>)
    ensures IsOrder(CapabilitiesOf(config), order)
    ensures faults == Collect(Straying(Capabilities, config.classes), order)
  {
    faults, order := [], [];
    var names := CapabilitiesOf(config);
    var rest := names;
    while rest != {}
      invariant rest <= names && IsOrder(names - rest, order)
      invariant faults == Collect(Straying(Capabilities, config.classes), order)
      decreases |rest|
    {
      var name :| name in rest;
      OneNameMore(names, rest, name, order);
      CollectAppend(Straying(Capabilities, config.classes), order, name);
      rest := rest - {name};
      order := order + [name];
      if name !in config.classes {
        faults := faults + [NotAClass(Capabilities, name)];
      }
    }
    assert names - rest == names;
  }

  /** The checks of the default, of the fallback classes, and of the capability classes. */
  method ValidateRouting(config: Config) returns (faults: seq<Diagnostic>, ghost capabilities: seq<string>)
    ensures IsOrder(CapabilitiesOf(config), capabilities) && faults == RoutingFaults(config, capabilities)
    ensures faults == [] <==> RoutingStands(config)
  {
    var fallback := CheckFallback(config);
    var strays;
    strays, capabilities := CheckCapabilities(config);
    faults := (if config.defaultClass in config.classes then [] else [DefaultNotAClass]) + fallback + strays;
    FaultlessStands(config, capabilities);
  }

  // ----- the whole map -----

  lemma OrderMembers(values: map<string, string>, order: seq<string>)
    requires IsOrder(values.Keys, order)
    ensures forall i :: 0 <= i < |order| ==> order[i] in values
  {
  }

  /** Whichever order the keys come in, the same classes have capabilities listed. */
  function Listed(rules: Rules, config: Config, values: map<string, string>): set<string> {
    CapabilitiesOf(FinalConfig(rules, config, values, values.Keys, false))
  }

  /** The order of the keys, and that of the capability classes of the resulting configuration. */
  datatype Orders = Orders(keys: seq<string>, capabilities: seq<string>)

  predicate AreOrders(rules: Rules, config: Config, values: map<string, string>, orders: Orders) {
    IsOrder(values.Keys, orders.keys) && IsOrder(Listed(rules, config, values), orders.capabilities)
  }

  function Applied(rules: Rules, config: Config, values: map<string, string>, orders: Orders): Outcome
    requires AreOrders(rules, config, values, orders)
  {
    OrderMembers(values, orders.keys);
    var o := Fold(rules, config, values, orders.keys);
    Outcome(o.config, o.diagnostics + RoutingFaults(o.config, orders.capabilities))
  }

  lemma FoldOneMore(rules: Rules, config: Config, values: map<string, string>, order: seq<string>, key: string)
    requires key in values && forall i :: 0 <= i < |order| ==> order[i] in values
    ensures Fold(rules, config, values, order + [key]) ==
            ApplyKey(rules, Fold(rules, config, values, order), key, values[key])
  {
  }

  /** What holds between two keys. */
  ghost predicate Reached(rules: Rules, config: Config, values: map<string, string>, rest: set<string>,
                          order: seq<string>, o: Outcome) {
    && IsOrder(values.Keys - rest, order)
    && (forall i :: 0 <= i < |order| ==> order[i] in values)
    && o == Fold(rules, config, values, order)
  }

  lemma ReachOneMore(rules: Rules, config: Config, values: map<string, string>, rest: set<string>,
                     order: seq<string>, o: Outcome, key: string)
    requires rest <= values.Keys && key in rest && Reached(rules, config, values, rest, order, o)
    ensures Reached(rules, config, values, rest - {key}, order + [key], ApplyKey(rules, o, key, values[key]))
  {
    AppendKey(order, key);
    FoldOneMore(rules, config, values, order, key);
  }

  /** The configuration is one of two, and without a contested default it is one. */
  lemma ConfigIsOneOfTwo(rules: Rules, config: Config, values: map<string, string>, order: seq<string>)
    requires IsOrder(values.Keys, order) && forall i :: 0 <= i < |order| ==> order[i] in values
    ensures var o := Fold(rules, config, values, order);
            && o.diagnostics == Collect(Complaining(rules, values), order)
            && CapabilitiesOf(o.config) == Listed(rules, config, values)
            && (|| o.config == FinalConfig(rules, config, values, values.Keys, false)
                || (Contested(rules, values) && o.config == FinalConfig(rules, config, values, values.Keys, true)))
  {
    FoldIsFinal(rules, config, values, order);
  }

  /** Ranges over the map in whatever order it comes; the result is that of some order of its keys and
      some order of its capability classes. */
  method ApplyConfigMap(rules: Rules, config: Config, values: map<string, string>)
    returns (result: Outcome, ghost orders: Orders)
    ensures AreOrders(rules, config, values, orders) && result == Applied(rules, config, values, orders)
    ensures || result.config == FinalConfig(rules, config, values, values.Keys, false)
            || (Contested(rules, values) && result.config == FinalConfig(rules, config, values, values.Keys, true))
  {
    var rest := values.Keys;
    var o := Outcome(config, []);
    ghost var order := [];
    while rest != {}
      invariant rest <= values.Keys && Reached(rules, config, values, rest, order, o)
      decreases |rest|
    {
      var key :| key in rest;
      ReachOneMore(rules, config, values, rest, order, o, key);
      rest := rest - {key};
      o := ApplyKey(rules, o, key, values[key]);
      order := order + [key];
    }
    ConfigIsOneOfTwo(rules, config, values, order);
    var faults;
    ghost var capabilities;
    faults, capabilities := ValidateRouting(o.config);
    return Outcome(o.config, o.diagnostics + faults), Orders(order, capabilities);
  }

  predicate RaisesNothing(rules: Rules, values: map<string, string>) {
    forall key :: key in values ==> Complaint(rules, key, values[key]).None?
  }

  lemma NobodyRaises(rules: Rules, values: map<string, string>, order: seq<string>)
    requires IsOrder(values.Keys, order)
    ensures Collect(Complaining(rules, values), order) == [] <==> RaisesNothing(rules, values)
  {
    var raise := Complaining(rules, values);
    CollectCounts(raise, order);
    if RaisesNothing(rules, values) {
      assert Raising(raise, values.Keys) == {};
    } else {
      var key :| key in values && Complaint(rules, key, values[key]).Some?;
      assert key in Raising(raise, values.Keys);
    }
  }

  // ----- when the order matters -----

  /** The map gives a default that is not one of the classes it also gives. */
  predicate Contested(rules: Rules, values: map<string, string>) {
    && CLASSES in values && DEFAULT_CLASS in values && !rules.secret(CLASSES) && !rules.secret(DEFAULT_CLASS)
    && ConfigList(values[CLASSES]).Some? && values[DEFAULT_CLASS] !in ConfigList(values[CLASSES]).value
  }

  lemma LastKeyDecides(values: map<string, string>, order: seq<string>)
    requires IsOrder(values.Keys, order) && order != [] && CLASSES in values && DEFAULT_CLASS in values
    ensures order[|order| - 1] == CLASSES ==> ClassesLast(order)
    ensures order[|order| - 1] == DEFAULT_CLASS ==> !ClassesLast(order)
  {
  }

  /** The result in full: its configuration, then the keys' messages, then those about the routing. */
  lemma AppliedInFull(rules: Rules, config: Config, values: map<string, string>, orders: Orders)
    requires AreOrders(rules, config, values, orders)
    ensures var final := FinalConfig(rules, config, values, values.Keys, ClassesLast(orders.keys));
            Applied(rules, config, values, orders) ==
            Outcome(final, Collect(Complaining(rules, values), orders.keys) + RoutingFaults(final, orders.capabilities))
  {
    OrderMembers(values, orders.keys);
    FoldIsFinal(rules, config, values, orders.keys);
  }

  /** With a contested default, one order replaces it and finds no fault with it, another keeps it
      and reports it. */
  lemma ContestedTwice(rules: Rules, config: Config, values: map<string, string>)
    returns (replacing: Orders, keeping: Orders)
    requires Contested(rules, values)
    ensures AreOrders(rules, config, values, replacing) && AreOrders(rules, config, values, keeping)
    ensures ClassesLast(replacing.keys) && !ClassesLast(keeping.keys)
    ensures var one := Applied(rules, config, values, replacing).config;
            var other := Applied(rules, config, values, keeping).config;
            && one.defaultClass in one.classes && other.defaultClass !in other.classes
            && other == one.(defaultClass := values[DEFAULT_CLASS])
  {
    var capabilities := SomeOrder(Listed(rules, config, values));
    var keys := OrderEnding(values.Keys, CLASSES);
    LastKeyDecides(values, keys);
    replacing := Orders(keys, capabilities);
    AppliedInFull(rules, config, values, replacing);
    keys := OrderEnding(values.Keys, DEFAULT_CLASS);
    LastKeyDecides(values, keys);
    keeping := Orders(keys, capabilities);
    AppliedInFull(rules, config, values, keeping);
  }

  ghost predicate SameConfig(rules: Rules, config: Config, values: map<string, string>) {
    forall a, b :: AreOrders(rules, config, values, a) && AreOrders(rules, config, values, b) ==>
      Applied(rules, config, values, a).config == Applied(rules, config, values, b).config
  }

  /** The configuration is the same in every order exactly when the map does not give both valid
      classes and a default outside them. */
  lemma SameConfigExactlyWhen(rules: Rules, config: Config, values: map<string, string>)
    ensures SameConfig(rules, config, values) <==> !Contested(rules, values)
  {
    if Contested(rules, values) {
      var a, b := ContestedTwice(rules, config, values);
    } else {
      forall a, b | AreOrders(rules, config, values, a) && AreOrders(rules, config, values, b)
        ensures Applied(rules, config, values, a).config == Applied(rules, config, values, b).config
      {
        AppliedInFull(rules, config, values, a);
        AppliedInFull(rules, config, values, b);
      }
    }
  }

  ghost predicate OrderFree(rules: Rules, config: Config, values: map<string, string>) {
    forall a, b :: AreOrders(rules, config, values, a) && AreOrders(rules, config, values, b) ==>
      Applied(rules, config, values, a) == Applied(rules, config, values, b)
  }

  /** No two keys raise different messages. */
  predicate OneComplaint(rules: Rules, values: map<string, string>) {
    OneMessage(Complaining(rules, values), values.Keys)
  }

  /** No two classes with capabilities are missing from the classes. */
  predicate OneStray(rules: Rules, config: Config, values: map<string, string>) {
    OneMessage(Straying(Capabilities, FinalConfig(rules, config, values, values.Keys, false).classes),
               Listed(rules, config, values))
  }

  /** The whole outcome, messages and their order included, is the same in every order exactly when
      the configuration is, at most one message comes from the keys, and at most one from the
      capability classes. */
  lemma OrderFreeExactlyWhen(rules: Rules, config: Config, values: map<string, string>)
    ensures OrderFree(rules, config, values) <==>
            !Contested(rules, values) && OneComplaint(rules, values) && OneStray(rules, config, values)
  {
    if Contested(rules, values) {
      var a, b := ContestedTwice(rules, config, values);
    } else if !OneComplaint(rules, values) {
      ComplaintsCompete(rules, config, values);
    } else if !OneStray(rules, config, values) {
      StraysCompete(rules, config, values);
    } else {
      forall a, b | AreOrders(rules, config, values, a) && AreOrders(rules, config, values, b)
        ensures Applied(rules, config, values, a) == Applied(rules, config, values, b)
      {
        NothingCompetes(rules, config, values, a, b);
      }
    }
  }

  lemma NothingCompetes(rules: Rules, config: Config, values: map<string, string>, a: Orders, b: Orders)
    requires !Contested(rules, values) && OneComplaint(rules, values) && OneStray(rules, config, values)
    requires AreOrders(rules, config, values, a) && AreOrders(rules, config, values, b)
    ensures Applied(rules, config, values, a) == Applied(rules, config, values, b)
  {
    var final := FinalConfig(rules, config, values, values.Keys, false);
    AppliedUncontested(rules, config, values, a, final);
    AppliedUncontested(rules, config, values, b, final);
    SameMessages(Complaining(rules, values), values.Keys, a.keys, b.keys);
    SameMessages(Straying(Capabilities, final.classes), Listed(rules, config, values), a.capabilities, b.capabilities);
  }

  /** Without a contested default there is one final configuration. */
  lemma AppliedUncontested(rules: Rules, config: Config, values: map<string, string>, orders: Orders, final: Config)
    requires !Contested(rules, values) && AreOrders(rules, config, values, orders)
    requires final == FinalConfig(rules, config, values, values.Keys, false)
    ensures Applied(rules, config, values, orders) ==
            Outcome(final, Collect(Complaining(rules, values), orders.keys) + RoutingFaults(final, orders.capabilities))
  {
    AppliedInFull(rules, config, values, orders);
  }

  lemma AppliedComplaints(rules: Rules, config: Config, values: map<string, string>, orders: Orders)
    requires AreOrders(rules, config, values, orders) && Collect(Complaining(rules, values), orders.keys) != []
    ensures Applied(rules, config, values, orders).diagnostics != []
    ensures Applied(rules, config, values, orders).diagnostics[0] == Collect(Complaining(rules, values), orders.keys)[0]
  {
    AppliedInFull(rules, config, values, orders);
  }

  lemma ComplaintsCompete(rules: Rules, config: Config, values: map<string, string>)
    requires !OneComplaint(rules, values)
    ensures !OrderFree(rules, config, values)
  {
    var x, y := OtherMessages(Complaining(rules, values), values.Keys);
    var capabilities := SomeOrder(Listed(rules, config, values));
    AppliedComplaints(rules, config, values, Orders(x, capabilities));
    AppliedComplaints(rules, config, values, Orders(y, capabilities));
  }

  lemma StraysDiffer(config: Config, before: seq<Diagnostic>, x: seq<string>, y: seq<string>)
    requires Collect(Straying(Capabilities, config.classes), x) != []
    requires Collect(Straying(Capabilities, config.classes), y) != []
    requires Collect(Straying(Capabilities, config.classes), x)[0] != Collect(Straying(Capabilities, config.classes), y)[0]
    ensures before + RoutingFaults(config, x) != before + RoutingFaults(config, y)
  {
    var k := |before + (DefaultFault(config) + Collect(Straying(Fallback, config.classes), FallbackOf(config)))|;
    assert (before + RoutingFaults(config, x))[k] == Collect(Straying(Capabilities, config.classes), x)[0];
    assert (before + RoutingFaults(config, y))[k] == Collect(Straying(Capabilities, config.classes), y)[0];
  }

  lemma StraysCompete(rules: Rules, config: Config, values: map<string, string>)
    requires !Contested(rules, values) && !OneStray(rules, config, values)
    ensures !OrderFree(rules, config, values)
  {
    var final := FinalConfig(rules, config, values, values.Keys, false);
    var x, y := OtherMessages(Straying(Capabilities, final.classes), Listed(rules, config, values));
    var keys := SomeOrder(values.Keys);
    AppliedUncontested(rules, config, values, Orders(keys, x), final);
    AppliedUncontested(rules, config, values, Orders(keys, y), final);
    StraysDiffer(final, Collect(Complaining(rules, values), keys), x, y);
  }

  // ----- whether the policy loads -----

  /** Whether a map loads, its keys and classes coming in these orders. */
  predicate Loads(rules: Rules, config: Config, values: map<string, string>, orders: Orders)
    requires AreOrders(rules, config, values, orders)
  {
    Applied(rules, config, values, orders).diagnostics == []
  }

  lemma LoadsExactlyWhen(rules: Rules, config: Config, values: map<string, string>, orders: Orders)
    requires AreOrders(rules, config, values, orders)
    ensures Loads(rules, config, values, orders) <==>
            RaisesNothing(rules, values) && Stands(rules, config, values, ClassesLast(orders.keys))
  {
    AppliedInFull(rules, config, values, orders);
    NobodyRaises(rules, values, orders.keys);
    FaultlessStands(FinalConfig(rules, config, values, values.Keys, ClassesLast(orders.keys)), orders.capabilities);
  }

  predicate Stands(rules: Rules, config: Config, values: map<string, string>, classesLast: bool) {
    RoutingStands(FinalConfig(rules, config, values, values.Keys, classesLast))
  }

  /** In some order the map loads, and in some order it does not. */
  ghost predicate LoadsByChance(rules: Rules, config: Config, values: map<string, string>) {
    && (exists a :: AreOrders(rules, config, values, a) && Loads(rules, config, values, a))
    && (exists b :: AreOrders(rules, config, values, b) && !Loads(rules, config, values, b))
  }

  /** A contested default stands only when it is replaced; any other, in both orders or in neither. */
  lemma StandsEitherWay(rules: Rules, config: Config, values: map<string, string>)
    ensures Contested(rules, values) ==> !Stands(rules, config, values, false)
    ensures !Contested(rules, values) ==>
              (Stands(rules, config, values, true) <==> Stands(rules, config, values, false))
  {
  }

  /** A policy loads in one order and is refused in another exactly when its default is contested and
      nothing else is wrong with it. */
  lemma LoadsByChanceExactlyWhen(rules: Rules, config: Config, values: map<string, string>)
    ensures LoadsByChance(rules, config, values) <==>
            Contested(rules, values) && RaisesNothing(rules, values) && Stands(rules, config, values, true)
  {
    StandsEitherWay(rules, config, values);
    forall orders | AreOrders(rules, config, values, orders)
      ensures Loads(rules, config, values, orders) <==>
              RaisesNothing(rules, values) && Stands(rules, config, values, ClassesLast(orders.keys))
    {
      LoadsExactlyWhen(rules, config, values, orders);
    }
    if Contested(rules, values) {
      var a, b := ContestedTwice(rules, config, values);
    }
  }
}
