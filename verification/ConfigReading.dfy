/** Which setting the text of a key denotes: every setting that fits its key reads back from how it is
    written, and nothing else is ever read. */
module ConfigReading {
  import opened Common
  import opened RequestIds
  import opened ConfigApply

  // ----- lists -----

  /** An item that reads as itself: not blank at its ends, and no comma. */
  predicate PlainItem(item: string) {
    item != "" && !Space(item[0]) && !Space(item[|item| - 1]) && ',' !in item
  }

  /** An item with white space around it. */
  datatype Padded = Padded(before: string, item: string, after: string)
  {
    predicate Plain() {
      Blank(before) && PlainItem(item) && Blank(after)
    }

    function Text(): string {
      before + item + after
    }
  }

  function Texts(ps: seq<Padded>): (r: seq<string>)
    ensures |r| == |ps| && forall i :: 0 <= i < |r| ==> r[i] == ps[i].Text()
  {
    seq(|ps|, i requires 0 <= i < |ps| => ps[i].Text())
  }

  function ItemsOf(ps: seq<Padded>): (r: seq<string>)
    ensures |r| == |ps| && forall i :: 0 <= i < |r| ==> r[i] == ps[i].item
  {
    seq(|ps|, i requires 0 <= i < |ps| => ps[i].item)
  }

  lemma PaddingIsTrimmed(p: Padded)
    requires p.Plain()
    ensures TrimSpace(p.Text()) == p.item && ',' !in p.Text()
  {
    Trims(p.before, p.item, p.after);
    assert forall c :: c in p.before || c in p.after ==> Space(c);
  }

  /** A comma-separated text reads as its items, the white space around them gone. */
  lemma ItemsAreRead(ps: seq<Padded>)
    requires ps != [] && forall i :: 0 <= i < |ps| ==> ps[i].Plain()
    ensures Trimmed(Split(Join(Texts(ps), ','), ',')) == ItemsOf(ps) && "" !in ItemsOf(ps)
  {
    forall i | 0 <= i < |ps| ensures ',' !in Texts(ps)[i] && TrimSpace(Texts(ps)[i]) == ItemsOf(ps)[i] {
      PaddingIsTrimmed(ps[i]);
    }
    SplitJoined(Texts(ps), ',');
  }

  /** A list without repetitions is what its text is read as, however it is spaced; one with a repetition is
      not read at all. */
  lemma ListIsRead(ps: seq<Padded>)
    requires ps != [] && forall i :: 0 <= i < |ps| ==> ps[i].Plain()
    ensures ConfigList(Join(Texts(ps), ',')) == if Distinct(ItemsOf(ps)) then Some(ItemsOf(ps)) else None
  {
    ItemsAreRead(ps);
  }

  lemma {:induction false} NoneIsEmpty(items: seq<string>)
    requires "" !in items
    ensures NonEmpty(items) == items
  {
    if items != [] {
      assert items == [items[0]] + items[1..];
      NoneIsEmpty(items[1..]);
    }
  }

  // ----- settings -----

  /** What a key of an ordinary kind can be set to. */
  predicate Fits(kind: Kind, s: Setting) {
    match kind
    case AnyText => s.Text?
    case Boolean => s.Flag?
    case Integer(least) => s.Number? && least <= s.n <= INT64_MAX && INT64_MIN <= s.n
    case Among(allowed) => s.Text? && s.text in allowed
    case DistinctList => s.Items? && s.items != [] && "" !in s.items && Distinct(s.items)
    case LooseList => s.Items? && s.items != [] && "" !in s.items
    case _ => false
  }

  /** A text that writes a setting: itself, a truth value in one of six spellings, a decimal number, or items
      with commas between them and any white space around each. */
  ghost predicate Writes(value: string, s: Setting) {
    match s
    case Text(text) => value == text
    case Flag(on) =>
      value in if on then ["1", "t", "T", "true", "TRUE", "True"] else ["0", "f", "F", "false", "FALSE", "False"]
    case Number(n) => INT64_MIN <= n <= INT64_MAX && value == FormatInt(n)
    case Items(items) => exists ps :: WritesItems(value, ps, items)
  }

  predicate WritesItems(value: string, ps: seq<Padded>, items: seq<string>) {
    ps != [] && (forall i :: 0 <= i < |ps| ==> ps[i].Plain()) && value == Join(Texts(ps), ',') && items == ItemsOf(ps)
  }

  /** Every setting that fits its key reads back from how it is written. */
  lemma SettingsReadBack(kind: Kind, value: string, s: Setting)
    requires Fits(kind, s) && Writes(value, s)
    ensures ReadAs(kind, value) == Some(s)
  {
    if s.Number? {
      ParseIntInvertsFormatInt(s.n);
    } else if s.Items? {
      var ps :| WritesItems(value, ps, s.items);
      ItemsAreRead(ps);
      NoneIsEmpty(s.items);
    }
  }

  /** And whatever is read fits its key. */
  lemma ReadSettingsFit(kind: Kind, value: string)
    requires ReadAs(kind, value).Some?
    ensures Fits(kind, ReadAs(kind, value).value)
  {
    NonEmptyKeeps(Trimmed(Split(value, ',')));
  }

  lemma {:induction false} NonEmptyKeeps(items: seq<string>)
    ensures "" !in NonEmpty(items)
  {
    if items != [] {
      NonEmptyKeeps(items[1..]);
    }
  }

  /** A truth value has these spellings and no other. */
  lemma OnlyTheseAreTruthValues(value: string)
    ensures ReadAs(Boolean, value).Some? <==> Writes(value, Flag(true)) || Writes(value, Flag(false))
  {
  }

  // ----- keys -----

  /** What the reader makes of each key, the two that name routing classes aside. */
  predicate Named(key: string, kind: Kind) {
    match kind
    case AnyText => key in ["version", "agent", "gates.verify", "orchestration.model", "submit.command"]
    case Boolean => key in ["criteria.required", "delegation.enabled", "orchestration.enabled", "review.required",
                            "routing.allow_unknown_telemetry"]
    case Integer(least) =>
      || (least == 0 && key in ["escalation.max_verify_fails", "routing.deadline_seconds", "routing.max_cost_micros",
                                "routing.max_retries", "routing.max_tokens", "verify.timeout_seconds"])
      || (least == 1 && key in ["context.max_tokens", "promotion_threshold", "submit.timeout_seconds"])
    case Among(allowed) =>
      || (allowed == ["off", "warn", "error"]
          && key in ["security.clean_worktree", "security.injection", "security.sandbox", "security.secrets",
                     "security.slopsquat"])
      || (key == "profile" && allowed == ["default", "production"])
      || (key == "security.profile" && allowed == ["prototype", "production"])
      || (key == "routing.version" && allowed == ["1"])
    case DistinctList => key == "routing.fallback"
    case LooseList => key == "verify.trivial"
    case Structured => key in ["routing.class_capabilities", "routing.recommendations"]
    case Environment => "environments." <= key
    case Unknown => false
  }

  lemma KindsAreNamed(key: string)
    requires KindOf(key) != Unknown
    ensures Named(key, KindOf(key))
  {
  }

  /** No key is left out, and none has two kinds. */
  lemma NamedKindsAreKinds(key: string, kind: Kind)
    requires Named(key, kind)
    ensures KindOf(key) == kind
  {
    if kind.AnyText? || kind.Boolean? || kind.Integer? {
      PlainKinds(key, kind);
    } else if kind.Among? {
      ChoiceKinds(key, kind);
    } else {
      OtherKinds(key, kind);
    }
  }

  lemma PlainKinds(key: string, kind: Kind)
    requires Named(key, kind) && (kind.AnyText? || kind.Boolean? || kind.Integer?)
    ensures KindOf(key) == kind
  {
    EnvironmentStarts(key);
  }

  lemma ChoiceKinds(key: string, kind: Kind)
    requires Named(key, kind) && kind.Among?
    ensures KindOf(key) == kind
  {
    if key in SEVERITY_KEYS {
      SeverityKinds(key);
    } else {
      SingleKinds(key);
    }
  }

  lemma SeverityKinds(key: string)
    requires key in SEVERITY_KEYS
    ensures KindOf(key) == Among(["off", "warn", "error"])
  {
    EnvironmentStarts(key);
  }

  lemma SingleKinds(key: string)
    ensures key == "profile" ==> KindOf(key) == Among(["default", "production"])
    ensures key == "security.profile" ==> KindOf(key) == Among(["prototype", "production"])
    ensures key == "routing.version" ==> KindOf(key) == Among(["1"])
  {
    EnvironmentStarts(key);
  }

  lemma OtherKinds(key: string, kind: Kind)
    requires Named(key, kind) && !(kind.AnyText? || kind.Boolean? || kind.Integer? || kind.Among?)
    ensures KindOf(key) == kind
  {
    EnvironmentStarts(key);
  }

  lemma EnvironmentStarts(key: string)
    ensures ENVIRONMENTS <= key ==> |key| > 1 && key[1] == 'n'
  {
    if ENVIRONMENTS <= key {
      assert key[1] == ENVIRONMENTS[1];
    }
  }

  // ----- one key of a policy -----

  /** What one key is refused for, if anything: a secret is, whatever it is; a list of classes is unless it
      reads as one; and any other key is if it is not known, or its text does not denote a setting. */
  lemma RefusedExactlyWhen(rules: Rules, key: string, value: string)
    ensures var r := Complaint(rules, key, value);
            if rules.secret(key) then r == Some(Secret(key))
            else if key == "routing.default_class" then r == None
            else if key == "routing.classes" then r == if ConfigList(value).Some? then None else Some(BadValue(key))
            else
              match KindOf(key)
              case Unknown => r == Some(UnknownKey(key))
              case Environment =>
                var e := rules.environment(key[|"environments."|..], value);
                r == if e.Ok? then None else Some(Reported(e.error))
              case Structured => r == if rules.structured(key, value).Some? then None else Some(BadValue(key))
              case kind => r == if ReadAs(kind, value).Some? then None else Some(BadValue(key))
  {
  }

  /** What one key changes: nothing if it is refused; the classes, and the default if it is none of them; the
      default; or the one setting its text denotes. */
  lemma KeyChanges(rules: Rules, config: Config, key: string, value: string)
    ensures var r := ApplyKey(rules, Outcome(config, []), key, value);
            && r.diagnostics == (if Complaint(rules, key, value).Some? then [Complaint(rules, key, value).value] else [])
            && (Complaint(rules, key, value).Some? ==> r.config == config)
            && (Complaint(rules, key, value).None? ==>
                  if key == "routing.classes" then
                    ConfigList(value).Some? &&
                    var items := ConfigList(value).value;
                    r.config == Config(config.settings, items,
                                       if config.defaultClass in items then config.defaultClass else items[0])
                  else if key == "routing.default_class" then r.config == Config(config.settings, config.classes, value)
                  else
                    && Read(rules, key, value).Ok?
                    && r.config == Config(config.settings[key := Read(rules, key, value).value], config.classes,
                                          config.defaultClass))
  {
  }

  /** And the setting of a key that is not refused is what its environment, its structured value or its text
      denotes. */
  lemma KeyReads(rules: Rules, key: string, value: string)
    requires !Routes(key) && Complaint(rules, key, value).None?
    ensures var r := Read(rules, key, value);
            && r.Ok? && !rules.secret(key)
            && match KindOf(key)
               case Unknown => false
               case Environment => Ok(r.value) == rules.environment(key[|"environments."|..], value)
               case Structured => Some(r.value) == rules.structured(key, value)
               case kind => Some(r.value) == ReadAs(kind, value)
  {
  }

  // ----- what routing names -----

  /** The names a setting lists, if it lists any. */
  predicate Lists(config: Config, key: string, name: string) {
    key in config.settings && config.settings[key].Items? && name in config.settings[key].items
  }

  lemma {:induction false} StraysAre(list: RoutingList, classes: seq<string>, order: seq<string>, d: Diagnostic)
    ensures d in Collect(Straying(list, classes), order) <==>
            d.NotAClass? && d.list == list && d.name in order && d.name !in classes
  {
    if order != [] {
      var before, name := order[..|order| - 1], order[|order| - 1];
      assert order == before + [name];
      StraysAre(list, classes, before, d);
    }
  }

  /** Routing is faulted for a default that is not a class, for every fallback that is not one, and for every
      class with capabilities that is not one, and for nothing else; so it stands if all of them are. */
  lemma RoutingIsFaultedExactlyWhen(config: Config, capabilities: seq<string>, d: Diagnostic)
    requires IsOrder(CapabilitiesOf(config), capabilities)
    ensures d in RoutingFaults(config, capabilities) <==>
            || (d == DefaultNotAClass && config.defaultClass !in config.classes)
            || (d.NotAClass? && d.name !in config.classes
                && Lists(config, if d.list.Fallback? then "routing.fallback" else "routing.class_capabilities", d.name))
    ensures RoutingStands(config) <==>
            && config.defaultClass in config.classes
            && forall name :: Lists(config, "routing.fallback", name) || Lists(config, "routing.class_capabilities", name) ==>
                 name in config.classes
  {
    StraysAre(Fallback, config.classes, FallbackOf(config), d);
    StraysAre(Capabilities, config.classes, capabilities, d);
    forall name ensures name in CapabilitiesOf(config) <==> Lists(config, "routing.class_capabilities", name) {
    }
    forall name ensures name in FallbackOf(config) <==> Lists(config, "routing.fallback", name) {
    }
    assert forall name :: name in capabilities <==> name in CapabilitiesOf(config);
  }
}
