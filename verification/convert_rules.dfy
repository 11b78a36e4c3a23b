/** The rewrite rules of the converter besides `update_task`, and the walk
    that applies the first matching rule to every section of a tree. */
module ConvertRules {
  import opened Common
  import opened IniSection
  import opened Convert

  // ---------------------------------------------------------------------------
  // Interfaces, items, shapes and contexts
  // ---------------------------------------------------------------------------

  /** The mark a rule leaves on a section its parent must drop. */
  const ToClear := "__to_clear__"

  /** The interfaces that have no counterpart in exopy. */
  predicate Dropped(v: Value)
  {
    v == Text("AWGTransferInterface") || v == Text("TaborTransferInterface")
  }

  /** `update_task_interface`: the transfer interfaces are only marked for
      removal; any other is retagged through the interface table. */
  function UpdateInterface(sec: Section): (r: Result<Section>)
    ensures !In(sec, "interface_class") ==> r == Err(KeyError("interface_class"))
    ensures In(sec, "interface_class") && Dropped(Lookup(sec, "interface_class").value) ==>
              r.Ok? && Lookup(r.value, ToClear) == Some(Flag(true)) &&
              forall q :: q != ToClear ==> Lookup(r.value, q) == Lookup(sec, q)
    ensures In(sec, "interface_class") && !Dropped(Lookup(sec, "interface_class").value) ==>
              var v := Lookup(sec, "interface_class").value;
              (r.Ok? <==> v.Text? && v.s in Interfaces) &&
              (v.Text? && v.s !in Interfaces ==> r == Err(ValueError(v.s))) &&
              (r.Ok? ==>
                 Lookup(r.value, "interface_id") == Some(Text(Interfaces[v.s])) &&
                 Lookup(r.value, "dep_type") == Some(Text(InterfaceDepType)) &&
                 !In(r.value, "interface_class") && In(r.value, ToClear) == In(sec, ToClear))
    ensures r.Ok? ==> Size(r.value) <= Size(sec)
  {
    match Lookup(sec, "interface_class")
    case None => Err(KeyError("interface_class"))
    case Some(v) =>
      if Dropped(v) then Ok(Set(sec, ToClear, Flag(true)))
      else
        assert ToClear != "interface_class" && ToClear != "interface_id" && ToClear != "dep_type";
        Retag(sec, "interface_class", "interface_id", Interfaces, InterfaceDepType)
  }

  const ModulationDepType := "exopy.pulses.modulation"
  const ModulationId := "exopy_pulses.Modulation"

  /** The modulation of a pulse gets its dependency type and id. */
  function Modulated(m: Section): (r: Section)
    ensures Lookup(r, "dep_type") == Some(Text(ModulationDepType))
    ensures Lookup(r, "modulation_id") == Some(Text(ModulationId))
    ensures forall q :: q != "dep_type" && q != "modulation_id" ==> Lookup(r, q) == Lookup(m, q)
    ensures Size(r) <= Size(m)
  {
    assert "dep_type" != "modulation_id";
    Set(Set(m, "dep_type", Text(ModulationDepType)), "modulation_id", Text(ModulationId))
  }

  /** A pulse's `modulation`, when there is one, gets its dependency type
      and id; a modulation that is not a section cannot take them. */
  function WithModulation(s: Section): (r: Result<Section>)
    ensures !In(s, "modulation") ==> r == Ok(s)
    ensures In(s, "modulation") && !Lookup(s, "modulation").value.Sub? ==> r == Err(TypeError)
    ensures In(s, "modulation") && Lookup(s, "modulation").value.Sub? ==>
              r.Ok? && Lookup(r.value, "modulation") == Some(Sub(Modulated(Lookup(s, "modulation").value.sec)))
    ensures r.Ok? ==> Size(r.value) <= Size(s)
  {
    match Lookup(s, "modulation")
    case None => Ok(s)
    case Some(m) =>
      if !m.Sub? then Err(TypeError)
      else Ok(Set(s, "modulation", Sub(Modulated(m.sec))))
  }

  /** Only the modulation changes. */
  lemma WithModulationKeeps(s: Section, q: string)
    requires q != "modulation" && WithModulation(s).Ok?
    ensures Lookup(WithModulation(s).value, q) == Lookup(s, q)
  {
  }

  lemma ItemKeysDistinct()
    ensures "modulation" != "item_class" && "modulation" != "item_id" && "modulation" != "dep_type"
  {
    assert "modulation"[0] != "item_class"[0] && "modulation"[0] != "dep_type"[0];
  }

  /** `update_item`, for a given item table: retagged through the table;
      a pulse's modulation is then updated, and only a pulse's. */
  function UpdateItemWith(sec: Section, table: map<string, string>): (r: Result<Section>)
    ensures Retag(sec, "item_class", "item_id", table, ItemDepType).Err? ==>
              r == Retag(sec, "item_class", "item_id", table, ItemDepType)
    ensures r.Ok? ==> Retag(sec, "item_class", "item_id", table, ItemDepType).Ok?
    ensures Lookup(sec, "item_class") != Some(Text("Pulse")) ==>
              r == Retag(sec, "item_class", "item_id", table, ItemDepType)
    ensures Lookup(sec, "item_class") == Some(Text("Pulse")) && "Pulse" in table ==>
              r == WithModulation(Retag(sec, "item_class", "item_id", table, ItemDepType).value)
    ensures r.Ok? ==> Size(r.value) <= Size(sec)
  {
    match Retag(sec, "item_class", "item_id", table, ItemDepType)
    case Err(e) => Err(e)
    case Ok(s1) =>
      if Lookup(sec, "item_class") == Some(Text("Pulse")) then WithModulation(s1)
      else Ok(s1)
  }

  /** The item's new id and dependency type. */
  lemma UpdateItemSets(sec: Section, table: map<string, string>)
    requires UpdateItemWith(sec, table).Ok?
    ensures Lookup(sec, "item_class").value.s in table
    ensures var r := UpdateItemWith(sec, table).value;
            Lookup(r, "item_id") == Some(Text(table[Lookup(sec, "item_class").value.s])) &&
            Lookup(r, "dep_type") == Some(Text(ItemDepType)) && !In(r, "item_class")
  {
    ItemKeysDistinct();
    if Lookup(sec, "item_class") == Some(Text("Pulse")) {
      var s1 := Retag(sec, "item_class", "item_id", table, ItemDepType).value;
      WithModulationKeeps(s1, "item_id");
      WithModulationKeeps(s1, "dep_type");
      WithModulationKeeps(s1, "item_class");
    }
  }

  /** Every other entry is kept, and the modulation of anything but a
      pulse. */
  lemma UpdateItemKeeps(sec: Section, table: map<string, string>, q: string)
    requires UpdateItemWith(sec, table).Ok?
    requires q != "item_class" && q != "item_id" && q != "dep_type"
    requires q == "modulation" ==> Lookup(sec, "item_class") != Some(Text("Pulse"))
    ensures Lookup(UpdateItemWith(sec, table).value, q) == Lookup(sec, q)
  {
    if Lookup(sec, "item_class") == Some(Text("Pulse")) {
      WithModulationKeeps(Retag(sec, "item_class", "item_id", table, ItemDepType).value, q);
    }
  }

  /** `update_item`, with the converter's item table. */
  function UpdateItem(sec: Section): (r: Result<Section>)
    ensures r.Ok? ==> Size(r.value) <= Size(sec)
  {
    UpdateItemWith(sec, Items)
  }

  /** `update_shape`: retagged through the shape table. */
  function UpdateShape(sec: Section): (r: Result<Section>)
    ensures !In(sec, "shape_class") ==> r == Err(KeyError("shape_class"))
    ensures r.Ok? <==> In(sec, "shape_class") && Lookup(sec, "shape_class").value.Text? &&
                       Lookup(sec, "shape_class").value.s in Shapes
    ensures r.Ok? ==>
              Lookup(r.value, "shape_id") == Some(Text(Shapes[Lookup(sec, "shape_class").value.s])) &&
              Lookup(r.value, "dep_type") == Some(Text(ShapeDepType)) && !In(r.value, "shape_class") &&
              forall q :: q !in {"shape_class", "shape_id", "dep_type"} ==> Lookup(r.value, q) == Lookup(sec, q)
    ensures r.Ok? ==> Size(r.value) <= Size(sec)
  {
    Retag(sec, "shape_class", "shape_id", Shapes, ShapeDepType)
  }

  /** `update_context`: retagged through the context table. */
  function UpdateContext(sec: Section): (r: Result<Section>)
    ensures !In(sec, "context_class") ==> r == Err(KeyError("context_class"))
    ensures r.Ok? <==> In(sec, "context_class") && Lookup(sec, "context_class").value.Text? &&
                       Lookup(sec, "context_class").value.s in Contexts
    ensures r.Ok? ==>
              Lookup(r.value, "context_id") == Some(Text(Contexts[Lookup(sec, "context_class").value.s])) &&
              Lookup(r.value, "dep_type") == Some(Text(ContextDepType)) && !In(r.value, "context_class") &&
              forall q :: q !in {"context_class", "context_id", "dep_type"} ==> Lookup(r.value, q) == Lookup(sec, q)
    ensures r.Ok? ==> Size(r.value) <= Size(sec)
  {
    Retag(sec, "context_class", "context_id", Contexts, ContextDepType)
  }

  // ---------------------------------------------------------------------------
  // Monitors
  // ---------------------------------------------------------------------------

  /** The keys of a monitor's rules and custom entries. */
  predicate RuleKey(q: string)
  {
    IsPrefix("rule_", q) || IsPrefix("custom_", q)
  }

  /** The entries whose keys are not a rule's or a custom entry's, in
      order. */
  function DropRules(es: seq<(string, Value)>): (r: seq<(string, Value)>)
    ensures UniqueKeys(es) ==> UniqueKeys(r)
    decreases |es|, 1
  {
    if es == [] then []
    else
      var rest := DropRules(es[1..]);
      if RuleKey(es[0].0) then rest
      else if UniqueKeys(es) then
        TailUnique(es);
        DropRulesGet(es[1..], es[0].0);
        ConsUnique(es[0], rest);
        [es[0]] + rest
      else [es[0]] + rest
  }

  /** Exactly the rules and custom entries are dropped. */
  lemma {:induction false} DropRulesGet(es: seq<(string, Value)>, q: string)
    ensures Get(DropRules(es), q) == if RuleKey(q) then None else Get(es, q)
    decreases |es|, 2
  {
    if es != [] {
      DropRulesGet(es[1..], q);
    }
  }

  const ExtraUndisplayed: seq<string> := ["meas_name", "meas_id", "meas_date"]

  lemma RuleKeys()
    ensures RuleKey("rule_0") && RuleKey("rule_1")
    ensures !RuleKey("id") && !RuleKey("measure_name") && !RuleKey("undisplayed")
  {
    assert "rule_0"[..5] == "rule_" && "rule_1"[..5] == "rule_";
    assert "measure_name"[..5][0] != "rule_"[0] && "measure_name"[..7][0] != "custom_"[0];
    assert "undisplayed"[..5][0] != "rule_"[0] && "undisplayed"[..7][0] != "custom_"[0];
  }

  /** The rules and custom entries replaced by the two rules exopy's text
      monitor starts with. */
  function ResetRules(s: Section): (r: Section)
    ensures Lookup(r, "rule_0") == Some(Text("Loop progress"))
    ensures Lookup(r, "rule_1") == Some(Text("Measurement entries"))
  {
    Set(Set(Section(DropRules(s.entries)), "rule_0", Text("Loop progress")), "rule_1", Text("Measurement entries"))
  }

  /** No other rule or custom entry is left. */
  lemma ResetRulesDrops(s: Section, q: string)
    requires RuleKey(q) && q != "rule_0" && q != "rule_1"
    ensures !In(ResetRules(s), q)
  {
    DropRulesGet(s.entries, q);
  }

  /** Every other entry is kept. */
  lemma ResetRulesKeeps(s: Section, q: string)
    requires !RuleKey(q)
    ensures Lookup(ResetRules(s), q) == Lookup(s, q)
  {
    RuleKeys();
    DropRulesGet(s.entries, q);
  }

  /** `update_monitor`: the monitor's id and measure name go, three entries
      join the undisplayed ones, and the rules are reset. */
  function UpdateMonitor(sec: Section): (r: Result<Section>)
  {
    match Del(sec, "id")
    case Err(e) => Err(e)
    case Ok(s1) =>
      var s2 := Delete(s1, "measure_name");
      match Lookup(s2, "undisplayed")
      case None => Err(KeyError("undisplayed"))
      case Some(u) =>
        if u.Depths? then Err(TypeError)
        else if !u.Names? then Err(ValueError("undisplayed"))
        else Ok(ResetRules(Set(s2, "undisplayed", Names(u.l + ExtraUndisplayed))))
  }

  /** When `update_monitor` succeeds, and the error it raises otherwise. */
  lemma UpdateMonitorOk(sec: Section)
    ensures UpdateMonitor(sec).Ok? <==>
              In(sec, "id") && In(sec, "undisplayed") && Lookup(sec, "undisplayed").value.Names?
    ensures !In(sec, "id") ==> UpdateMonitor(sec) == Err(KeyError("id"))
    ensures In(sec, "id") && !In(sec, "undisplayed") ==> UpdateMonitor(sec) == Err(KeyError("undisplayed"))
    ensures In(sec, "id") && In(sec, "undisplayed") && Lookup(sec, "undisplayed").value.Depths? ==>
              UpdateMonitor(sec) == Err(TypeError)
  {
    MonitorKeysDistinct();
  }

  lemma MonitorKeysDistinct()
    ensures "undisplayed" != "id" && "undisplayed" != "measure_name" && "id" != "measure_name"
  {
    assert "undisplayed"[0] != "id"[0] && "undisplayed"[0] != "measure_name"[0];
  }

  /** The monitor before its rules are reset. */
  function Undisplayed(sec: Section): (r: Section)
    requires In(sec, "id") && In(sec, "undisplayed") && Lookup(sec, "undisplayed").value.Names?
    ensures UpdateMonitor(sec) == Ok(ResetRules(r))
    ensures !In(r, "id") && !In(r, "measure_name")
    ensures Lookup(r, "undisplayed") == Some(Names(Lookup(sec, "undisplayed").value.l + ExtraUndisplayed))
    ensures forall q :: q != "id" && q != "measure_name" && q != "undisplayed" ==> Lookup(r, q) == Lookup(sec, q)
  {
    MonitorKeysDistinct();
    var s1 := Delete(sec, "id");
    var s2 := Delete(s1, "measure_name");
    assert Lookup(s2, "undisplayed") == Lookup(sec, "undisplayed");
    var r := Set(s2, "undisplayed", Names(Lookup(sec, "undisplayed").value.l + ExtraUndisplayed));
    assert Lookup(r, "measure_name") == Lookup(s2, "measure_name") && !In(s2, "measure_name");
    assert Lookup(r, "id") == Lookup(s2, "id") == Lookup(s1, "id") && !In(s1, "id");
    r
  }

  /** What `update_monitor` leaves: no id and no measure name, three more
      undisplayed entries, the two new rules and no other rule or custom
      entry. */
  lemma UpdateMonitorSets(sec: Section)
    requires In(sec, "id") && In(sec, "undisplayed") && Lookup(sec, "undisplayed").value.Names?
    ensures var r := UpdateMonitor(sec).value;
            !In(r, "id") && !In(r, "measure_name") &&
            Lookup(r, "undisplayed") == Some(Names(Lookup(sec, "undisplayed").value.l + ExtraUndisplayed)) &&
            Lookup(r, "rule_0") == Some(Text("Loop progress")) &&
            Lookup(r, "rule_1") == Some(Text("Measurement entries")) &&
            forall q :: RuleKey(q) && q != "rule_0" && q != "rule_1" ==> !In(r, q)
  {
    UpdateMonitorOk(sec);
    RuleKeys();
    var s3 := Undisplayed(sec);
    ResetRulesKeeps(s3, "undisplayed");
    ResetRulesKeeps(s3, "id");
    ResetRulesKeeps(s3, "measure_name");
    forall q | RuleKey(q) && q != "rule_0" && q != "rule_1"
      ensures !In(UpdateMonitor(sec).value, q)
    {
      ResetRulesDrops(s3, q);
    }
  }

  /** Every other entry is kept. */
  lemma UpdateMonitorKeeps(sec: Section, q: string)
    requires In(sec, "id") && In(sec, "undisplayed") && Lookup(sec, "undisplayed").value.Names?
    requires !RuleKey(q) && q != "id" && q != "measure_name" && q != "undisplayed"
    ensures Lookup(UpdateMonitor(sec).value, q) == Lookup(sec, q)
  {
    UpdateMonitorOk(sec);
    ResetRulesKeeps(Undisplayed(sec), q);
  }

  // ---------------------------------------------------------------------------
  // The walk
  // ---------------------------------------------------------------------------

  /** The rules the converter walks the task tree with. */
  datatype Action = TaskRule | InterfaceRule | ItemRule | ShapeRule | ContextRule | KeepRule

  /** A rule: the key whose presence selects it, and what it does. */
  type Rule = (string, Action)

  /** The converter's rules, in the order it tries them. */
  const ConvertRules: seq<Rule> := [
    ("task_class", TaskRule),
    ("interface_class", InterfaceRule),
    ("item_class", ItemRule),
    ("shape_class", ShapeRule),
    ("context_class", ContextRule),
    ("modulation_id", KeepRule)]

  /** The first rule whose key the section holds. */
  function Choose(rules: seq<Rule>, sec: Section): (r: Option<Action>)
    ensures r.None? <==> forall j :: 0 <= j < |rules| ==> !In(sec, rules[j].0)
    ensures r.Some? ==> exists j :: 0 <= j < |rules| && In(sec, rules[j].0) && rules[j].1 == r.value &&
                                    forall m :: 0 <= m < j ==> !In(sec, rules[m].0)
  {
    if rules == [] then None
    else if In(sec, rules[0].0) then
      Some(rules[0].1)
    else
      var r := Choose(rules[1..], sec);
      assert forall j :: 0 <= j < |rules| - 1 ==> rules[1..][j] == rules[j + 1];
      if r.Some? then
        var j :| 0 <= j < |rules| - 1 && In(sec, rules[1..][j].0) && rules[1..][j].1 == r.value &&
                 forall m :: 0 <= m < j ==> !In(sec, rules[1..][m].0);
        assert In(sec, rules[j + 1].0) && rules[j + 1].1 == r.value &&
               forall m :: 0 <= m < j + 1 ==> !In(sec, rules[m].0);
        r
      else r
  }

  /** What a rule does to the section it is applied to. */
  function Apply(a: Action, sec: Section): (r: Result<Section>)
    ensures r.Ok? ==> Size(r.value) <= Size(sec)
  {
    match a
    case TaskRule => UpdateTask(sec)
    case InterfaceRule => UpdateInterface(sec)
    case ItemRule => UpdateItem(sec)
    case ShapeRule => UpdateShape(sec)
    case ContextRule => UpdateContext(sec)
    case KeepRule => Ok(sec)
  }

  /** What becomes of one subsection: dropped, or kept as converted. */
  datatype Outcome = Cleared | Kept(sub: Section)

  /** `iterate_on_sections(section, rules)`: every subsection, in order,
      gets the first rule that matches it (a ValueError naming it when none
      does) and is walked in turn; one the rule marks `__to_clear__` is
      dropped, though still walked. Scalars stay as they are. */
  function Iterate(sec: Section, rules: seq<Rule>): (r: Result<Section>)
    ensures r.Ok? ==> Size(r.value) <= Size(sec)
    decreases Size(sec), 1
  {
    match WalkFrom(sec, 0, rules)
    case Err(e) => Err(e)
    case Ok(es) => Ok(Section(es))
  }

  /** One subsection `s`, under the key `k`. */
  function Visit(s: Section, k: string, rules: seq<Rule>): (r: Result<Outcome>)
    ensures r.Ok? && r.value.Kept? ==> Size(r.value.sub) <= Size(s)
    decreases Size(s), 2
  {
    match Choose(rules, s)
    case None => Err(ValueError(k))
    case Some(a) =>
      match Apply(a, s)
      case Err(e) => Err(e)
      case Ok(s1) =>
        match Iterate(s1, rules)
        case Err(e) => Err(e)
        case Ok(s2) => if In(s1, ToClear) then Ok(Cleared) else Ok(Kept(s2))
  }

  /** The walk from the i-th entry on. */
  function WalkFrom(sec: Section, i: nat, rules: seq<Rule>): (r: Result<seq<(string, Value)>>)
    requires i <= |sec.entries|
    ensures r.Ok? ==> Size(Section(r.value)) <= Size(Section(sec.entries[i..]))
    decreases Size(sec), 0, |sec.entries| - i
  {
    if i == |sec.entries| then Ok([])
    else
      var (k, v) := sec.entries[i];
      assert sec.entries[i..] == [(k, v)] + sec.entries[i + 1..];
      SizeCons((k, v), sec.entries[i + 1..]);
      if !v.Sub? then
        match WalkFrom(sec, i + 1, rules)
        case Err(e) => Err(e)
        case Ok(es) => SizeCons((k, v), es); Ok([(k, v)] + es)
      else
        SizeChild(sec, i);
        match Visit(v.sec, k, rules)
        case Err(e) => Err(e)
        case Ok(o) =>
          match WalkFrom(sec, i + 1, rules)
          case Err(e) => Err(e)
          case Ok(es) =>
            if o.Cleared? then Ok(es)
            else SizeCons((k, Sub(o.sub)), es); Ok([(k, Sub(o.sub))] + es)
  }

  // ---------------------------------------------------------------------------
  // What the walk guarantees
  // ---------------------------------------------------------------------------

  /** The scalar entries, in order. */
  function Scalars(es: seq<(string, Value)>): (r: seq<(string, Value)>)
    ensures forall j :: 0 <= j < |r| ==> !r[j].1.Sub?
    ensures |r| <= |es|
  {
    if es == [] then []
    else if es[0].1.Sub? then Scalars(es[1..])
    else [es[0]] + Scalars(es[1..])
  }

  /** No subsection, at any depth, carries the removal mark. */
  predicate Clean(sec: Section)
    decreases Size(sec), 1
  {
    CleanEntries(sec.entries)
  }

  predicate CleanEntries(es: seq<(string, Value)>)
    decreases Size(Section(es)), 0, |es|
  {
    if es == [] then true
    else
      assert es == [es[0]] + es[1..];
      SizeCons(es[0], es[1..]);
      (es[0].1.Sub? ==> !In(es[0].1.sec, ToClear) && Clean(es[0].1.sec)) && CleanEntries(es[1..])
  }

  lemma ConsTail(x: (string, Value), es: seq<(string, Value)>)
    ensures ([x] + es)[0] == x && ([x] + es)[1..] == es
  {
  }

  lemma SliceTail(es: seq<(string, Value)>, i: nat)
    requires i < |es|
    ensures es[i..][0] == es[i] && es[i..][1..] == es[i + 1..]
  {
  }

  /** The walk keeps the scalars of the section it walks, in order. */
  lemma {:induction false} WalkFromScalars(sec: Section, i: nat, rules: seq<Rule>)
    requires i <= |sec.entries| && WalkFrom(sec, i, rules).Ok?
    ensures Scalars(WalkFrom(sec, i, rules).value) == Scalars(sec.entries[i..])
    decreases |sec.entries| - i
  {
    if i < |sec.entries| {
      WalkFromScalars(sec, i + 1, rules);
      SliceTail(sec.entries, i);
      var (k, v) := sec.entries[i];
      var es := WalkFrom(sec, i + 1, rules).value;
      if !v.Sub? {
        ConsTail((k, v), es);
      } else if Visit(v.sec, k, rules).value.Kept? {
        ConsTail((k, Sub(Visit(v.sec, k, rules).value.sub)), es);
      }
    }
  }

  /** `iterate_on_sections` leaves every scalar entry as it was. */
  lemma IterateScalars(sec: Section, rules: seq<Rule>)
    requires Iterate(sec, rules).Ok?
    ensures Scalars(Iterate(sec, rules).value.entries) == Scalars(sec.entries)
  {
    WalkFromScalars(sec, 0, rules);
    assert sec.entries[0..] == sec.entries;
  }

  /** The walk adds no key. */
  lemma {:induction false} WalkFromKeys(sec: Section, i: nat, rules: seq<Rule>, k: string)
    requires i <= |sec.entries| && WalkFrom(sec, i, rules).Ok?
    requires Get(WalkFrom(sec, i, rules).value, k).Some?
    ensures Get(sec.entries[i..], k).Some?
    decreases |sec.entries| - i
  {
    SliceTail(sec.entries, i);
    var (key, v) := sec.entries[i];
    var es := WalkFrom(sec, i + 1, rules).value;
    if key != k {
      if !v.Sub? {
        ConsTail((key, v), es);
      } else if Visit(v.sec, key, rules).value.Kept? {
        ConsTail((key, Sub(Visit(v.sec, key, rules).value.sub)), es);
      }
      WalkFromKeys(sec, i + 1, rules, k);
    }
  }

  /** `iterate_on_sections` only removes keys. */
  lemma IterateKeys(sec: Section, rules: seq<Rule>, k: string)
    requires Iterate(sec, rules).Ok? && In(Iterate(sec, rules).value, k)
    ensures In(sec, k)
  {
    WalkFromKeys(sec, 0, rules, k);
    assert sec.entries[0..] == sec.entries;
  }

  /** When the walk succeeds, every subsection it passed matched a rule. */
  lemma {:induction false} WalkFromMatched(sec: Section, i: nat, rules: seq<Rule>, j: nat)
    requires i <= j < |sec.entries| && sec.entries[j].1.Sub? && WalkFrom(sec, i, rules).Ok?
    ensures Choose(rules, sec.entries[j].1.sec).Some?
    decreases j - i
  {
    if i < j {
      WalkFromMatched(sec, i + 1, rules, j);
    }
  }

  /** A subsection no rule matches makes `iterate_on_sections` fail. */
  lemma IterateMatched(sec: Section, rules: seq<Rule>)
    requires Iterate(sec, rules).Ok?
    ensures forall j :: 0 <= j < |sec.entries| && sec.entries[j].1.Sub? ==>
              Choose(rules, sec.entries[j].1.sec).Some?
  {
    forall j | 0 <= j < |sec.entries| && sec.entries[j].1.Sub?
      ensures Choose(rules, sec.entries[j].1.sec).Some?
    {
      WalkFromMatched(sec, 0, rules, j);
    }
  }

  /** What `iterate_on_sections` leaves holds no subsection marked for
      removal, at any depth. */
  lemma {:induction false} IterateClean(sec: Section, rules: seq<Rule>)
    requires Iterate(sec, rules).Ok?
    ensures Clean(Iterate(sec, rules).value)
    decreases Size(sec), 1
  {
    WalkFromClean(sec, 0, rules);
  }

  lemma {:induction false} WalkFromClean(sec: Section, i: nat, rules: seq<Rule>)
    requires i <= |sec.entries| && WalkFrom(sec, i, rules).Ok?
    ensures CleanEntries(WalkFrom(sec, i, rules).value)
    decreases Size(sec), 0, |sec.entries| - i
  {
    if i < |sec.entries| {
      WalkFromClean(sec, i + 1, rules);
      var (k, v) := sec.entries[i];
      var es := WalkFrom(sec, i + 1, rules).value;
      if !v.Sub? {
        ConsTail((k, v), es);
      } else {
        SizeChild(sec, i);
        if Visit(v.sec, k, rules).value.Kept? {
          VisitClean(v.sec, k, rules);
          ConsTail((k, Sub(Visit(v.sec, k, rules).value.sub)), es);
        }
      }
    }
  }

  lemma {:induction false} VisitClean(s: Section, k: string, rules: seq<Rule>)
    requires Visit(s, k, rules).Ok? && Visit(s, k, rules).value.Kept?
    ensures !In(Visit(s, k, rules).value.sub, ToClear) && Clean(Visit(s, k, rules).value.sub)
    decreases Size(s), 2
  {
    var s1 := Apply(Choose(rules, s).value, s).value;
    IterateClean(s1, rules);
    if In(Iterate(s1, rules).value, ToClear) {
      IterateKeys(s1, rules, ToClear);
    }
  }

  /** When the walk succeeds, every subsection it passed was visited
      without error. */
  lemma {:induction false} WalkFromVisited(sec: Section, i: nat, rules: seq<Rule>, j: nat)
    requires i <= j < |sec.entries| && sec.entries[j].1.Sub? && WalkFrom(sec, i, rules).Ok?
    ensures Visit(sec.entries[j].1.sec, sec.entries[j].0, rules).Ok?
    decreases j - i
  {
    if i < j {
      WalkFromVisited(sec, i + 1, rules, j);
    }
  }

  /** With unique keys, the walk from i on holds a subsection at or after i
      under its own key exactly when its visit kept it, as what the visit
      made of it. */
  lemma {:induction false} WalkFromEntry(sec: Section, i: nat, rules: seq<Rule>, j: nat)
    requires i <= j < |sec.entries| && sec.entries[j].1.Sub? && WalkFrom(sec, i, rules).Ok?
    requires UniqueKeys(sec.entries)
    ensures Visit(sec.entries[j].1.sec, sec.entries[j].0, rules).Ok?
    ensures var o := Visit(sec.entries[j].1.sec, sec.entries[j].0, rules).value;
            Get(WalkFrom(sec, i, rules).value, sec.entries[j].0) ==
              if o.Cleared? then None else Some(Sub(o.sub))
    decreases j - i
  {
    WalkFromVisited(sec, i, rules, j);
    var k := sec.entries[j].0;
    var (key, v) := sec.entries[i];
    var es := WalkFrom(sec, i + 1, rules).value;
    if i == j {
      var later := sec.entries[i + 1..];
      forall m | 0 <= m < |later| ensures later[m].0 != k {
        assert later[m] == sec.entries[i + 1 + m];
      }
      GetSpec(later, k);
      if Get(es, k).Some? {
        WalkFromKeys(sec, i + 1, rules, k);
        assert false;
      }
      var o := Visit(v.sec, k, rules).value;
      if o.Kept? {
        ConsTail((k, Sub(o.sub)), es);
      }
    } else {
      assert key != k;
      WalkFromEntry(sec, i + 1, rules, j);
      if !v.Sub? {
        ConsTail((key, v), es);
      } else if Visit(v.sec, key, rules).value.Kept? {
        ConsTail((key, Sub(Visit(v.sec, key, rules).value.sub)), es);
      }
    }
  }

  /** What becomes of each subsection of a section with unique keys: its
      rule applies, and the section `s1` it leaves is walked; when `s1` is
      marked `__to_clear__` the key is gone, otherwise it holds the walked
      `s1`. */
  lemma IterateEntry(sec: Section, rules: seq<Rule>, j: nat)
    requires j < |sec.entries| && sec.entries[j].1.Sub? && UniqueKeys(sec.entries)
    requires Iterate(sec, rules).Ok?
    ensures var s := sec.entries[j].1.sec;
            Choose(rules, s).Some? && Apply(Choose(rules, s).value, s).Ok? &&
            var s1 := Apply(Choose(rules, s).value, s).value;
            Iterate(s1, rules).Ok? &&
            (In(s1, ToClear) ==> !In(Iterate(sec, rules).value, sec.entries[j].0)) &&
            (!In(s1, ToClear) ==>
               Lookup(Iterate(sec, rules).value, sec.entries[j].0) == Some(Sub(Iterate(s1, rules).value)))
  {
    WalkFromEntry(sec, 0, rules, j);
  }

  /** A rule that fails on any subsection makes the whole walk fail. */
  lemma IterateActionFails(sec: Section, rules: seq<Rule>, j: nat)
    requires j < |sec.entries| && sec.entries[j].1.Sub?
    requires var s := sec.entries[j].1.sec;
             Choose(rules, s).Some? && Apply(Choose(rules, s).value, s).Err?
    ensures Iterate(sec, rules).Err?
  {
    if Iterate(sec, rules).Ok? {
      WalkFromVisited(sec, 0, rules, j);
    }
  }

  /** The task part of `convert_measure`: the root task is updated, then
      its tree is walked with the converter's rules. */
  function ConvertTasks(root: Section): (r: Result<Section>)
    ensures UpdateTask(root).Err? ==> r == Err(UpdateTask(root).error)
    ensures r.Ok? ==> UpdateTask(root).Ok? && Clean(r.value)
  {
    match UpdateTask(root)
    case Err(e) => Err(e)
    case Ok(r1) =>
      var r := Iterate(r1, ConvertRules);
      if r.Ok? then IterateClean(r1, ConvertRules); r else r
  }

  /** In `convert_measure`, each subsection of the updated root task is
      converted in place or dropped, as IterateEntry states for the walk. */
  lemma ConvertTasksEntry(root: Section, j: nat)
    requires ConvertTasks(root).Ok?
    requires var r1 := UpdateTask(root).value;
             j < |r1.entries| && r1.entries[j].1.Sub? && UniqueKeys(r1.entries)
    ensures var r1 := UpdateTask(root).value;
            var s := r1.entries[j].1.sec;
            Choose(ConvertRules, s).Some? && Apply(Choose(ConvertRules, s).value, s).Ok? &&
            var s1 := Apply(Choose(ConvertRules, s).value, s).value;
            Iterate(s1, ConvertRules).Ok? &&
            (In(s1, ToClear) ==> !In(ConvertTasks(root).value, r1.entries[j].0)) &&
            (!In(s1, ToClear) ==>
               Lookup(ConvertTasks(root).value, r1.entries[j].0) == Some(Sub(Iterate(s1, ConvertRules).value)))
  {
    IterateEntry(UpdateTask(root).value, ConvertRules, j);
  }
}
