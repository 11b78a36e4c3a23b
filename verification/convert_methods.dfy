/** The converter as it runs: the update rules change the section they are
    given in place, and the walk goes over the subsections of a section,
    applying the first matching rule to each. Every method is proved to
    leave what the functions of `Convert` and `ConvertRules` compute. */
module ConvertMethods {
  import opened Common
  import opened IniSection
  import Convert
  import ConvertRules

  /** One section of a ConfigObj file, changed in place by the update
      rules. Its subsections are held as values. */
  class Config {
    var section: Section

    constructor (s: Section)
      ensures section == s
    {
      section := s;
    }

    /** The shared first steps of the update rules: the class is looked
        up in the table, then the id is set, the class removed and the
        dependency type set. Nothing changes when the class is missing or
        unknown. */
    method Retag(classKey: string, idKey: string, table: map<string, string>, depType: string)
      returns (err: Option<Error>)
      requires classKey != idKey && classKey != "dep_type" && idKey != "dep_type"
      modifies this
      ensures err.None? ==> Convert.Retag(old(section), classKey, idKey, table, depType) == Ok(section)
      ensures err.Some? ==> Convert.Retag(old(section), classKey, idKey, table, depType) == Err(err.value)
      ensures err.Some? ==> section == old(section)
    {
      var v := Lookup(section, classKey);
      if v.None? {
        return Some(KeyError(classKey));
      }
      var oldId := v.value;
      if !Convert.Hashable(oldId) {
        return Some(TypeError);
      }
      if !oldId.Text? || oldId.s !in table {
        return Some(ValueError(if oldId.Text? then oldId.s else classKey));
      }
      section := Set(section, idKey, Text(table[oldId.s]));
      section := Delete(section, classKey);
      section := Set(section, "dep_type", Text(depType));
      err := None;
    }

    /** `update_task`, in place. A later error leaves the changes made so
        far. */
    method UpdateTask() returns (err: Option<Error>)
      modifies this
      ensures err.None? ==> Convert.UpdateTask(old(section)) == Ok(section)
      ensures err.Some? ==> Convert.UpdateTask(old(section)) == Err(err.value)
    {
      err := UpdateTaskWith(Convert.Tasks);
    }

    /** `update_task`, in place, with the table of task ids a parameter. */
    method UpdateTaskWith(table: map<string, string>) returns (err: Option<Error>)
      modifies this
      ensures err.None? ==> Convert.UpdateTaskWith(old(section), table) == Ok(section)
      ensures err.Some? ==> Convert.UpdateTaskWith(old(section), table) == Err(err.value)
    {
      ghost var s0 := section;
      err := Named(table);
      if err.Some? {
        assert Convert.Prepare(s0, table) == Err(err.value);
        return;
      }
      RenameChildren();
      DropSelections();
      assert Convert.Prepare(s0, table) == Ok(section);
      err := AccessExs();
    }

    /** The first steps of `update_task`: the class retagged, `task_name`
        renamed to `name`. A missing or unknown class is reported before
        anything changes. */
    method Named(table: map<string, string>) returns (err: Option<Error>)
      modifies this
      ensures err.None? ==> Convert.Named(old(section), table) == Ok(section)
      ensures err.Some? ==> Convert.Named(old(section), table) == Err(err.value)
      ensures Convert.Retag(old(section), "task_class", "task_id", table, Convert.TaskDepType).Err? ==>
                section == old(section)
    {
      Convert.TaskKeysDistinct();
      err := Retag("task_class", "task_id", table, Convert.TaskDepType);
      if err.Some? {
        return;
      }
      var rn := Rename(section, "task_name", "name");
      if rn.Err? {
        return Some(rn.error);
      }
      section := rn.value;
    }

    /** `children_task_i` renamed to `children_i` for i = 0, 1, ... while
        the key is there. */
    method RenameChildren()
      modifies this
      ensures section == Convert.RenameChildren(old(section), 0).0
    {
      ghost var s2 := section;
      var i := 0;
      while In(section, Convert.ChildTask(i))
        invariant Convert.RenameChildren(section, i) == Convert.RenameChildren(s2, 0)
        decreases Convert.TaskKeys(section.entries)
      {
        Convert.RenameChildDecreases(section, i);
        section := Rename(section, Convert.ChildTask(i), Convert.Child(i)).value;
        i := i + 1;
      }
    }

    /** The driver and profile selections deleted when present. */
    method DropSelections()
      modifies this
      ensures section == Convert.DropSelections(old(section))
    {
      if In(section, "selected_driver") {
        section := Delete(section, "selected_driver");
      } else {
        DeleteAbsent(section, "selected_driver");
      }
      if In(section, "selected_profile") {
        section := Delete(section, "selected_profile");
      } else {
        DeleteAbsent(section, "selected_profile");
      }
    }

    /** The end of `update_task`: the access exceptions. */
    method AccessExs() returns (err: Option<Error>)
      modifies this
      ensures err.None? ==> Convert.AccessExs(old(section)) == Ok(section)
      ensures err.Some? ==> Convert.AccessExs(old(section)) == Err(err.value)
    {
      ghost var s3 := section;
      var ae := Lookup(section, "access_exs");
      if ae.None? {
        return None;
      }
      var v := ae.value;
      if v == Names([]) {
        section := Delete(section, "access_exs");
        return None;
      }
      var b := Convert.BraceIn(v);
      if b.Err? {
        return Some(b.error);
      }
      if b.value {
        return None;
      }
      if !v.Names? {
        return Some(ValueError("access_exs"));
      }
      var l := v.l;
      for j := 0 to |l|
        invariant Convert.FixAll(s3, l, j) == Ok(section)
      {
        var f := Convert.FixAccessExs(section, l[j], 1);
        if f.Err? {
          FixAllErr(s3, l, j + 1, |l|);
          return Some(f.error);
        }
        section := f.value;
      }
      var v1 := Lookup(section, "access_exs");
      if v1.None? {
        return Some(KeyError("access_exs"));
      }
      var b1 := Convert.BraceIn(v1.value);
      if b1.Err? {
        return Some(b1.error);
      }
      if !b1.value {
        section := Delete(section, "access_exs");
      }
      err := None;
    }

    /** `update_task_interface`, in place. */
    method UpdateInterface() returns (err: Option<Error>)
      modifies this
      ensures err.None? ==> ConvertRules.UpdateInterface(old(section)) == Ok(section)
      ensures err.Some? ==> ConvertRules.UpdateInterface(old(section)) == Err(err.value)
      ensures err.Some? ==> section == old(section)
    {
      var v := Lookup(section, "interface_class");
      if v.None? {
        return Some(KeyError("interface_class"));
      }
      if ConvertRules.Dropped(v.value) {
        section := Set(section, ConvertRules.ToClear, Flag(true));
        return None;
      }
      err := Retag("interface_class", "interface_id", Convert.Interfaces, Convert.InterfaceDepType);
    }

    /** `update_item`, in place. */
    method UpdateItem() returns (err: Option<Error>)
      modifies this
      ensures err.None? ==> ConvertRules.UpdateItem(old(section)) == Ok(section)
      ensures err.Some? ==> ConvertRules.UpdateItem(old(section)) == Err(err.value)
    {
      var oldId := Lookup(section, "item_class");
      err := Retag("item_class", "item_id", Convert.Items, Convert.ItemDepType);
      if err.Some? || oldId != Some(Text("Pulse")) {
        return;
      }
      var m := Lookup(section, "modulation");
      if m.None? {
        return;
      }
      if !m.value.Sub? {
        return Some(TypeError);
      }
      var mod := m.value.sec;
      mod := Set(mod, "dep_type", Text(ConvertRules.ModulationDepType));
      mod := Set(mod, "modulation_id", Text(ConvertRules.ModulationId));
      section := Set(section, "modulation", Sub(mod));
    }

    /** `update_shape`, in place. */
    method UpdateShape() returns (err: Option<Error>)
      modifies this
      ensures err.None? ==> ConvertRules.UpdateShape(old(section)) == Ok(section)
      ensures err.Some? ==> ConvertRules.UpdateShape(old(section)) == Err(err.value)
      ensures err.Some? ==> section == old(section)
    {
      err := Retag("shape_class", "shape_id", Convert.Shapes, Convert.ShapeDepType);
    }

    /** `update_context`, in place. */
    method UpdateContext() returns (err: Option<Error>)
      modifies this
      ensures err.None? ==> ConvertRules.UpdateContext(old(section)) == Ok(section)
      ensures err.Some? ==> ConvertRules.UpdateContext(old(section)) == Err(err.value)
      ensures err.Some? ==> section == old(section)
    {
      err := Retag("context_class", "context_id", Convert.Contexts, Convert.ContextDepType);
    }

    /** `update_monitor`, in place: the loop over a snapshot of the keys
        deletes every rule and custom entry. */
    method UpdateMonitor() returns (err: Option<Error>)
      modifies this
      ensures err.None? ==> ConvertRules.UpdateMonitor(old(section)) == Ok(section)
      ensures err.Some? ==> ConvertRules.UpdateMonitor(old(section)) == Err(err.value)
    {
      ghost var s0 := section;
      if !In(section, "id") {
        return Some(KeyError("id"));
      }
      section := Delete(section, "id");
      if In(section, "measure_name") {
        section := Delete(section, "measure_name");
      } else {
        DeleteAbsent(section, "measure_name");
      }
      var u := Lookup(section, "undisplayed");
      if u.None? {
        return Some(KeyError("undisplayed"));
      }
      if u.value.Depths? {
        return Some(TypeError);
      }
      if !u.value.Names? {
        return Some(ValueError("undisplayed"));
      }
      section := Set(section, "undisplayed", Names(u.value.l + ConvertRules.ExtraUndisplayed));
      DropRules();
      section := Set(section, "rule_0", Text("Loop progress"));
      section := Set(section, "rule_1", Text("Measurement entries"));
      err := None;
    }

    /** `for k in list(config)`: every rule and custom entry deleted. */
    method DropRules()
      modifies this
      ensures section == Section(ConvertRules.DropRules(old(section).entries))
    {
      var es := section.entries;
      ghost var gone: set<string> := {};
      DropInNone(es);
      for j := 0 to |es|
        invariant section == Section(DropIn(es, gone))
        invariant forall q :: q in gone ==> ConvertRules.RuleKey(q)
        invariant forall m :: 0 <= m < j && ConvertRules.RuleKey(es[m].0) ==> es[m].0 in gone
      {
        var k := es[j].0;
        if ConvertRules.RuleKey(k) {
          WithoutDropIn(es, gone, k);
          section := Delete(section, k);
          gone := gone + {k};
        }
      }
      DropInRules(es, gone);
    }

    /** `iterate_on_sections(section, rules)`, on this section: each
        subsection in turn gets the first rule that matches it, is dropped
        when the rule marks it for removal, and is walked in turn. */
    method IterateOnSections(rules: seq<ConvertRules.Rule>) returns (err: Option<Error>)
      modifies this
      ensures err.None? ==> ConvertRules.Iterate(old(section), rules) == Ok(section)
      ensures err.Some? ==> ConvertRules.Iterate(old(section), rules) == Err(err.value)
      decreases Size(section), 1
    {
      var sec := section;
      var out: seq<(string, Value)> := [];
      if ConvertRules.WalkFrom(sec, 0, rules).Ok? {
        assert out + ConvertRules.WalkFrom(sec, 0, rules).value == ConvertRules.WalkFrom(sec, 0, rules).value;
      }
      for i := 0 to |sec.entries|
        invariant Joined(ConvertRules.WalkFrom(sec, 0, rules), out, ConvertRules.WalkFrom(sec, i, rules))
      {
        var (k, v) := sec.entries[i];
        if !v.Sub? {
          JoinedScalar(ConvertRules.WalkFrom(sec, 0, rules), out, (k, v), ConvertRules.WalkFrom(sec, i + 1, rules));
          out := out + [(k, v)];
        } else {
          SizeChild(sec, i);
          var a := FindRule(rules, v.sec);
          if a.None? {
            WalkFromVisitErr(sec, i, rules);
            return Some(ValueError(k));
          }
          var s1 := ApplyRule(a.value, v.sec);
          if s1.Err? {
            WalkFromVisitErr(sec, i, rules);
            return Some(s1.error);
          }
          var c := new Config(s1.value);
          err := c.IterateOnSections(rules);
          if err.Some? {
            WalkFromVisitErr(sec, i, rules);
            return;
          }
          var cleared := In(s1.value, ConvertRules.ToClear);
          assert ConvertRules.Visit(v.sec, k, rules) ==
                 Ok(if cleared then ConvertRules.Cleared else ConvertRules.Kept(c.section));
          WalkFromVisitOk(sec, i, rules);
          if !cleared {
            JoinedScalar(ConvertRules.WalkFrom(sec, 0, rules), out, (k, Sub(c.section)),
                         ConvertRules.WalkFrom(sec, i + 1, rules));
            out := out + [(k, Sub(c.section))];
          }
        }
      }
      assert out + [] == out;
      section := Section(out);
      err := None;
    }

    /** The task part of `convert_measure`: the root task updated, then its
        tree walked with the converter's rules. */
    method ConvertTasks() returns (err: Option<Error>)
      modifies this
      ensures err.None? ==> ConvertRules.ConvertTasks(old(section)) == Ok(section)
      ensures err.Some? ==> ConvertRules.ConvertTasks(old(section)) == Err(err.value)
    {
      err := UpdateTask();
      if err.Some? {
        return;
      }
      err := IterateOnSections(ConvertRules.ConvertRules);
    }
  }

  /** The search for the first rule whose key the section holds. */
  method FindRule(rules: seq<ConvertRules.Rule>, s: Section) returns (a: Option<ConvertRules.Action>)
    ensures a == ConvertRules.Choose(rules, s)
  {
    var j := 0;
    while j < |rules|
      invariant j <= |rules|
      invariant ConvertRules.Choose(rules, s) == ConvertRules.Choose(rules[j..], s)
    {
      if In(s, rules[j].0) {
        assert rules[j..][0] == rules[j];
        return Some(rules[j].1);
      }
      assert rules[j..][1..] == rules[j + 1..];
      j := j + 1;
    }
    a := None;
  }

  /** A rule applied to a subsection, in place on an object of its own. */
  method ApplyRule(a: ConvertRules.Action, s: Section) returns (r: Result<Section>)
    ensures r == ConvertRules.Apply(a, s)
  {
    var c := new Config(s);
    var err: Option<Error> := None;
    match a {
      case TaskRule => err := c.UpdateTask();
      case InterfaceRule => err := c.UpdateInterface();
      case ItemRule => err := c.UpdateItem();
      case ShapeRule => err := c.UpdateShape();
      case ContextRule => err := c.UpdateContext();
      case KeepRule =>
    }
    r := if err.Some? then Err(err.value) else Ok(c.section);
  }

  /** A subsection whose visit fails makes the walk fail there. */
  lemma WalkFromVisitErr(sec: Section, i: nat, rules: seq<ConvertRules.Rule>)
    requires i < |sec.entries| && sec.entries[i].1.Sub?
    requires ConvertRules.Visit(sec.entries[i].1.sec, sec.entries[i].0, rules).Err?
    ensures ConvertRules.WalkFrom(sec, i, rules) ==
            Err(ConvertRules.Visit(sec.entries[i].1.sec, sec.entries[i].0, rules).error)
  {
  }

  /** A subsection visited without error is dropped or kept, then the walk
      goes on. */
  lemma WalkFromVisitOk(sec: Section, i: nat, rules: seq<ConvertRules.Rule>)
    requires i < |sec.entries| && sec.entries[i].1.Sub?
    requires ConvertRules.Visit(sec.entries[i].1.sec, sec.entries[i].0, rules).Ok?
    ensures var o := ConvertRules.Visit(sec.entries[i].1.sec, sec.entries[i].0, rules).value;
            var rest := ConvertRules.WalkFrom(sec, i + 1, rules);
            ConvertRules.WalkFrom(sec, i, rules) ==
              if rest.Err? then rest
              else if o.Cleared? then rest
              else Ok([(sec.entries[i].0, Sub(o.sub))] + rest.value)
  {
  }

  /** The walk of the whole section, seen from entry i: what is kept
      before i, then the walk from i on. */
  predicate Joined(total: Result<seq<(string, Value)>>, out: seq<(string, Value)>,
                   rest: Result<seq<(string, Value)>>)
  {
    if rest.Err? then total == rest else total == Ok(out + rest.value)
  }

  lemma JoinedScalar(total: Result<seq<(string, Value)>>, out: seq<(string, Value)>, x: (string, Value),
                     rest: Result<seq<(string, Value)>>)
    requires rest.Ok? ==> Joined(total, out, Ok([x] + rest.value))
    requires rest.Err? ==> total == rest
    ensures Joined(total, out + [x], rest)
  {
    if rest.Ok? {
      assert out + ([x] + rest.value) == (out + [x]) + rest.value;
    }
  }

  /** Once a `fix_access_exs` call fails, the loop over the exceptions
      fails with that error. */
  lemma {:induction false} FixAllErr(sec: Section, l: seq<string>, j: nat, n: nat)
    requires j <= n <= |l| && Convert.FixAll(sec, l, j).Err?
    ensures Convert.FixAll(sec, l, n) == Convert.FixAll(sec, l, j)
    decreases n - j
  {
    if j < n {
      FixAllErr(sec, l, j, n - 1);
    }
  }

  /** The entries whose keys are not in `gone`, in order. */
  function DropIn(es: seq<(string, Value)>, gone: set<string>): (r: seq<(string, Value)>)
    ensures forall j :: 0 <= j < |r| ==> r[j].0 !in gone
  {
    if es == [] then []
    else if es[0].0 in gone then DropIn(es[1..], gone)
    else [es[0]] + DropIn(es[1..], gone)
  }

  lemma {:induction false} DropInNone(es: seq<(string, Value)>)
    ensures DropIn(es, {}) == es
  {
    if es != [] {
      DropInNone(es[1..]);
    }
  }

  /** Deleting one more key drops it too. */
  lemma {:induction false} WithoutDropIn(es: seq<(string, Value)>, gone: set<string>, k: string)
    ensures Without(DropIn(es, gone), k) == DropIn(es, gone + {k})
  {
    if es != [] {
      WithoutDropIn(es[1..], gone, k);
      if es[0].0 !in gone {
        assert ([es[0]] + DropIn(es[1..], gone))[1..] == DropIn(es[1..], gone);
      }
    }
  }

  /** Once every rule key has gone, and nothing else, what is left is what
      `DropRules` keeps. */
  lemma {:induction false} DropInRules(es: seq<(string, Value)>, gone: set<string>)
    requires forall q :: q in gone ==> ConvertRules.RuleKey(q)
    requires forall m :: 0 <= m < |es| && ConvertRules.RuleKey(es[m].0) ==> es[m].0 in gone
    ensures DropIn(es, gone) == ConvertRules.DropRules(es)
  {
    if es != [] {
      assert forall m :: 0 <= m < |es| - 1 ==> es[1..][m] == es[m + 1];
      DropInRules(es[1..], gone);
    }
  }
}
