/** The converter from HQCMeas `.ini` measure files to exopy's format: a
    rewrite rule per kind of section, the walk that applies them to a
    section tree, the fix-up of access exceptions and the name of the
    converted file. */
module Convert {
  import opened Common
  import opened IniSection

  // ---------------------------------------------------------------------------
  // The lookup tables
  // ---------------------------------------------------------------------------

  const TaskDepType := "exopy.task"
  const InterfaceDepType := "exopy.tasks.interface"
  const ItemDepType := "exopy.pulses.item"
  const ShapeDepType := "exopy.pulses.shape"
  const ContextDepType := "exopy.pulses.context"

  /** `task_class` in HQCMeas to `task_id` in exopy. */
  const Tasks: map<string, string> := map[
    "ComplexTask" := "exopy.ComplexTask",
    "WhileTask" := "exopy.WhileTask",
    "ConditionalTask" := "exopy.ConditionalTask",
    "BreakTask" := "exopy.BreakTask",
    "ContinueTask" := "exopy.ContinueTask",
    "LoopTask" := "exopy.LoopTask",
    "LogTask" := "exopy.LogTask",
    "DefinitionTask" := "exopy.DefinitionTask",
    "FormulaTask" := "exopy.FormulaTask",
    "SleepTask" := "exopy.SleepTask",
    "ArrayExtremaTask" := "exopy_hqc_legacy.ArrayExtremaTask",
    "ArrayFindValueTask" := "exopy_hqc_legacy.ArrayFindValueTask",
    "SaveTask" := "exopy_hqc_legacy.SaveTask",
    "SaveFileTask" := "exopy_hqc_legacy.SaveFileTask",
    "SaveFileHDF5Task" := "exopy_hqc_legacy.SaveFileHDF5Task",
    "SaveArrayTask" := "exopy_hqc_legacy.SaveArrayTask",
    "LoadArrayTask" := "exopy_hqc_legacy.LoadArrayTask",
    "ApplyMagFieldTask" := "exopy_hqc_legacy.ApplyMagFieldTask",
    "LockInMeasureTask" := "exopy_hqc_legacy.LockInMeasureTask",
    "MeasDCVoltageTask" := "exopy_hqc_legacy.MeasDCVoltageTask",
    "SetRFFrequencyTask" := "exopy_hqc_legacy.SetRFFrequencyTask",
    "SetRFPowerTask" := "exopy_hqc_legacy.SetRFPowerTask",
    "SetRFOnOffTask" := "exopy_hqc_legacy.SetRFOnOffTask",
    "PNASinglePointMeasureTask" := "exopy_hqc_legacy.PNASinglePointMeasureTask",
    "PNASweepTask" := "exopy_hqc_legacy.PNASweepTask",
    "PNAGetTraces" := "exopy_hqc_legacy.PNAGetTraces",
    "SetDCVoltageTask" := "exopy_hqc_legacy.SetDCVoltageTask",
    "DemodSPTask" := "exopy_hqc_legacy.DemodSPTask",
    "TransferPulseSequenceTask" := "exopy_pulses.TransferPulseSequenceTask"]

  /** `interface_class` to `interface_id` (the misspelt package name of the
      voltage source interface is the table's own). */
  const Interfaces: map<string, string> := map[
    "IterableLoopInterface" := "exopy.LoopTask:exopy.IterableLoopInterface",
    "LinspaceLoopInterface" := "exopy.LoopTask:exopy.LinspaceLoopInterface",
    "MultiChannelVoltageSourceInterface" :=
      "exopy_hqc_legacy.SetDCVoltageTask:exopy_hqc_legcy.MultiChannelVoltageSourceInterface",
    "PNASetRFFrequencyInterface" := "exopy_hqc_legacy.SetRFFrequencyTask:exopy_hqc_legacy.PNASetRFFrequencyInterface",
    "PNASetRFPowerInterface" := "exopy_hqc_legacy.SetRFPowerTask:exopy_hqc_legacy.PNASetRFPowerInterface",
    "CSVLoadInterface" := "exopy_hqc_legacy.LoadArrayTask:exopy_hqc_legacy.CSVLoadInterface"]

  const Items: map<string, string> := map[
    "Pulse" := "exopy_pulses.Pulse",
    "Sequence" := "exopy_pulses.BaseSequence",
    "ConditionalSequence" := "exopy_pulses.ConditionalSequence",
    "RootSequence" := "exopy_pulses.RootSequence"]

  const Shapes: map<string, string> := map["SquareShape" := "exopy_pulses.SquareShape"]

  const Contexts: map<string, string> := map["AWGContext" := "exopy_hqc_legacy.AWG5014Context"]

  // ---------------------------------------------------------------------------
  // Retagging a section
  // ---------------------------------------------------------------------------

  /** Whether a value can be looked up in a table: lists and sections are
      unhashable. */
  predicate Hashable(v: Value)
  {
    v.Text? || v.Flag?
  }

  /** The pattern the update rules share: the old class names a new id in
      the table (a ValueError naming it otherwise); the id and the
      dependency type are set and the class removed. */
  function Retag(sec: Section, classKey: string, idKey: string, table: map<string, string>,
                 depType: string): (r: Result<Section>)
    requires classKey != idKey && classKey != "dep_type" && idKey != "dep_type"
    ensures !In(sec, classKey) ==> r == Err(KeyError(classKey))
    ensures In(sec, classKey) && !Hashable(Lookup(sec, classKey).value) ==> r == Err(TypeError)
    ensures r.Ok? <==> In(sec, classKey) && Lookup(sec, classKey).value.Text? &&
                       Lookup(sec, classKey).value.s in table
    ensures r.Ok? ==>
              Lookup(r.value, idKey) == Some(Text(table[Lookup(sec, classKey).value.s])) &&
              Lookup(r.value, "dep_type") == Some(Text(depType)) && !In(r.value, classKey) &&
              forall q :: q != classKey && q != idKey && q != "dep_type" ==> Lookup(r.value, q) == Lookup(sec, q)
    ensures r.Ok? && UniqueKeys(sec.entries) ==> UniqueKeys(r.value.entries)
    ensures r.Ok? ==> Size(r.value) <= Size(sec)
  {
    match Lookup(sec, classKey)
    case None => Err(KeyError(classKey))
    case Some(v) =>
      if !Hashable(v) then Err(TypeError)
      else if !v.Text? || v.s !in table then Err(ValueError(if v.Text? then v.s else classKey))
      else
        var s1 := Set(sec, idKey, Text(table[v.s]));
        Ok(Set(Delete(s1, classKey), "dep_type", Text(depType)))
  }

  // ---------------------------------------------------------------------------
  // update_task
  // ---------------------------------------------------------------------------

  function ChildTask(i: nat): string
  {
    "children_task_" + NatToString(i)
  }

  function Child(i: nat): string
  {
    "children_" + NatToString(i)
  }

  lemma ChildNames(i: nat, j: nat)
    ensures ChildTask(i) != Child(j)
    ensures ChildTask(i) == ChildTask(j) ==> i == j
    ensures Child(i) == Child(j) ==> i == j
  {
    assert ChildTask(i)[9] == 't';
    assert Child(j)[9] == NatToString(j)[0];
    if ChildTask(i) == ChildTask(j) {
      assert NatToString(i) == ChildTask(i)[14..];
      assert NatToString(j) == ChildTask(j)[14..];
      NatToStringInjective(i, j);
    }
    if Child(i) == Child(j) {
      assert NatToString(i) == Child(i)[9..];
      assert NatToString(j) == Child(j)[9..];
      NatToStringInjective(i, j);
    }
  }

  predicate IsChildTask(k: string)
  {
    IsPrefix("children_task_", k)
  }

  /** How many keys still have the old children naming. */
  function TaskKeys(es: seq<(string, Value)>): nat
  {
    if es == [] then 0 else (if IsChildTask(es[0].0) then 1 else 0) + TaskKeys(es[1..])
  }

  lemma {:induction false} WithoutTaskKeys(es: seq<(string, Value)>, k: string)
    requires !IsChildTask(k)
    ensures TaskKeys(Without(es, k)) == TaskKeys(es)
  {
    if es != [] {
      WithoutTaskKeys(es[1..], k);
    }
  }

  lemma {:induction false} RelabelTaskKeys(es: seq<(string, Value)>, from: string, to: string)
    requires from != to && Get(es, to).None? && Get(es, from).Some? && IsChildTask(from) && !IsChildTask(to)
    ensures TaskKeys(Relabel(es, from, to)) < TaskKeys(es)
  {
    if es[0].0 != from {
      RelabelTaskKeys(es[1..], from, to);
    }
  }

  /** Renaming `children_task_i` removes one key of the old naming. */
  lemma RenameChildDecreases(sec: Section, i: nat)
    requires In(sec, ChildTask(i))
    ensures Rename(sec, ChildTask(i), Child(i)).Ok?
    ensures TaskKeys(Rename(sec, ChildTask(i), Child(i)).value.entries) < TaskKeys(sec.entries)
  {
    ChildNames(i, i);
    assert !IsChildTask(Child(i)) by {
      if |Child(i)| >= 14 {
        assert Child(i)[9] != "children_task_"[9];
      }
    }
    WithoutTaskKeys(sec.entries, Child(i));
    RelabelTaskKeys(Without(sec.entries, Child(i)), ChildTask(i), Child(i));
  }

  /** The loop renaming `children_task_i` to `children_i` for i = 0, 1, ...
      while the key exists; the section and the first index missing. */
  function RenameChildren(sec: Section, i: nat): (r: (Section, nat))
    ensures Size(r.0) <= Size(sec)
    decreases TaskKeys(sec.entries)
  {
    if In(sec, ChildTask(i)) then
      RenameChildDecreases(sec, i);
      RenameChildren(Rename(sec, ChildTask(i), Child(i)).value, i + 1)
    else (sec, i)
  }

  /** The value of an access-exception entry, as `literal_eval` reads it,
      with the default used when it is missing. */
  function Exs(v: Option<Value>, default: Value): Result<Value>
  {
    match v
    case None => Ok(default)
    case Some(x) => if x.Names? || x.Depths? then Ok(x) else Err(ValueError("access_exs"))
  }

  /** `'{' in value`, on the text the value stands for. */
  function BraceIn(v: Value): Result<bool>
  {
    match v
    case Text(s) => Ok('{' in s)
    case Flag(_) => Err(TypeError)
    case Names(l) => Ok(exists j :: 0 <= j < |l| && '{' in l[j])
    case Depths(_) => Ok(true)
    case Sub(s) => Ok(In(s, "{"))
  }

  /** `ex in exs`: membership in a list, or among a dictionary's keys. */
  predicate Contains(exs: Value, ex: string)
  {
    (exs.Names? && ex in exs.l) || (exs.Depths? && exists j :: 0 <= j < |exs.d| && exs.d[j].0 == ex)
  }

  /** `del l[l.index(x)]`: the first occurrence of x goes, the rest stays
      in order. */
  function RemoveFirst(l: seq<string>, x: string): (r: seq<string>)
    requires x in l
    ensures |r| == |l| - 1 && multiset(r) == multiset(l) - multiset{x}
    ensures r[..FirstOf(l, x)] == l[..FirstOf(l, x)] && r[FirstOf(l, x)..] == l[FirstOf(l, x) + 1..]
  {
    var j := FirstOf(l, x);
    assert l == l[..j] + [x] + l[j + 1..];
    l[..j] + l[j + 1..]
  }

  /** `d[k] = v` on a dictionary: an existing key keeps its place. */
  function DictPut(d: seq<(string, int)>, k: string, v: int): (r: seq<(string, int)>)
    ensures (k, v) in r
    ensures forall e :: e in d && e.0 != k ==> e in r
    ensures forall e :: e in r ==> e == (k, v) || e in d
  {
    if d == [] then [(k, v)]
    else if d[0].0 == k then [(k, v)] + d[1..]
    else [d[0]] + DictPut(d[1..], k, v)
  }

  /** The number of times `c` occurs in `s`. */
  function Count(s: string, c: char): nat
  {
    if s == [] then 0 else (if s[0] == c then 1 else 0) + Count(s[1..], c)
  }

  lemma {:induction false} CountAppend(s: string, t: string, c: char)
    ensures Count(s + t, c) == Count(s, c) + Count(t, c)
  {
    if s != [] {
      assert (s + t)[1..] == s[1..] + t;
      CountAppend(s[1..], t, c);
    } else {
      assert s + t == t;
    }
  }

  lemma {:induction false} CountZero(s: string, c: char)
    ensures Count(s, c) == 0 <==> c !in s
  {
    if s != [] {
      CountZero(s[1..], c);
      assert s == [s[0]] + s[1..];
    }
  }

  /** `task_name, entry = ex.split('_')`: exactly one underscore, or a
      ValueError. */
  function SplitEx(ex: string): (r: Option<(string, string)>)
    ensures r.Some? <==> Count(ex, '_') == 1
    ensures r.Some? ==> ex == r.value.0 + "_" + r.value.1 && '_' !in r.value.0 && '_' !in r.value.1
  {
    if '_' !in ex then
      CountZero(ex, '_');
      None
    else
      var p := FirstOf(ex, '_');
      var a, b := ex[..p], ex[p + 1..];
      assert ex == a + "_" + b;
      CountAppend(a + "_", b, '_');
      CountAppend(a, "_", '_');
      CountZero(a, '_');
      CountZero(b, '_');
      if '_' in b then None else Some((a, b))
  }

  /** The place of the first occurrence of c in s. */
  function FirstOf<T(==)>(s: seq<T>, c: T): (p: nat)
    requires c in s
    ensures p < |s| && s[p] == c && c !in s[..p]
  {
    if s[0] == c then 0
    else
      var p := FirstOf(s[1..], c);
      assert s[..p + 1] == [s[0]] + s[1..][..p];
      p + 1
  }

  /** The entries of a loop task reached directly, without going down into
      its child task. */
  const LoopEntries: set<string> := {"start", "stop", "step", "points_number", "iterable"}

  /** The dictionary of access exceptions a task holds, empty when it has
      none or holds a list. */
  function DepthsOf(s: Section): seq<(string, int)>
  {
    match Lookup(s, "access_exs")
    case Some(Depths(d)) => d
    case _ => []
  }

  /** `after` is `before` with `entry` recorded at `depth` in its dictionary
      of access exceptions: the other exceptions and every other key kept. */
  ghost predicate RecordedAt(before: Section, after: Section, entry: string, depth: int)
  {
    Lookup(after, "access_exs").Some? && Lookup(after, "access_exs").value.Depths? &&
    (entry, depth) in Lookup(after, "access_exs").value.d &&
    (forall e :: e in DepthsOf(before) && e.0 != entry ==> e in Lookup(after, "access_exs").value.d) &&
    (forall e :: e in Lookup(after, "access_exs").value.d ==> e == (entry, depth) || e in DepthsOf(before)) &&
    forall q :: q != "access_exs" ==> Lookup(after, q) == Lookup(before, q)
  }

  /** Records `entry` at `depth` in the access exceptions of a task, as a
      dictionary; a list there is a RuntimeError. */
  function Record(s: Section, entry: string, depth: int): (r: Result<Section>)
    ensures r.Ok? <==> Lookup(s, "access_exs").None? || Lookup(s, "access_exs").value.Depths?
    ensures r.Ok? ==> RecordedAt(s, r.value, entry, depth)
    ensures In(s, "access_exs") && Lookup(s, "access_exs").value.Names? ==> r == Err(RuntimeError)
    ensures In(s, "access_exs") && !Lookup(s, "access_exs").value.Names? && !Lookup(s, "access_exs").value.Depths? ==>
              r == Err(ValueError("access_exs"))
    ensures r.Ok? ==> Size(r.value) <= Size(s)
  {
    match Exs(Lookup(s, "access_exs"), Depths([]))
    case Err(e) => Err(e)
    case Ok(exs) =>
      if !exs.Depths? then Err(RuntimeError)
      else Ok(Set(s, "access_exs", Depths(DictPut(exs.d, entry, depth))))
  }

  /** Whether the exception is recorded on the child task of a loop task. */
  predicate OnLoopChild(s: Section, entry: string)
  {
    Lookup(s, "task_class") == Some(Text("LoopTask")) && entry !in LoopEntries
  }

  /** The task the exception names: a loop task's own entries are recorded
      on it, any other entry one level further down, on its child task. */
  function Target(s: Section, entry: string, depth: int): (r: Result<Section>)
    ensures !In(s, "task_class") ==> r == Err(KeyError("task_class"))
    ensures In(s, "task_class") && !OnLoopChild(s, entry) ==> r == Record(s, entry, depth)
    ensures OnLoopChild(s, entry) && !In(s, "task") ==> r == Err(KeyError("task"))
    ensures OnLoopChild(s, entry) && In(s, "task") && !Lookup(s, "task").value.Sub? ==>
              r == Err(AttributeError)
    ensures OnLoopChild(s, entry) && r.Ok? ==>
              In(s, "task") && Lookup(s, "task").value.Sub? &&
              Lookup(r.value, "task").Some? && Lookup(r.value, "task").value.Sub? &&
              RecordedAt(Lookup(s, "task").value.sec, Lookup(r.value, "task").value.sec, entry, depth + 1) &&
              forall q :: q != "task" ==> Lookup(r.value, q) == Lookup(s, q)
    ensures r.Ok? ==> Size(r.value) <= Size(s)
  {
    match Lookup(s, "task_class")
    case None => Err(KeyError("task_class"))
    case Some(c) =>
      if c == Text("LoopTask") && entry !in LoopEntries then
        match Lookup(s, "task")
        case None => Err(KeyError("task"))
        case Some(t) =>
          if !t.Sub? then Err(AttributeError)
          else
            match Record(t.sec, entry, depth + 1)
            case Err(e) => Err(e)
            case Ok(t1) => Ok(Set(s, "task", Sub(t1)))
      else Record(s, entry, depth)
  }

  /** Entries `es` are `sec`'s from i on, with the same keys, the same
      scalars and subsections no larger. */
  ghost predicate Reshaped(sec: Section, i: nat, es: seq<(string, Value)>)
    requires i <= |sec.entries|
  {
    |es| == |sec.entries| - i &&
    forall j :: 0 <= j < |es| ==>
      es[j].0 == sec.entries[i + j].0 && (es[j].1.Sub? <==> sec.entries[i + j].1.Sub?) &&
      (!es[j].1.Sub? ==> es[j].1 == sec.entries[i + j].1) &&
      ValueSize(es[j].1) <= ValueSize(sec.entries[i + j].1)
  }

  lemma ReshapedSize(sec: Section, es: seq<(string, Value)>)
    requires Reshaped(sec, 0, es)
    ensures Size(Section(es)) <= Size(sec)
  {
    SizePointwise(sec, Section(es));
  }

  /** What the walk does with one subsection. */
  datatype Visit = Descended(sub: Section) | Recorded(sub: Section) | Passed

  /** `fix_access_exs(task_config, ex, depth)`: walks the subsections in
      order. One listing `ex` has it removed and is walked in turn, one level
      deeper; the first that is the task `ex` names gets `entry` recorded at
      the depth reached, and ends the walk. */
  function FixAccessExs(sec: Section, ex: string, depth: int): (r: Result<Section>)
    ensures SplitEx(ex).None? ==> r == Err(ValueError(ex))
    ensures r.Ok? ==> Reshaped(sec, 0, r.value.entries) && Size(r.value) <= Size(sec)
    decreases Size(sec), 1
  {
    match SplitEx(ex)
    case None => Err(ValueError(ex))
    case Some(parts) =>
      match FixFrom(sec, 0, ex, parts.0, parts.1, depth)
      case Err(e) => Err(e)
      case Ok(es) =>
        ReshapedSize(sec, es);
        Ok(Section(es))
  }

  /** One subsection `s` met by the walk at `depth`. */
  function FixVisit(s: Section, ex: string, name: string, entry: string, depth: int): (r: Result<Visit>)
    ensures r.Ok? && !r.value.Passed? ==> Size(r.value.sub) <= Size(s)
    decreases Size(s), 2
  {
    match Exs(Lookup(s, "access_exs"), Names([]))
    case Err(e) => Err(e)
    case Ok(exs) =>
      if Contains(exs, ex) then
        if exs.Depths? then Err(AttributeError)
        else
          var s1 := Set(s, "access_exs", Names(RemoveFirst(exs.l, ex)));
          match FixAccessExs(s1, ex, depth + 1)
          case Err(e) => Err(e)
          case Ok(s2) => Ok(Descended(s2))
      else if Lookup(s, "task_name") == Some(Text(name)) then
        match Target(s, entry, depth)
        case Err(e) => Err(e)
        case Ok(s2) => Ok(Recorded(s2))
      else Ok(Passed)
  }

  lemma ReshapedCons(sec: Section, i: nat, x: (string, Value), es: seq<(string, Value)>)
    requires i < |sec.entries| && Reshaped(sec, i + 1, es)
    requires x.0 == sec.entries[i].0 && (x.1.Sub? <==> sec.entries[i].1.Sub?)
    requires !x.1.Sub? ==> x.1 == sec.entries[i].1
    requires ValueSize(x.1) <= ValueSize(sec.entries[i].1)
    ensures Reshaped(sec, i, [x] + es)
  {
    forall j | 0 <= j < |[x] + es|
      ensures ([x] + es)[j].0 == sec.entries[i + j].0
    {
      if j > 0 {
        assert ([x] + es)[j] == es[j - 1];
      }
    }
  }

  lemma ReshapedRest(sec: Section, i: nat)
    requires i <= |sec.entries|
    ensures Reshaped(sec, i, sec.entries[i..])
  {
  }

  /** The walk of `fix_access_exs` from the i-th entry on. */
  function FixFrom(sec: Section, i: nat, ex: string, name: string, entry: string, depth: int)
    : (r: Result<seq<(string, Value)>>)
    requires i <= |sec.entries|
    ensures r.Ok? ==> Reshaped(sec, i, r.value)
    decreases Size(sec), 0, |sec.entries| - i
  {
    if i == |sec.entries| then Ok([])
    else
      var (k, v) := sec.entries[i];
      if !v.Sub? then Keep(sec, i, FixFrom(sec, i + 1, ex, name, entry, depth))
      else
        SizeChild(sec, i);
        match FixVisit(v.sec, ex, name, entry, depth)
        case Err(e) => Err(e)
        case Ok(Passed) => Keep(sec, i, FixFrom(sec, i + 1, ex, name, entry, depth))
        case Ok(Descended(s2)) =>
          (match FixFrom(sec, i + 1, ex, name, entry, depth + 1)
           case Err(e) => Err(e)
           case Ok(es) =>
             ReshapedCons(sec, i, (k, Sub(s2)), es);
             Ok([(k, Sub(s2))] + es))
        case Ok(Recorded(s2)) =>
          ReshapedRest(sec, i + 1);
          ReshapedCons(sec, i, (k, Sub(s2)), sec.entries[i + 1..]);
          Ok([(k, Sub(s2))] + sec.entries[i + 1..])
  }

  /** The i-th entry kept as it is in front of the rest of the walk. */
  function Keep(sec: Section, i: nat, r: Result<seq<(string, Value)>>): (r': Result<seq<(string, Value)>>)
    requires i < |sec.entries|
    requires r.Ok? ==> Reshaped(sec, i + 1, r.value)
    ensures r'.Ok? ==> Reshaped(sec, i, r'.value)
  {
    match r
    case Err(e) => Err(e)
    case Ok(es) =>
      ReshapedCons(sec, i, sec.entries[i], es);
      Ok([sec.entries[i]] + es)
  }

  /** The walk keeps every scalar entry, so a scalar found from i on is
      found in what the walk returns. */
  lemma {:induction false} ReshapedGet(sec: Section, i: nat, es: seq<(string, Value)>, q: string)
    requires i <= |sec.entries| && Reshaped(sec, i, es)
    requires Get(sec.entries[i..], q).Some? && !Get(sec.entries[i..], q).value.Sub?
    ensures Get(es, q) == Get(sec.entries[i..], q)
    decreases |sec.entries| - i
  {
    var t := sec.entries[i..];
    assert t[0] == sec.entries[i] && es[0].0 == t[0].0;
    if t[0].0 != q {
      assert t[1..] == sec.entries[i + 1..];
      assert Reshaped(sec, i + 1, es[1..]) by {
        forall j | 0 <= j < |es[1..]| ensures es[1..][j] == es[j + 1] {}
      }
      ReshapedGet(sec, i + 1, es[1..], q);
    }
  }

  /** A subsection that lists the exception loses it (its first
      occurrence) and is walked one level deeper; the later subsections are
      walked one level deeper too. */
  lemma FixFromDescended(sec: Section, i: nat, ex: string, name: string, entry: string, depth: int)
    requires i < |sec.entries| && sec.entries[i].1.Sub?
    requires var s := sec.entries[i].1.sec;
             Lookup(s, "access_exs").Some? && Lookup(s, "access_exs").value.Names? &&
             ex in Lookup(s, "access_exs").value.l
    requires FixFrom(sec, i, ex, name, entry, depth).Ok?
    ensures var s := sec.entries[i].1.sec;
            var l := Lookup(s, "access_exs").value.l;
            var s1 := Set(s, "access_exs", Names(RemoveFirst(l, ex)));
            var r := FixFrom(sec, i, ex, name, entry, depth).value;
            FixAccessExs(s1, ex, depth + 1).Ok? && FixFrom(sec, i + 1, ex, name, entry, depth + 1).Ok? &&
            r == [(sec.entries[i].0, Sub(FixAccessExs(s1, ex, depth + 1).value))] +
                 FixFrom(sec, i + 1, ex, name, entry, depth + 1).value &&
            Lookup(r[0].1.sec, "access_exs") == Some(Names(RemoveFirst(l, ex)))
  {
    var s := sec.entries[i].1.sec;
    var l := Lookup(s, "access_exs").value.l;
    var s1 := Set(s, "access_exs", Names(RemoveFirst(l, ex)));
    var s2 := FixAccessExs(s1, ex, depth + 1).value;
    assert s1.entries[0..] == s1.entries && s2.entries[0..] == s2.entries;
    ReshapedGet(s1, 0, s2.entries, "access_exs");
  }

  /** The first subsection that is the task the exception names, without
      listing it, gets `entry` recorded at the depth reached, on itself or
      on its child task when it is a loop task and `entry` is not one of
      the loop's own; the walk ends there, leaving the later entries as
      they were. */
  lemma FixFromRecorded(sec: Section, i: nat, ex: string, name: string, entry: string, depth: int)
    requires i < |sec.entries| && sec.entries[i].1.Sub?
    requires var s := sec.entries[i].1.sec;
             Exs(Lookup(s, "access_exs"), Names([])).Ok? &&
             !Contains(Exs(Lookup(s, "access_exs"), Names([])).value, ex) &&
             Lookup(s, "task_name") == Some(Text(name))
    requires FixFrom(sec, i, ex, name, entry, depth).Ok?
    ensures var s := sec.entries[i].1.sec;
            var r := FixFrom(sec, i, ex, name, entry, depth).value;
            Target(s, entry, depth).Ok? &&
            r == [(sec.entries[i].0, Sub(Target(s, entry, depth).value))] + sec.entries[i + 1..] &&
            (!OnLoopChild(s, entry) ==> RecordedAt(s, r[0].1.sec, entry, depth)) &&
            (OnLoopChild(s, entry) ==>
               Lookup(r[0].1.sec, "task").Some? && Lookup(r[0].1.sec, "task").value.Sub? &&
               RecordedAt(Lookup(s, "task").value.sec, Lookup(r[0].1.sec, "task").value.sec, entry, depth + 1))
  {
  }

  /** Any other entry is kept as it is, and the walk goes on at the same
      depth. */
  lemma FixFromPassed(sec: Section, i: nat, ex: string, name: string, entry: string, depth: int)
    requires i < |sec.entries|
    requires var v := sec.entries[i].1;
             v.Sub? ==> Exs(Lookup(v.sec, "access_exs"), Names([])).Ok? &&
                        !Contains(Exs(Lookup(v.sec, "access_exs"), Names([])).value, ex) &&
                        Lookup(v.sec, "task_name") != Some(Text(name))
    requires FixFrom(sec, i, ex, name, entry, depth).Ok?
    ensures FixFrom(sec, i + 1, ex, name, entry, depth).Ok?
    ensures FixFrom(sec, i, ex, name, entry, depth).value ==
              [sec.entries[i]] + FixFrom(sec, i + 1, ex, name, entry, depth).value
  {
  }

  /** `for ex in exs: fix_access_exs(task_config, ex, 1)`, over the first n. */
  function FixAll(sec: Section, l: seq<string>, n: nat): (r: Result<Section>)
    requires n <= |l|
    ensures r.Ok? ==> SameShape(sec.entries, r.value.entries) && Size(r.value) <= Size(sec)
  {
    if n == 0 then Ok(sec)
    else match FixAll(sec, l, n - 1)
      case Err(e) => Err(e)
      case Ok(s) => FixAccessExs(s, l[n - 1], 1)
  }

  /** When the loop succeeds, each exception in turn was pushed down from
      the task, at depth 1, into what the earlier ones left. */
  lemma {:induction false} FixAllSteps(sec: Section, l: seq<string>, n: nat, m: nat)
    requires m < n <= |l| && FixAll(sec, l, n).Ok?
    ensures FixAll(sec, l, m).Ok? && FixAccessExs(FixAll(sec, l, m).value, l[m], 1).Ok?
    ensures FixAll(sec, l, m + 1) == FixAccessExs(FixAll(sec, l, m).value, l[m], 1)
    decreases n
  {
    if m < n - 1 {
      FixAllSteps(sec, l, n - 1, m);
    }
  }

  /** The handling of `access_exs` at the end of `update_task`: an empty
      list is dropped, a dictionary is kept, and a list of exceptions is
      pushed down to the tasks they name, then dropped. */
  function AccessExs(sec: Section): (r: Result<Section>)
    ensures r.Ok? ==> Size(r.value) <= Size(sec)
  {
    match Lookup(sec, "access_exs")
    case None => Ok(sec)
    case Some(v) =>
      if v == Names([]) then Ok(Delete(sec, "access_exs"))
      else
        match BraceIn(v)
        case Err(e) => Err(e)
        case Ok(brace) =>
          if brace then Ok(sec)
          else if !v.Names? then Err(ValueError("access_exs"))
          else
            match FixAll(sec, v.l, |v.l|)
            case Err(e) => Err(e)
            case Ok(s1) =>
              match Lookup(s1, "access_exs")
              case None => Err(KeyError("access_exs"))
              case Some(v1) =>
                match BraceIn(v1)
                case Err(e) => Err(e)
                case Ok(b1) => if b1 then Ok(s1) else Ok(Delete(s1, "access_exs"))
  }

  /** The first steps of `update_task`, with the table of task ids a
      parameter: the class becomes an id and a dependency type, and
      `task_name` is renamed to `name`; nothing else changes. */
  function Named(sec: Section, table: map<string, string>): (r: Result<Section>)
    ensures r.Ok? ==> Size(r.value) <= Size(sec)
    ensures r.Ok? ==> Retag(sec, "task_class", "task_id", table, TaskDepType).Ok? && In(sec, "task_name")
    ensures r.Ok? && UniqueKeys(sec.entries) ==>
              var c := Lookup(sec, "task_class").value.s;
              var s := r.value;
              UniqueKeys(s.entries) &&
              Lookup(s, "task_id") == Some(Text(table[c])) &&
              Lookup(s, "dep_type") == Some(Text(TaskDepType)) &&
              !In(s, "task_class") && !In(s, "task_name") &&
              Lookup(s, "name") == Lookup(sec, "task_name") &&
              forall q :: q !in Touched ==> Lookup(s, q) == Lookup(sec, q)
  {
    match Retag(sec, "task_class", "task_id", table, TaskDepType)
    case Err(e) => Err(e)
    case Ok(s1) =>
      TaskKeysDistinct();
      Rename(s1, "task_name", "name")
  }

  /** `update_task` up to the handling of `access_exs`: the first steps,
      the renaming of the children, and the removal of the driver and
      profile selections. */
  function Prepare(sec: Section, table: map<string, string>): (r: Result<Section>)
    ensures r.Ok? ==> Named(sec, table).Ok?
    ensures r.Ok? ==> !In(r.value, "selected_driver") && !In(r.value, "selected_profile")
    ensures r.Ok? ==> Size(r.value) <= Size(sec)
  {
    match Named(sec, table)
    case Err(e) => Err(e)
    case Ok(s2) => Ok(DropSelections(RenameChildren(s2, 0).0))
  }

  /** `for key in ['selected_driver', 'selected_profile']: del key if
      present`. */
  function DropSelections(s: Section): (r: Section)
    ensures !In(r, "selected_driver") && !In(r, "selected_profile")
    ensures forall q :: q != "selected_driver" && q != "selected_profile" ==> Lookup(r, q) == Lookup(s, q)
    ensures Size(r) <= Size(s)
  {
    var s1 := Delete(s, "selected_driver");
    var s2 := Delete(s1, "selected_profile");
    assert "selected_driver" != "selected_profile";
    s2
  }

  /** `update_task` with the table of task ids a parameter. */
  function UpdateTaskWith(sec: Section, table: map<string, string>): (r: Result<Section>)
    ensures !In(sec, "task_class") ==> r == Err(KeyError("task_class"))
    ensures Lookup(sec, "task_class").Some? && Lookup(sec, "task_class").value.Text? &&
            Lookup(sec, "task_class").value.s !in table ==>
              r == Err(ValueError(Lookup(sec, "task_class").value.s))
    ensures r.Ok? ==> Size(r.value) <= Size(sec)
  {
    match Prepare(sec, table)
    case Err(e) => Err(e)
    case Ok(s) => AccessExs(s)
  }

  /** `update_task`: the task itself, not its children. */
  function UpdateTask(sec: Section): (r: Result<Section>)
    ensures !In(sec, "task_class") ==> r == Err(KeyError("task_class"))
    ensures Lookup(sec, "task_class").Some? && Lookup(sec, "task_class").value.Text? &&
            Lookup(sec, "task_class").value.s !in Tasks ==>
              r == Err(ValueError(Lookup(sec, "task_class").value.s))
    ensures r.Ok? ==> Size(r.value) <= Size(sec)
  {
    UpdateTaskWith(sec, Tasks)
  }

  // ---------------------------------------------------------------------------
  // What update_task promises
  // ---------------------------------------------------------------------------

  /** Whether `q` is one of the names the renaming loop touched, between
      the indices i (included) and k (excluded). */
  predicate Renamed(q: string, i: nat, k: nat)
    decreases k - i
  {
    i < k && (q == ChildTask(i) || q == Child(i) || Renamed(q, i + 1, k))
  }

  /** The names of an index outside [i, k) are not touched. */
  lemma {:induction false} OutsideNotRenamed(m: nat, i: nat, k: nat)
    requires m < i || k <= m
    ensures !Renamed(ChildTask(m), i, k) && !Renamed(Child(m), i, k)
    decreases k - i
  {
    if i < k {
      ChildNames(m, i);
      ChildNames(i, m);
      OutsideNotRenamed(m, i + 1, k);
    }
  }

  /** A key that does not start with `children_` is not touched. */
  lemma {:induction false} NotRenamed(q: string, i: nat, k: nat)
    requires !IsPrefix("children_", q)
    ensures !Renamed(q, i, k)
    decreases k - i
  {
    if i < k {
      ChildPrefix(i);
      NotRenamed(q, i + 1, k);
    }
  }

  /** The renaming loop stops at an index whose `children_task_` key is
      missing, and keeps the keys unique. */
  lemma {:induction false} RenameChildrenStops(sec: Section, i: nat)
    requires UniqueKeys(sec.entries)
    ensures i <= RenameChildren(sec, i).1 && UniqueKeys(RenameChildren(sec, i).0.entries)
    ensures !In(sec, ChildTask(RenameChildren(sec, i).1))
    decreases TaskKeys(sec.entries)
  {
    if In(sec, ChildTask(i)) {
      RenameChildDecreases(sec, i);
      var s1 := Rename(sec, ChildTask(i), Child(i)).value;
      RenameChildrenStops(s1, i + 1);
      var k := RenameChildren(s1, i + 1).1;
      assert RenameChildren(sec, i) == RenameChildren(s1, i + 1);
      ChildNames(k, i);
      assert Lookup(s1, ChildTask(k)) == Lookup(sec, ChildTask(k));
    }
  }

  /** Every key the loop does not rename keeps its value; in particular a
      `children_task_m` past the first missing index. */
  lemma {:induction false} RenameChildrenKeeps(sec: Section, i: nat, q: string)
    requires UniqueKeys(sec.entries)
    requires !Renamed(q, i, RenameChildren(sec, i).1)
    ensures Lookup(RenameChildren(sec, i).0, q) == Lookup(sec, q)
    decreases TaskKeys(sec.entries)
  {
    if In(sec, ChildTask(i)) {
      RenameChildDecreases(sec, i);
      var s1 := Rename(sec, ChildTask(i), Child(i)).value;
      assert RenameChildren(sec, i) == RenameChildren(s1, i + 1);
      var k := RenameChildren(s1, i + 1).1;
      RenameChildrenStops(s1, i + 1);
      RenameChildrenKeeps(s1, i + 1, q);
    }
  }

  /** The j-th `children_task_` key, for j below the stopping index, is
      renamed to `children_j` with its value. */
  lemma {:induction false} RenameChildrenMoves(sec: Section, i: nat, j: nat)
    requires UniqueKeys(sec.entries)
    requires i <= j < RenameChildren(sec, i).1
    ensures In(sec, ChildTask(j)) && !In(RenameChildren(sec, i).0, ChildTask(j))
    ensures Lookup(RenameChildren(sec, i).0, Child(j)) == Lookup(sec, ChildTask(j))
    decreases TaskKeys(sec.entries)
  {
    RenameChildDecreases(sec, i);
    var s1 := Rename(sec, ChildTask(i), Child(i)).value;
    assert RenameChildren(sec, i) == RenameChildren(s1, i + 1);
    ChildNames(i, i);
    if j == i {
      RenameChildrenStops(s1, i + 1);
      var k := RenameChildren(s1, i + 1).1;
      OutsideNotRenamed(i, i + 1, k);
      RenameChildrenKeeps(s1, i + 1, ChildTask(i));
      RenameChildrenKeeps(s1, i + 1, Child(i));
    } else {
      assert UniqueKeys(s1.entries);
      assert j < RenameChildren(s1, i + 1).1;
      RenameChildrenMoves(s1, i + 1, j);
      ChildNames(j, i);
      ChildNames(i, j);
    }
  }

  /** Past the first missing index nothing is renamed: a later
      `children_task_m` keeps its name and value. */
  lemma RenameChildrenGap(sec: Section, m: nat)
    requires UniqueKeys(sec.entries)
    requires RenameChildren(sec, 0).1 < m
    ensures Lookup(RenameChildren(sec, 0).0, ChildTask(m)) == Lookup(sec, ChildTask(m))
  {
    OutsideNotRenamed(m, 0, RenameChildren(sec, 0).1);
    RenameChildrenKeeps(sec, 0, ChildTask(m));
  }

  /** Two entry lists with the same keys in the same places, the same
      scalars and subsections in the same places. */
  predicate SameShape(a: seq<(string, Value)>, b: seq<(string, Value)>)
  {
    |a| == |b| &&
    forall j :: 0 <= j < |a| ==>
      a[j].0 == b[j].0 && (a[j].1.Sub? <==> b[j].1.Sub?) && (!a[j].1.Sub? ==> a[j].1 == b[j].1)
  }

  /** Lists of the same shape hold the same keys, and the same scalars. */
  lemma {:induction false} SameShapeGet(a: seq<(string, Value)>, b: seq<(string, Value)>, q: string)
    requires SameShape(a, b)
    ensures Get(a, q).Some? <==> Get(b, q).Some?
    ensures Get(a, q).Some? && !Get(a, q).value.Sub? ==> Get(b, q) == Get(a, q)
    ensures Get(a, q).Some? && Get(a, q).value.Sub? ==> Get(b, q).value.Sub?
  {
    if a != [] {
      assert SameShape(a[1..], b[1..]);
      SameShapeGet(a[1..], b[1..], q);
    }
  }

  /** The handling of `access_exs` keeps every other key, with its scalar
      value: the fix-up only rewrites subsections. */
  lemma AccessExsKeeps(sec: Section, q: string)
    requires q != "access_exs" && AccessExs(sec).Ok?
    ensures In(AccessExs(sec).value, q) <==> In(sec, q)
    ensures In(sec, q) && !Lookup(sec, q).value.Sub? ==> Lookup(AccessExs(sec).value, q) == Lookup(sec, q)
  {
    var v := Lookup(sec, "access_exs");
    if v.Some? && v.value != Names([]) && BraceIn(v.value) == Ok(false) && v.value.Names? {
      SameShapeGet(sec.entries, FixAll(sec, v.value.l, |v.value.l|).value.entries, q);
    }
  }

  /** What becomes of `access_exs` itself: kept when missing, an empty list
      dropped, a dictionary kept, and a list of exceptions without braces
      dropped once pushed down. */
  lemma AccessExsSpec(sec: Section)
    ensures !In(sec, "access_exs") ==> AccessExs(sec) == Ok(sec)
    ensures Lookup(sec, "access_exs") == Some(Names([])) ==> AccessExs(sec) == Ok(Delete(sec, "access_exs"))
    ensures In(sec, "access_exs") && Lookup(sec, "access_exs").value.Depths? ==> AccessExs(sec) == Ok(sec)
    ensures In(sec, "access_exs") && Lookup(sec, "access_exs").value.Names? &&
            BraceIn(Lookup(sec, "access_exs").value) == Ok(false) && AccessExs(sec).Ok? ==>
              !In(AccessExs(sec).value, "access_exs")
  {
    var v := Lookup(sec, "access_exs");
    if v.Some? && v.value != Names([]) && BraceIn(v.value) == Ok(false) && v.value.Names? {
      var s1 := FixAll(sec, v.value.l, |v.value.l|);
      if s1.Ok? {
        SameShapeGet(sec.entries, s1.value.entries, "access_exs");
      }
    }
  }

  /** The keys `update_task` itself sets, removes or renames, besides
      `access_exs`. */
  const Touched: set<string> :=
    {"task_class", "task_id", "dep_type", "task_name", "name", "selected_driver", "selected_profile"}

  lemma AccessExsUntouched()
    ensures "access_exs" !in Touched
  {
  }

  lemma ChildPrefix(j: nat)
    ensures IsPrefix("children_", ChildTask(j)) && IsPrefix("children_", Child(j))
  {
  }

  /** A key whose first letter is not `c` is not a child's. */
  lemma NotChildKey(q: string)
    requires q != [] && q[0] != 'c'
    ensures !IsPrefix("children_", q)
  {
    if |q| >= 9 {
      assert q[..9][0] == q[0];
    }
  }

  /** The keys `update_task` works with are distinct. */
  lemma TaskKeysDistinct()
    ensures "task_class" != "task_id"
    ensures "task_class" != "dep_type"
    ensures "task_class" != "task_name"
    ensures "task_class" != "name"
    ensures "task_class" != "selected_driver"
    ensures "task_class" != "selected_profile"
    ensures "task_class" != "access_exs"
    ensures "task_id" != "dep_type"
    ensures "task_id" != "task_name"
    ensures "task_id" != "name"
    ensures "task_id" != "selected_driver"
    ensures "task_id" != "selected_profile"
    ensures "task_id" != "access_exs"
    ensures "dep_type" != "task_name"
    ensures "dep_type" != "name"
    ensures "dep_type" != "selected_driver"
    ensures "dep_type" != "selected_profile"
    ensures "dep_type" != "access_exs"
    ensures "task_name" != "name"
    ensures "task_name" != "selected_driver"
    ensures "task_name" != "selected_profile"
    ensures "task_name" != "access_exs"
    ensures "name" != "selected_driver"
    ensures "name" != "selected_profile"
    ensures "name" != "access_exs"
    ensures "selected_driver" != "selected_profile"
    ensures "selected_driver" != "access_exs"
    ensures "selected_profile" != "access_exs"
  {
  }

  /** The children's renaming and the removal of the selections leave a key
      that is not a child's and not a selection as it was after renaming
      the name. */
  lemma PrepareLookup(sec: Section, table: map<string, string>, q: string)
    requires UniqueKeys(sec.entries) && Prepare(sec, table).Ok?
    requires !IsPrefix("children_", q) && q != "selected_driver" && q != "selected_profile"
    ensures Lookup(Prepare(sec, table).value, q) == Lookup(Named(sec, table).value, q)
  {
    var s2 := Named(sec, table).value;
    NotRenamed(q, 0, RenameChildren(s2, 0).1);
    RenameChildrenKeeps(s2, 0, q);
  }

  /** Up to `access_exs`: the id and dependency type are set, the class
      removed and `task_name` renamed to `name`. */
  lemma PrepareSets(sec: Section, table: map<string, string>)
    requires UniqueKeys(sec.entries) && Prepare(sec, table).Ok?
    ensures Lookup(sec, "task_class").value.Text? && Lookup(sec, "task_class").value.s in table
    ensures Lookup(Prepare(sec, table).value, "task_id") == Some(Text(table[Lookup(sec, "task_class").value.s]))
    ensures Lookup(Prepare(sec, table).value, "dep_type") == Some(Text(TaskDepType))
    ensures !In(Prepare(sec, table).value, "task_class")
  {
    TaskKeysDistinct();
    NotChildKey("task_id");
    NotChildKey("dep_type");
    NotChildKey("task_class");
    PrepareLookup(sec, table, "task_id");
    PrepareLookup(sec, table, "dep_type");
    PrepareLookup(sec, table, "task_class");
  }

  /** Up to `access_exs`: `task_name` is renamed to `name`. */
  lemma PrepareName(sec: Section, table: map<string, string>)
    requires UniqueKeys(sec.entries) && Prepare(sec, table).Ok?
    ensures !In(Prepare(sec, table).value, "task_name")
    ensures In(sec, "task_name") && Lookup(Prepare(sec, table).value, "name") == Lookup(sec, "task_name")
  {
    TaskKeysDistinct();
    NotChildKey("task_name");
    NotChildKey("name");
    PrepareLookup(sec, table, "task_name");
    PrepareLookup(sec, table, "name");
  }

  /** Up to `access_exs`, every other key that is not a child's keeps its
      value. */
  lemma PrepareKeeps(sec: Section, table: map<string, string>, q: string)
    requires UniqueKeys(sec.entries) && Prepare(sec, table).Ok?
    requires q !in Touched && !IsPrefix("children_", q)
    ensures Lookup(Prepare(sec, table).value, q) == Lookup(sec, q)
  {
    PrepareLookup(sec, table, q);
  }

  /** `update_task` on a known class: the id and dependency type are set,
      the class removed and `task_name` renamed to `name`. */
  lemma UpdateTaskSets(sec: Section, table: map<string, string>)
    requires UniqueKeys(sec.entries) && UpdateTaskWith(sec, table).Ok?
    ensures Lookup(sec, "task_class").value.Text? && Lookup(sec, "task_class").value.s in table
    ensures Lookup(UpdateTaskWith(sec, table).value, "task_id") == Some(Text(table[Lookup(sec, "task_class").value.s]))
    ensures Lookup(UpdateTaskWith(sec, table).value, "dep_type") == Some(Text(TaskDepType))
    ensures !In(UpdateTaskWith(sec, table).value, "task_class") && !In(UpdateTaskWith(sec, table).value, "task_name")
    ensures In(sec, "task_name") && In(UpdateTaskWith(sec, table).value, "name")
    ensures !Lookup(sec, "task_name").value.Sub? ==>
              Lookup(UpdateTaskWith(sec, table).value, "name") == Lookup(sec, "task_name")
  {
    TaskKeysDistinct();
    var s := Prepare(sec, table).value;
    PrepareSets(sec, table);
    PrepareName(sec, table);
    AccessExsKeeps(s, "task_id");
    AccessExsKeeps(s, "dep_type");
    AccessExsKeeps(s, "task_class");
    AccessExsKeeps(s, "task_name");
    AccessExsKeeps(s, "name");
  }

  /** `update_task` drops the driver and profile selections, and an empty
      list of access exceptions. */
  lemma UpdateTaskDrops(sec: Section, table: map<string, string>)
    requires UniqueKeys(sec.entries) && UpdateTaskWith(sec, table).Ok?
    ensures !In(UpdateTaskWith(sec, table).value, "selected_driver")
    ensures !In(UpdateTaskWith(sec, table).value, "selected_profile")
    ensures Lookup(sec, "access_exs") == Some(Names([])) ==> !In(UpdateTaskWith(sec, table).value, "access_exs")
  {
    TaskKeysDistinct();
    var s := Prepare(sec, table).value;
    AccessExsKeeps(s, "selected_driver");
    AccessExsKeeps(s, "selected_profile");
    NotChildKey("access_exs");
    AccessExsUntouched();
    PrepareKeeps(sec, table, "access_exs");
    AccessExsSpec(s);
  }

  /** `update_task` keeps every key it does not touch and that is not a
      child's: the key stays, and so does a scalar value. */
  lemma UpdateTaskKeeps(sec: Section, table: map<string, string>, q: string)
    requires UniqueKeys(sec.entries) && UpdateTaskWith(sec, table).Ok?
    requires q !in Touched && q != "access_exs" && !IsPrefix("children_", q)
    ensures In(UpdateTaskWith(sec, table).value, q) <==> In(sec, q)
    ensures In(sec, q) && !Lookup(sec, q).value.Sub? ==> Lookup(UpdateTaskWith(sec, table).value, q) == Lookup(sec, q)
  {
    PrepareKeeps(sec, table, q);
    AccessExsKeeps(Prepare(sec, table).value, q);
  }
}
