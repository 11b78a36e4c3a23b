/** The part of a ConfigObj section the converter relies on: an ordered
    mapping from keys to values, where a value is a scalar or a nested
    section. The `literal_eval`/`repr` round trips are not modelled: a value
    the converter parses (`access_exs`, `undisplayed`) is held as the list or
    dictionary it stands for. */
module IniSection {
  import opened Common

  datatype Value =
    | Text(s: string)
    | Flag(b: bool)
    | Names(l: seq<string>)               // a list of strings
    | Depths(d: seq<(string, int)>)       // a dictionary of strings to integers
    | Sub(sec: Section)

  datatype Section = Section(entries: seq<(string, Value)>)

  /** The exceptions the converter can raise. */
  datatype Error = KeyError(key: string) | ValueError(what: string) | TypeError | AttributeError | RuntimeError

  datatype Result<T> = Ok(value: T) | Err(error: Error)

  // ---------------------------------------------------------------------------
  // Entries
  // ---------------------------------------------------------------------------

  /** `es[k]`, looked up in order. */
  function Get(es: seq<(string, Value)>, k: string): Option<Value>
  {
    if es == [] then None
    else if es[0].0 == k then Some(es[0].1)
    else Get(es[1..], k)
  }

  /** A key is found exactly when some entry has it, and what is found is
      the value of the first such entry. */
  lemma {:induction false} GetSpec(es: seq<(string, Value)>, k: string)
    ensures Get(es, k).Some? <==> exists i :: 0 <= i < |es| && es[i].0 == k
    ensures Get(es, k).Some? ==>
              exists i :: 0 <= i < |es| && es[i] == (k, Get(es, k).value) &&
                forall m :: 0 <= m < i ==> es[m].0 != k
  {
    if es != [] && es[0].0 != k {
      GetSpec(es[1..], k);
      assert forall i :: 0 <= i < |es| - 1 ==> es[1..][i] == es[i + 1];
      if Get(es, k).Some? {
        var i :| 0 <= i < |es| - 1 && es[1..][i] == (k, Get(es, k).value) &&
                 forall m :: 0 <= m < i ==> es[1..][m].0 != k;
        assert es[i + 1] == (k, Get(es, k).value);
      }
    }
  }

  /** No key appears twice. */
  predicate UniqueKeys(es: seq<(string, Value)>)
  {
    forall i, j :: 0 <= i < j < |es| ==> es[i].0 != es[j].0
  }

  lemma ConsUnique(x: (string, Value), rest: seq<(string, Value)>)
    requires UniqueKeys(rest) && Get(rest, x.0).None?
    ensures UniqueKeys([x] + rest)
  {
    var es := [x] + rest;
    GetSpec(rest, x.0);
    forall i, j | 0 <= i < j < |es| ensures es[i].0 != es[j].0 {
      if i == 0 {
        assert es[j] == rest[j - 1];
      } else {
        assert es[i] == rest[i - 1] && es[j] == rest[j - 1];
      }
    }
  }

  lemma TailUnique(es: seq<(string, Value)>)
    requires es != [] && UniqueKeys(es)
    ensures UniqueKeys(es[1..]) && Get(es[1..], es[0].0).None?
  {
    GetSpec(es[1..], es[0].0);
    assert forall i :: 0 <= i < |es| - 1 ==> es[1..][i] == es[i + 1];
  }

  /** `es[k] = v`: an existing key keeps its place, a new one goes last. */
  function Put(es: seq<(string, Value)>, k: string, v: Value): (r: seq<(string, Value)>)
    ensures Get(r, k) == Some(v)
    ensures forall q :: q != k ==> Get(r, q) == Get(es, q)
    ensures Get(es, k).None? ==> r == es + [(k, v)]
  {
    if es == [] then [(k, v)]
    else if es[0].0 == k then [(k, v)] + es[1..]
    else [es[0]] + Put(es[1..], k, v)
  }

  /** Setting a key keeps the keys unique, and an existing key its place. */
  lemma {:induction false} PutKeys(es: seq<(string, Value)>, k: string, v: Value)
    ensures Get(es, k).Some? ==> |Put(es, k, v)| == |es| && forall i :: 0 <= i < |es| ==> Put(es, k, v)[i].0 == es[i].0
    ensures UniqueKeys(es) ==> UniqueKeys(Put(es, k, v))
  {
    if es != [] && es[0].0 != k {
      PutKeys(es[1..], k, v);
      if UniqueKeys(es) {
        TailUnique(es);
        ConsUnique(es[0], Put(es[1..], k, v));
      }
    }
  }

  /** `del es[k]`, for a key that may be absent. */
  function Without(es: seq<(string, Value)>, k: string): (r: seq<(string, Value)>)
    ensures Get(r, k).None?
    ensures forall q :: q != k ==> Get(r, q) == Get(es, q)
    ensures UniqueKeys(es) ==> UniqueKeys(r)
    ensures |r| <= |es|
  {
    if es == [] then []
    else if es[0].0 == k then Without(es[1..], k)
    else
      var rest := Without(es[1..], k);
      if UniqueKeys(es) then TailUnique(es); ConsUnique(es[0], rest); [es[0]] + rest
      else [es[0]] + rest
  }

  /** The entry of key `from` under key `to`, in the same place. */
  function Relabel(es: seq<(string, Value)>, from: string, to: string): (r: seq<(string, Value)>)
    requires from != to && Get(es, to).None?
    ensures Get(r, to) == Get(es, from)
    ensures forall q :: q != from && q != to ==> Get(r, q) == Get(es, q)
    ensures UniqueKeys(es) ==> Get(r, from).None? && UniqueKeys(r)
    ensures |r| == |es|
  {
    if es == [] then []
    else if es[0].0 == from then
      var r := [(to, es[0].1)] + es[1..];
      assert r[1..] == es[1..];
      if UniqueKeys(es) then TailUnique(es); ConsUnique((to, es[0].1), es[1..]); r
      else r
    else
      var rest := Relabel(es[1..], from, to);
      if UniqueKeys(es) then TailUnique(es); ConsUnique(es[0], rest); [es[0]] + rest
      else [es[0]] + rest
  }

  // ---------------------------------------------------------------------------
  // Sections
  // ---------------------------------------------------------------------------

  predicate In(sec: Section, k: string)
  {
    Get(sec.entries, k).Some?
  }

  function Lookup(sec: Section, k: string): Option<Value>
  {
    Get(sec.entries, k)
  }

  function Set(sec: Section, k: string, v: Value): (r: Section)
    ensures Lookup(r, k) == Some(v) && forall q :: q != k ==> Lookup(r, q) == Lookup(sec, q)
    ensures UniqueKeys(sec.entries) ==> UniqueKeys(r.entries)
    ensures ValueSize(v) <= (if In(sec, k) then ValueSize(Lookup(sec, k).value) else 0) ==> Size(r) <= Size(sec)
  {
    PutKeys(sec.entries, k, v);
    PutSizeIf(sec.entries, k, v);
    Section(Put(sec.entries, k, v))
  }

  /** `del section[k]` when k is there; the callers check first. */
  function Delete(sec: Section, k: string): (r: Section)
    ensures !In(r, k) && forall q :: q != k ==> Lookup(r, q) == Lookup(sec, q)
    ensures UniqueKeys(sec.entries) ==> UniqueKeys(r.entries)
    ensures Size(r) <= Size(sec)
  {
    WithoutSize(sec.entries, k);
    Section(Without(sec.entries, k))
  }

  /** Deleting a key that is not there changes nothing. */
  lemma {:induction false} WithoutAbsent(es: seq<(string, Value)>, k: string)
    requires Get(es, k).None?
    ensures Without(es, k) == es
  {
    if es != [] {
      WithoutAbsent(es[1..], k);
    }
  }

  lemma DeleteAbsent(sec: Section, k: string)
    requires !In(sec, k)
    ensures Delete(sec, k) == sec
  {
    WithoutAbsent(sec.entries, k);
  }

  /** `del section[k]`, a KeyError when k is absent. */
  function Del(sec: Section, k: string): (r: Result<Section>)
    ensures r.Err? <==> !In(sec, k)
    ensures r.Err? ==> r.error == KeyError(k)
    ensures r.Ok? ==> r.value == Delete(sec, k)
  {
    if In(sec, k) then Ok(Delete(sec, k)) else Err(KeyError(k))
  }

  /** `section.rename(from, to)`: the value of `from` moves to `to` in the
      place `from` had; a KeyError when `from` is absent. An entry already
      called `to` is overwritten. */
  function Rename(sec: Section, from: string, to: string): (r: Result<Section>)
    ensures r.Err? <==> !In(sec, from)
    ensures r.Err? ==> r.error == KeyError(from)
    ensures r.Ok? && UniqueKeys(sec.entries) ==>
              UniqueKeys(r.value.entries) &&
              Lookup(r.value, to) == Lookup(sec, from) &&
              (from != to ==> !In(r.value, from)) &&
              forall q :: q != from && q != to ==> Lookup(r.value, q) == Lookup(sec, q)
    ensures r.Ok? ==> Size(r.value) <= Size(sec)
  {
    if !In(sec, from) then Err(KeyError(from))
    else if from == to then Ok(sec)
    else
      WithoutSize(sec.entries, to);
      RelabelSize(Without(sec.entries, to), from, to);
      Ok(Section(Relabel(Without(sec.entries, to), from, to)))
  }

  /** The names of the subsections, in order (`section.sections`). */
  function SubNames(es: seq<(string, Value)>): (r: seq<string>)
    ensures forall k :: k in r <==> exists i :: 0 <= i < |es| && es[i].0 == k && es[i].1.Sub?
  {
    if es == [] then []
    else
      var rest := SubNames(es[1..]);
      assert forall i :: 0 <= i < |es| - 1 ==> es[1..][i] == es[i + 1];
      if es[0].1.Sub? then [es[0].0] + rest else rest
  }

  // ---------------------------------------------------------------------------
  // Size: the number of sections in a tree
  // ---------------------------------------------------------------------------

  function Size(sec: Section): nat
    decreases sec, 1
  {
    1 + SizeUpTo(sec, |sec.entries|)
  }

  function SizeUpTo(sec: Section, n: nat): nat
    requires n <= |sec.entries|
    decreases sec, 0, n
  {
    if n == 0 then 0 else SizeUpTo(sec, n - 1) + ValueSize(sec.entries[n - 1].1)
  }

  function ValueSize(v: Value): nat
    decreases v
  {
    if v.Sub? then Size(v.sec) else 0
  }

  lemma {:induction false} SizeUpToCons(x: (string, Value), rest: seq<(string, Value)>, n: nat)
    requires n <= |rest|
    ensures SizeUpTo(Section([x] + rest), n + 1) == ValueSize(x.1) + SizeUpTo(Section(rest), n)
  {
    if n > 0 {
      SizeUpToCons(x, rest, n - 1);
      assert ([x] + rest)[n] == rest[n - 1];
    }
  }

  lemma SizeCons(x: (string, Value), rest: seq<(string, Value)>)
    ensures Size(Section([x] + rest)) == ValueSize(x.1) + Size(Section(rest))
  {
    SizeUpToCons(x, rest, |rest|);
  }

  lemma {:induction false} SizeUpToChild(sec: Section, n: nat, i: nat)
    requires i < n <= |sec.entries|
    ensures ValueSize(sec.entries[i].1) <= SizeUpTo(sec, n)
  {
    if i < n - 1 {
      SizeUpToChild(sec, n - 1, i);
    }
  }

  /** A subsection is smaller than its parent. */
  lemma SizeChild(sec: Section, i: nat)
    requires i < |sec.entries| && sec.entries[i].1.Sub?
    ensures Size(sec.entries[i].1.sec) < Size(sec)
  {
    SizeUpToChild(sec, |sec.entries|, i);
  }

  lemma {:induction false} SizeUpToPointwise(a: Section, b: Section, n: nat)
    requires n <= |a.entries| == |b.entries|
    requires forall j :: 0 <= j < |a.entries| ==> ValueSize(b.entries[j].1) <= ValueSize(a.entries[j].1)
    ensures SizeUpTo(b, n) <= SizeUpTo(a, n)
  {
    if n > 0 {
      SizeUpToPointwise(a, b, n - 1);
    }
  }

  /** Replacing values by no larger ones does not grow a section. */
  lemma SizePointwise(a: Section, b: Section)
    requires |a.entries| == |b.entries|
    requires forall j :: 0 <= j < |a.entries| ==> ValueSize(b.entries[j].1) <= ValueSize(a.entries[j].1)
    ensures Size(b) <= Size(a)
  {
    SizeUpToPointwise(a, b, |a.entries|);
  }

  /** Setting a key to a value no larger than the one it had does not grow a
      section. */
  lemma {:induction false} PutSize(es: seq<(string, Value)>, k: string, v: Value)
    requires ValueSize(v) <= (if Get(es, k).Some? then ValueSize(Get(es, k).value) else 0)
    ensures Size(Section(Put(es, k, v))) <= Size(Section(es))
  {
    if es == [] {
      SizeCons((k, v), []);
      assert [(k, v)] + [] == [(k, v)];
    } else if es[0].0 == k {
      SizeCons(es[0], es[1..]);
      SizeCons((k, v), es[1..]);
      assert [es[0]] + es[1..] == es;
    } else {
      PutSize(es[1..], k, v);
      SizeCons(es[0], es[1..]);
      SizeCons(es[0], Put(es[1..], k, v));
      assert [es[0]] + es[1..] == es;
    }
  }

  lemma PutSizeIf(es: seq<(string, Value)>, k: string, v: Value)
    ensures ValueSize(v) <= (if Get(es, k).Some? then ValueSize(Get(es, k).value) else 0) ==>
              Size(Section(Put(es, k, v))) <= Size(Section(es))
  {
    if ValueSize(v) <= (if Get(es, k).Some? then ValueSize(Get(es, k).value) else 0) {
      PutSize(es, k, v);
    }
  }

  lemma {:induction false} WithoutSize(es: seq<(string, Value)>, k: string)
    ensures Size(Section(Without(es, k))) <= Size(Section(es))
  {
    if es != [] {
      WithoutSize(es[1..], k);
      SizeCons(es[0], es[1..]);
      assert [es[0]] + es[1..] == es;
      if es[0].0 != k {
        SizeCons(es[0], Without(es[1..], k));
      }
    }
  }

  lemma {:induction false} RelabelSize(es: seq<(string, Value)>, from: string, to: string)
    requires from != to && Get(es, to).None?
    ensures Size(Section(Relabel(es, from, to))) == Size(Section(es))
  {
    if es != [] {
      SizeCons(es[0], es[1..]);
      assert [es[0]] + es[1..] == es;
      if es[0].0 == from {
        SizeCons((to, es[0].1), es[1..]);
      } else {
        RelabelSize(es[1..], from, to);
        SizeCons(es[0], Relabel(es[1..], from, to));
      }
    }
  }
}
