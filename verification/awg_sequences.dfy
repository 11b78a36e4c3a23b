/** `prepare_sequences` of the AWG file transfer task: every point of the
    parameter grid is compiled in loop mode, its packed blocks are named and
    de-duplicated by array identity, and the sequence table that plays them
    one after the other is built. */
module AwgSequences {
  import opened Common
  import opened AwgContext
  import opened AwgLoop

  // ---------------------------------------------------------------------------
  // Inputs and outputs
  // ---------------------------------------------------------------------------

  /** A block of `compile_loop(for_file=True)`: the identity of the array it
      was packed into and its 16-bit words. */
  datatype Wave = Wave(id: Obj, words: seq<int>)

  /** What the compilation of one grid point gave: the blocks per channel
      and the repeat counts; the five-tuple failure, whose `byteseq` is
      `None`; or an exception (the three-tuple failure of the preprocessing
      cannot be unpacked into five names and raises too). */
  datatype Run =
    | Compiled(byteseq: map<Ch, seq<Wave>>, repeats: seq<int>)
    | Failed
    | Raised

  /** A key of `packed_waveforms`: `'<nn+1>_Ch<ch>_<pos>'` for block pos of
      channel ch at grid point nn, or `'Standby_Ch<ch>'`. */
  datatype Key = Numbered(iter: nat, ch: Ch, pos: nat) | Standby(ch: Ch)

  function KeyName(k: Key): (s: string)
    ensures |s| > 0
    ensures k.Numbered? ==> '0' <= s[0] <= '9'
    ensures k.Standby? ==> s[0] == 'S'
  {
    if k.Numbered? then NatToString(k.iter + 1) + "_Ch" + NatToString(k.ch) + "_" + NatToString(k.pos)
    else "Standby_Ch" + NatToString(k.ch)
  }

  /** One line of the sequence table: `nrep`, `trig_wait`, `goto_state` and
      `jump_to` are appended together, so they are kept as one list of rows. */
  datatype TableRow = TableRow(nrep: int, trig: int, goto: int, jump: int)

  /** The local variables of `prepare_sequences`: `packed_waveforms`,
      `wfname_l` (its keys in insertion order, and the lists) and the table. */
  datatype Tables = Tables(packed: map<Key, seq<int>>, keys: seq<Ch>, lists: map<Ch, seq<Key>>,
                           rows: seq<TableRow>)

  const NoTables := Tables(map[], [], map[], [])

  /** The tables and `already_added`, which maps an array identity to the
      key it was first stored under during the current grid point. */
  datatype State = State(t: Tables, added: map<Obj, Key>)

  /** The standby block: 256 words at mid-scale 2**13. */
  const StandbyWords: seq<int> := Fill(256, 8192)

  /** `np.ones(n, dtype=np.uint16) * v`. */
  function Fill(n: nat, v: int): (r: seq<int>)
    ensures |r| == n && forall i :: 0 <= i < n ==> r[i] == v
  {
    if n == 0 then [] else Fill(n - 1, v) + [v]
  }

  // ---------------------------------------------------------------------------
  // Names never collide
  // ---------------------------------------------------------------------------

  /** In a digit string followed by an underscore, that underscore is the
      first one. */
  lemma FirstUnderscore(a: string, r: string)
    requires forall i :: 0 <= i < |a| ==> '0' <= a[i] <= '9'
    ensures (a + "_" + r)[|a|] == '_'
    ensures forall i :: 0 <= i < |a| ==> (a + "_" + r)[i] != '_'
  {
  }

  /** Two digit strings each followed by an underscore split the same way. */
  lemma SplitAtUnderscore(a: string, b: string, r: string, q: string)
    requires forall i :: 0 <= i < |a| ==> '0' <= a[i] <= '9'
    requires forall i :: 0 <= i < |b| ==> '0' <= b[i] <= '9'
    requires a + "_" + r == b + "_" + q
    ensures a == b && r == q
  {
    FirstUnderscore(a, r);
    FirstUnderscore(b, q);
    assert |a| == |b|;
    assert a == (a + "_" + r)[..|a|];
    assert b == (b + "_" + q)[..|b|];
    assert r == (a + "_" + r)[|a| + 1..];
    assert q == (b + "_" + q)[|b| + 1..];
  }

  predicate Digits(s: string)
  {
    forall i :: 0 <= i < |s| ==> '0' <= s[i] <= '9'
  }

  lemma ChannelAndPosition(c: string, p: string, d: string, q: string)
    requires Digits(c) && Digits(d)
    requires "Ch" + c + "_" + p == "Ch" + d + "_" + q
    ensures c == d && p == q
  {
    assert ("Ch" + c + "_" + p)[2..] == c + "_" + p;
    assert ("Ch" + d + "_" + q)[2..] == d + "_" + q;
    SplitAtUnderscore(c, d, p, q);
  }

  lemma NameShape(x: string, y: string, z: string)
    ensures x + "_Ch" + y + "_" + z == x + "_" + ("Ch" + y + "_" + z)
  {
    assert "_Ch" == "_" + "Ch";
  }

  lemma NumberedStrings(sn: string, sc: string, sp: string, sm: string, sd: string, sq: string)
    requires Digits(sn) && Digits(sc) && Digits(sm) && Digits(sd)
    requires sn + "_Ch" + sc + "_" + sp == sm + "_Ch" + sd + "_" + sq
    ensures sn == sm && sc == sd && sp == sq
  {
    NameShape(sn, sc, sp);
    NameShape(sm, sd, sq);
    SplitAtUnderscore(sn, sm, "Ch" + sc + "_" + sp, "Ch" + sd + "_" + sq);
    ChannelAndPosition(sc, sp, sd, sq);
  }

  /** A numbered name splits back into its three numbers. */
  lemma NumberedParts(n: nat, c: Ch, p: nat, m: nat, d: Ch, q: nat)
    requires KeyName(Numbered(n, c, p)) == KeyName(Numbered(m, d, q))
    ensures NatToString(n + 1) == NatToString(m + 1) && NatToString(c) == NatToString(d) &&
            NatToString(p) == NatToString(q)
  {
    NumberedStrings(NatToString(n + 1), NatToString(c), NatToString(p),
                    NatToString(m + 1), NatToString(d), NatToString(q));
  }

  /** The numbers of a numbered name are determined by their decimal forms. */
  lemma PartsInjective(n: nat, c: nat, p: nat, m: nat, d: nat, q: nat)
    requires NatToString(n) == NatToString(m) && NatToString(c) == NatToString(d) &&
             NatToString(p) == NatToString(q)
    ensures n == m && c == d && p == q
  {
    NatToStringInjective(n, m);
    NatToStringInjective(c, d);
    NatToStringInjective(p, q);
  }

  lemma StandbyNames(c: Ch, d: Ch)
    requires KeyName(Standby(c)) == KeyName(Standby(d))
    ensures c == d
  {
    var pre := "Standby_Ch";
    assert NatToString(c) == KeyName(Standby(c))[|pre|..];
    assert NatToString(d) == KeyName(Standby(d))[|pre|..];
    NatToStringInjective(c, d);
  }

  /** Distinct keys have distinct names, so keying the dictionary by `Key`
      instead of by its string loses nothing. */
  lemma KeyNameInjective(k: Key, l: Key)
    requires KeyName(k) == KeyName(l)
    ensures k == l
  {
    if k.Numbered? && l.Numbered? {
      NumberedParts(k.iter, k.ch, k.pos, l.iter, l.ch, l.pos);
      PartsInjective(k.iter + 1, k.ch, k.pos, l.iter + 1, l.ch, l.pos);
    } else if k.Standby? && l.Standby? {
      StandbyNames(k.ch, l.ch);
    }
  }

  // ---------------------------------------------------------------------------
  // The specification of the loops
  // ---------------------------------------------------------------------------

  /** The list of channel ch in `wfname_l`, empty when it has none yet. */
  function ListOf(t: Tables, ch: Ch): seq<Key>
  {
    if ch in t.lists then t.lists[ch] else []
  }

  /** Block pos of channel ch at grid point nn, stored: reuse the key of an
      array already stored during this grid point, or store it under its
      own name; then append the key to the channel's list. */
  function StoreBlock(nn: nat, ch: Ch, w: Wave, pos: nat, s: State): State
  {
    var key := if w.id in s.added then s.added[w.id] else Numbered(nn, ch, pos);
    var packed := if w.id in s.added then s.t.packed else s.t.packed[key := w.words];
    var keys := if ch in s.t.lists then s.t.keys else s.t.keys + [ch];
    var lists := s.t.lists[ch := ListOf(s.t, ch) + [key]];
    State(Tables(packed, keys, lists, s.t.rows), s.added[w.id := key])
  }

  /** Block pos stored, and on the first channel that has blocks a table
      row added (an IndexError when `repeat` is too short). */
  function Place(nn: nat, ch: Ch, w: Wave, pos: nat, first: bool, repeats: seq<int>,
                 wait: bool, sw: bool, s: State): Option<State>
  {
    var s' := StoreBlock(nn, ch, w, pos, s);
    if !first then Some(s')
    else if pos < |repeats| then
      var row := TableRow(repeats[pos], if wait && pos == 0 then 1 else 0, 0, if sw then 1 else 0);
      Some(s'.(t := s'.t.(rows := s'.t.rows + [row])))
    else None
  }

  /** The first n blocks of one channel. */
  function PlaceAll(nn: nat, ch: Ch, ws: seq<Wave>, n: nat, first: bool, repeats: seq<int>,
                    wait: bool, sw: bool, s: State): Option<State>
    requires n <= |ws|
  {
    if n == 0 then Some(s)
    else match PlaceAll(nn, ch, ws, n - 1, first, repeats, wait, sw, s)
      case None => None
      case Some(s') => Place(nn, ch, ws[n - 1], n - 1, first, repeats, wait, sw, s')
  }

  /** No channel among the first n defined ones has blocks (`is_first_ch`). */
  predicate NoneBefore(defined: seq<Ch>, byteseq: map<Ch, seq<Wave>>, n: nat)
    requires n <= |defined|
  {
    forall j :: 0 <= j < n ==> defined[j] !in byteseq
  }

  /** The first n defined channels of one grid point. */
  function Channels(nn: nat, byteseq: map<Ch, seq<Wave>>, repeats: seq<int>, defined: seq<Ch>,
                    n: nat, wait: bool, sw: bool, s: State): Option<State>
    requires n <= |defined|
  {
    if n == 0 then Some(s)
    else match Channels(nn, byteseq, repeats, defined, n - 1, wait, sw, s)
      case None => None
      case Some(s') =>
        var ch := defined[n - 1];
        if ch in byteseq then
          PlaceAll(nn, ch, byteseq[ch], |byteseq[ch]|, NoneBefore(defined, byteseq, n - 1),
                   repeats, wait, sw, s')
        else Some(s')
  }

  /** Grid point nn, with `already_added` empty at its start. The failure
      whose `byteseq` is `None` raises at `ch_id in byteseq` unless no
      channel is defined. */
  function Iteration(nn: nat, run: Run, defined: seq<Ch>, wait: bool, sw: bool, t: Tables): Option<Tables>
  {
    match run
    case Compiled(byteseq, repeats) =>
      (match Channels(nn, byteseq, repeats, defined, |defined|, wait, sw, State(t, map[]))
       case None => None
       case Some(s) => Some(s.t))
    case Failed => if defined == [] then Some(t) else None
    case Raised => None
  }

  /** The first n grid points. */
  function Iterations(runs: seq<Run>, n: nat, defined: seq<Ch>, wait: bool, sw: bool): Option<Tables>
    requires n <= |runs|
  {
    if n == 0 then Some(NoTables)
    else match Iterations(runs, n - 1, defined, wait, sw)
      case None => None
      case Some(t) => Iteration(n - 1, runs[n - 1], defined, wait, sw, t)
  }

  /** The standby keys of a set of channels. */
  function StandbyKeys(cs: set<Ch>): set<Key>
  {
    set c | c in cs :: Standby(c)
  }

  /** `packed_waveforms` with the standby block stored for the channels cs. */
  function WithStandby(packed: map<Key, seq<int>>, cs: set<Ch>): map<Key, seq<int>>
  {
    packed + map k | k in StandbyKeys(cs) :: StandbyWords
  }

  /** The lists with the standby block put first for the channels cs. */
  function StandbyLists(lists: map<Ch, seq<Key>>, cs: set<Ch>): map<Ch, seq<Key>>
  {
    map c | c in lists :: if c in cs then [Standby(c)] + lists[c] else lists[c]
  }

  /** After the grid: with `start_with_event`, a standby row first and a
      standby block at the head of the list of every channel of the last
      grid point (a KeyError for a channel without a list), the last row
      going to 2; otherwise the last row goes to 1 (an IndexError for an
      empty table). A last grid point that did not compile raises. */
  function Finish(t: Tables, last: Run, sw: bool): Option<Tables>
  {
    if !last.Compiled? then None
    else if sw then
      if last.byteseq.Keys <= t.lists.Keys then
        var rows := [TableRow(0, 0, 0, 2)] + t.rows;
        var packed := WithStandby(t.packed, last.byteseq.Keys);
        var lists := StandbyLists(t.lists, last.byteseq.Keys);
        Some(Tables(packed, t.keys, lists, rows[|rows| - 1 := rows[|rows| - 1].(goto := 2)]))
      else None
    else if t.rows == [] then None
    else Some(t.(rows := t.rows[|t.rows| - 1 := t.rows[|t.rows| - 1].(goto := 1)]))
  }

  /** `prepare_sequences(wait_trigger, start_with_event)` for the compiled
      grid points `runs`, `defined` being the driver's `defined_channels`.
      An empty grid leaves `res` and `byteseq` unbound and raises. */
  function PrepareSpec(runs: seq<Run>, defined: seq<Ch>, wait: bool, sw: bool): Option<Tables>
  {
    if runs == [] then None
    else match Iterations(runs, |runs|, defined, wait, sw)
      case None => None
      case Some(t) => Finish(t, runs[|runs| - 1], sw)
  }

  // ---------------------------------------------------------------------------
  // The sequence table
  // ---------------------------------------------------------------------------

  /** The first defined channel that has blocks at a grid point. */
  function First(defined: seq<Ch>, byteseq: map<Ch, seq<Wave>>): (r: Option<Ch>)
    ensures r.None? <==> forall j :: 0 <= j < |defined| ==> defined[j] !in byteseq
    ensures r.Some? ==>
              r.value in byteseq &&
              exists j :: 0 <= j < |defined| && defined[j] == r.value && NoneBefore(defined, byteseq, j)
  {
    if defined == [] then None
    else
      var init := defined[..|defined| - 1];
      var f := First(init, byteseq);
      if f.Some? then
        assert forall j :: 0 <= j < |init| ==> init[j] == defined[j];
        f
      else if defined[|defined| - 1] in byteseq then Some(defined[|defined| - 1])
      else None
  }

  /** The rows of a grid point whose first channel has n blocks: block pos
      repeats `repeat[pos]` times, waits for the trigger only at pos 0 with
      `wait_trigger`, never goes anywhere, and jumps to 1 on an event with
      `start_with_event`. */
  function BlockRows(n: nat, repeats: seq<int>, wait: bool, sw: bool): (r: seq<TableRow>)
    requires n <= |repeats|
    ensures |r| == n
    ensures forall pos :: 0 <= pos < n ==>
              r[pos] == TableRow(repeats[pos], if wait && pos == 0 then 1 else 0, 0, if sw then 1 else 0)
  {
    if n == 0 then []
    else BlockRows(n - 1, repeats, wait, sw) +
           [TableRow(repeats[n - 1], if wait && n - 1 == 0 then 1 else 0, 0, if sw then 1 else 0)]
  }

  /** A grid point can be tabulated: it compiled, and its first channel has
      no more blocks than it has repeat counts. */
  predicate Fits(run: Run, defined: seq<Ch>)
  {
    run.Compiled? ==>
      var f := First(defined, run.byteseq);
      f.None? || |run.byteseq[f.value]| <= |run.repeats|
  }

  /** The rows a grid point contributes: one per block of its first channel. */
  function RunRows(run: Run, defined: seq<Ch>, wait: bool, sw: bool): seq<TableRow>
  {
    if run.Compiled? && Fits(run, defined) && First(defined, run.byteseq).Some? then
      BlockRows(|run.byteseq[First(defined, run.byteseq).value]|, run.repeats, wait, sw)
    else []
  }

  /** The rows of the first n grid points, one grid point after the other. */
  function GridRows(runs: seq<Run>, n: nat, defined: seq<Ch>, wait: bool, sw: bool): seq<TableRow>
    requires n <= |runs|
  {
    if n == 0 then [] else GridRows(runs, n - 1, defined, wait, sw) + RunRows(runs[n - 1], defined, wait, sw)
  }

  lemma {:induction false} PlaceAllRows(nn: nat, ch: Ch, ws: seq<Wave>, n: nat, first: bool, repeats: seq<int>,
                                        wait: bool, sw: bool, s: State)
    requires n <= |ws| && PlaceAll(nn, ch, ws, n, first, repeats, wait, sw, s).Some?
    ensures first ==> n <= |repeats|
    ensures PlaceAll(nn, ch, ws, n, first, repeats, wait, sw, s).value.t.rows ==
              s.t.rows + (if first then BlockRows(n, repeats, wait, sw) else [])
  {
    if n > 0 {
      PlaceAllRows(nn, ch, ws, n - 1, first, repeats, wait, sw, s);
      var s' := PlaceAll(nn, ch, ws, n - 1, first, repeats, wait, sw, s).value;
      assert PlaceAll(nn, ch, ws, n, first, repeats, wait, sw, s) == Place(nn, ch, ws[n - 1], n - 1, first, repeats, wait, sw, s');
      PlaceRows(nn, ch, ws[n - 1], n - 1, first, repeats, wait, sw, s');
      if first {
        var b := BlockRows(n - 1, repeats, wait, sw);
        var row := TableRow(repeats[n - 1], if wait && n - 1 == 0 then 1 else 0, 0, if sw then 1 else 0);
        assert BlockRows(n, repeats, wait, sw) == b + [row];
        RowsSnoc(PlaceAll(nn, ch, ws, n, first, repeats, wait, sw, s).value.t.rows, s'.t.rows, s.t.rows, b, row);
      }
    }
  }

  lemma RowsSnoc(y: seq<TableRow>, x: seq<TableRow>, a: seq<TableRow>, b: seq<TableRow>, row: TableRow)
    requires x == a + b && y == x + [row]
    ensures y == a + (b + [row])
  {
  }

  /** Storing one block leaves the table rows alone; on the first channel
      that has blocks, one row is added for it. */
  lemma PlaceRows(nn: nat, ch: Ch, w: Wave, pos: nat, first: bool, repeats: seq<int>,
                  wait: bool, sw: bool, s: State)
    ensures Place(nn, ch, w, pos, first, repeats, wait, sw, s).Some? <==> !first || pos < |repeats|
    ensures first && pos < |repeats| ==>
              Place(nn, ch, w, pos, first, repeats, wait, sw, s).value.t.rows ==
                s.t.rows + [TableRow(repeats[pos], if wait && pos == 0 then 1 else 0, 0, if sw then 1 else 0)]
    ensures !first ==> Place(nn, ch, w, pos, first, repeats, wait, sw, s).value.t.rows == s.t.rows
  {
  }

  lemma {:induction false} ChannelsRows(nn: nat, byteseq: map<Ch, seq<Wave>>, repeats: seq<int>,
                                        defined: seq<Ch>, n: nat, wait: bool, sw: bool, s: State)
    requires n <= |defined| && Channels(nn, byteseq, repeats, defined, n, wait, sw, s).Some?
    ensures var f := First(defined[..n], byteseq);
            f.Some? ==> |byteseq[f.value]| <= |repeats|
    ensures var f := First(defined[..n], byteseq);
            Channels(nn, byteseq, repeats, defined, n, wait, sw, s).value.t.rows ==
              s.t.rows + (if f.Some? then BlockRows(|byteseq[f.value]|, repeats, wait, sw) else [])
  {
    if n > 0 {
      ChannelsRows(nn, byteseq, repeats, defined, n - 1, wait, sw, s);
      var s' := Channels(nn, byteseq, repeats, defined, n - 1, wait, sw, s).value;
      var ch := defined[n - 1];
      FirstSnoc(defined, byteseq, n);
      if ch in byteseq {
        var first := NoneBefore(defined, byteseq, n - 1);
        assert Channels(nn, byteseq, repeats, defined, n, wait, sw, s)
            == PlaceAll(nn, ch, byteseq[ch], |byteseq[ch]|, first, repeats, wait, sw, s');
        PlaceAllRows(nn, ch, byteseq[ch], |byteseq[ch]|, first, repeats, wait, sw, s');
        if first {
          assert s'.t.rows == s.t.rows;
        }
      } else {
        assert Channels(nn, byteseq, repeats, defined, n, wait, sw, s) == Some(s');
      }
    }
  }

  /** One more defined channel: the first one with blocks stays, or, when
      there was none, becomes the new channel if it has blocks. */
  lemma FirstSnoc(defined: seq<Ch>, byteseq: map<Ch, seq<Wave>>, n: nat)
    requires 0 < n <= |defined|
    ensures First(defined[..n], byteseq) ==
              if First(defined[..n - 1], byteseq).Some? then First(defined[..n - 1], byteseq)
              else if defined[n - 1] in byteseq then Some(defined[n - 1])
              else None
    ensures NoneBefore(defined, byteseq, n - 1) <==> First(defined[..n - 1], byteseq).None?
  {
    assert defined[..n][..n - 1] == defined[..n - 1];
    assert forall j :: 0 <= j < n - 1 ==> defined[..n - 1][j] == defined[j];
  }

  lemma {:induction false} IterationsRows(runs: seq<Run>, n: nat, defined: seq<Ch>, wait: bool, sw: bool)
    requires n <= |runs| && Iterations(runs, n, defined, wait, sw).Some?
    ensures forall i :: 0 <= i < n ==> Fits(runs[i], defined)
    ensures Iterations(runs, n, defined, wait, sw).value.rows == GridRows(runs, n, defined, wait, sw)
  {
    if n > 0 {
      IterationsRows(runs, n - 1, defined, wait, sw);
      var t := Iterations(runs, n - 1, defined, wait, sw).value;
      var run := runs[n - 1];
      if run.Compiled? {
        ChannelsRows(n - 1, run.byteseq, run.repeats, defined, |defined|, wait, sw, State(t, map[]));
        assert defined[..|defined|] == defined;
      }
    }
  }

  /** What the end of `prepare_sequences` does to the table. */
  lemma FinishRows(t: Tables, last: Run, sw: bool)
    requires Finish(t, last, sw).Some?
    requires forall i :: 0 <= i < |t.rows| ==> t.rows[i].goto == 0
    ensures var rows := Finish(t, last, sw).value.rows;
            var g := t.rows;
            var off := if sw then 1 else 0;
            |rows| == off + |g| && |rows| > 0 &&
            (sw ==> rows[0] == TableRow(0, 0, if g == [] then 2 else 0, 2)) &&
            forall i :: 0 <= i < |g| ==>
              rows[off + i] == g[i].(goto := if off + i == |rows| - 1 then (if sw then 2 else 1) else 0)
  {
    var g := t.rows;
    var rows := Finish(t, last, sw).value.rows;
    if sw {
      var pre := [TableRow(0, 0, 0, 2)] + g;
      assert rows == pre[|pre| - 1 := pre[|pre| - 1].(goto := 2)];
      forall i | 0 <= i < |g|
        ensures rows[1 + i] == g[i].(goto := if 1 + i == |rows| - 1 then 2 else 0)
      {
        assert pre[1 + i] == g[i];
      }
    }
  }

  /** The sequence table `prepare_sequences` returns: the four lists have
      one entry per row, the rows are the standby row (with
      `start_with_event`) then the rows of every grid point in order, and
      only the last row goes anywhere: back to the standby row (2) with
      `start_with_event`, to the first row (1) otherwise. */
  lemma PrepareTable(runs: seq<Run>, defined: seq<Ch>, wait: bool, sw: bool)
    requires PrepareSpec(runs, defined, wait, sw).Some?
    ensures forall i :: 0 <= i < |runs| ==> Fits(runs[i], defined)
    ensures var rows := PrepareSpec(runs, defined, wait, sw).value.rows;
            var g := GridRows(runs, |runs|, defined, wait, sw);
            var off := if sw then 1 else 0;
            |rows| == off + |g| && |rows| > 0 &&
            (sw ==> rows[0] == TableRow(0, 0, if g == [] then 2 else 0, 2)) &&
            forall i :: 0 <= i < |g| ==>
              rows[off + i] == g[i].(goto := if off + i == |rows| - 1 then (if sw then 2 else 1) else 0)
  {
    IterationsRows(runs, |runs|, defined, wait, sw);
    GridRowsPlain(runs, |runs|, defined, wait, sw);
    var t := Iterations(runs, |runs|, defined, wait, sw).value;
    FinishRows(t, runs[|runs| - 1], sw);
  }

  /** Every row of a grid point has `goto_state` 0, `jump_to` 1 exactly with
      `start_with_event`, and waits for the trigger only at its first block
      and only with `wait_trigger`. */
  lemma {:induction false} GridRowsPlain(runs: seq<Run>, n: nat, defined: seq<Ch>, wait: bool, sw: bool)
    requires n <= |runs|
    ensures forall i :: 0 <= i < |GridRows(runs, n, defined, wait, sw)| ==>
              var r := GridRows(runs, n, defined, wait, sw)[i];
              r.goto == 0 && r.jump == (if sw then 1 else 0) && (r.trig == 0 || (r.trig == 1 && wait))
  {
    if n > 0 {
      GridRowsPlain(runs, n - 1, defined, wait, sw);
    }
  }

  // ---------------------------------------------------------------------------
  // What the lists of `wfname_l` refer to
  // ---------------------------------------------------------------------------

  /** The blocks of every channel, as words, in the order they were met. */
  type Expected = map<Ch, seq<seq<int>>>

  function Get(e: Expected, c: Ch): seq<seq<int>>
  {
    if c in e then e[c] else []
  }

  function WordsOf(ws: seq<Wave>): (r: seq<seq<int>>)
    ensures |r| == |ws| && forall i :: 0 <= i < |ws| ==> r[i] == ws[i].words
  {
    if ws == [] then [] else WordsOf(ws[..|ws| - 1]) + [ws[|ws| - 1].words]
  }

  /** The blocks of the first n defined channels of one grid point appended
      to what each channel had. */
  function RunWords(e: Expected, byteseq: map<Ch, seq<Wave>>, defined: seq<Ch>, n: nat): Expected
    requires n <= |defined|
  {
    if n == 0 then e
    else
      var e' := RunWords(e, byteseq, defined, n - 1);
      var c := defined[n - 1];
      if c in byteseq then e'[c := Get(e', c) + WordsOf(byteseq[c])] else e'
  }

  /** The blocks of the first n grid points, per channel. */
  function GridWords(runs: seq<Run>, n: nat, defined: seq<Ch>): Expected
    requires n <= |runs|
  {
    if n == 0 then map[]
    else
      var e := GridWords(runs, n - 1, defined);
      if runs[n - 1].Compiled? then RunWords(e, runs[n - 1].byteseq, defined, |defined|) else e
  }

  /** The blocks every channel's list should play: the standby block first
      for the channels of the last grid point with `start_with_event`, then
      the blocks of every grid point. */
  function FinalWords(runs: seq<Run>, defined: seq<Ch>, sw: bool): Expected
    requires runs != []
  {
    var e := GridWords(runs, |runs|, defined);
    var last := runs[|runs| - 1];
    if sw && last.Compiled? then StandbyExpected(e, last.byteseq) else e
  }

  /** Every list refers, entry by entry, to stored blocks with the expected
      words. */
  ghost predicate Refs(t: Tables, e: Expected)
  {
    forall c: Ch ::
      |ListOf(t, c)| == |Get(e, c)| &&
      forall k :: 0 <= k < |ListOf(t, c)| ==>
        ListOf(t, c)[k] in t.packed && t.packed[ListOf(t, c)[k]] == Get(e, c)[k]
  }

  /** `wfname_l`'s keys: each channel once, exactly the channels with a list. */
  predicate KeysOk(t: Tables)
  {
    (forall i, j :: 0 <= i < j < |t.keys| ==> t.keys[i] != t.keys[j]) &&
    t.lists.Keys == Elems(t.keys)
  }

  /** The arrays of one grid point: blocks with the same identity hold the
      same words (true of `compile_loop`'s results, see `LoopWavesConsistent`). */
  ghost predicate Consistent(byteseq: map<Ch, seq<Wave>>)
  {
    forall c, d, i, j ::
      (c in byteseq && d in byteseq && 0 <= i < |byteseq[c]| && 0 <= j < |byteseq[d]| &&
       byteseq[c][i].id == byteseq[d][j].id) ==> byteseq[c][i].words == byteseq[d][j].words
  }

  /** Everything stored before grid point nn is numbered with an earlier point. */
  ghost predicate Before(t: Tables, nn: nat)
  {
    forall k :: k in t.packed ==> k.Numbered? && k.iter < nn
  }

  /** During grid point nn: a key of this point is stored only once its
      array is in `already_added`, and `already_added` gives for each array
      the key of a block of that array, stored with its words. */
  ghost predicate During(s: State, nn: nat, byteseq: map<Ch, seq<Wave>>)
  {
    (forall k :: k in s.t.packed ==>
       k.Numbered? && k.iter <= nn &&
       (k.iter == nn ==> k.ch in byteseq && k.pos < |byteseq[k.ch]| && byteseq[k.ch][k.pos].id in s.added)) &&
    (forall id :: id in s.added ==>
       var k := s.added[id];
       k.Numbered? && k.iter == nn && k.ch in byteseq && k.pos < |byteseq[k.ch]| &&
       byteseq[k.ch][k.pos].id == id && k in s.t.packed && s.t.packed[k] == byteseq[k.ch][k.pos].words)
  }

  /** Storing a block keeps every list pointing at the expected words and
      adds the block's words to the end of its channel's list. */
  lemma StoreRefs(nn: nat, ch: Ch, pos: nat, byteseq: map<Ch, seq<Wave>>, s: State, e: Expected)
    requires Consistent(byteseq) && ch in byteseq && pos < |byteseq[ch]|
    requires Refs(s.t, e) && During(s, nn, byteseq)
    ensures Refs(StoreBlock(nn, ch, byteseq[ch][pos], pos, s).t, e[ch := Get(e, ch) + [byteseq[ch][pos].words]])
  {
    var w := byteseq[ch][pos];
    var s' := StoreBlock(nn, ch, w, pos, s);
    var e' := e[ch := Get(e, ch) + [w.words]];
    var key := if w.id in s.added then s.added[w.id] else Numbered(nn, ch, pos);
    StoreKey(nn, ch, pos, byteseq, s);
    assert ListOf(s'.t, ch) == ListOf(s.t, ch) + [key];
    forall c: Ch
      ensures |ListOf(s'.t, c)| == |Get(e', c)|
      ensures forall k :: 0 <= k < |ListOf(s'.t, c)| ==>
                ListOf(s'.t, c)[k] in s'.t.packed && s'.t.packed[ListOf(s'.t, c)[k]] == Get(e', c)[k]
    {
      if c != ch {
        assert ListOf(s'.t, c) == ListOf(s.t, c);
      }
    }
  }

  /** The key a block is stored under holds its words, and nothing stored
      before changes. */
  lemma StoreKey(nn: nat, ch: Ch, pos: nat, byteseq: map<Ch, seq<Wave>>, s: State)
    requires Consistent(byteseq) && ch in byteseq && pos < |byteseq[ch]| && During(s, nn, byteseq)
    ensures var w := byteseq[ch][pos];
            var s' := StoreBlock(nn, ch, w, pos, s);
            var key := if w.id in s.added then s.added[w.id] else Numbered(nn, ch, pos);
            key in s'.t.packed && s'.t.packed[key] == w.words &&
            forall k :: k in s.t.packed ==> k in s'.t.packed && s'.t.packed[k] == s.t.packed[k]
  {
    var w := byteseq[ch][pos];
    if w.id in s.added {
      var k := s.added[w.id];
      assert byteseq[k.ch][k.pos].id == w.id;
    } else {
      assert Numbered(nn, ch, pos) !in s.t.packed;
    }
  }

  /** Storing a block keeps `wfname_l`'s keys and the bookkeeping of the
      grid point sound. */
  lemma StoreDuring(nn: nat, ch: Ch, pos: nat, byteseq: map<Ch, seq<Wave>>, s: State)
    requires Consistent(byteseq) && ch in byteseq && pos < |byteseq[ch]| && During(s, nn, byteseq) && KeysOk(s.t)
    ensures KeysOk(StoreBlock(nn, ch, byteseq[ch][pos], pos, s).t)
    ensures During(StoreBlock(nn, ch, byteseq[ch][pos], pos, s), nn, byteseq)
  {
    StoreKey(nn, ch, pos, byteseq, s);
  }

  lemma PlaceRefs(nn: nat, ch: Ch, pos: nat, first: bool, repeats: seq<int>, wait: bool, sw: bool,
                  byteseq: map<Ch, seq<Wave>>, s: State, e: Expected)
    requires Consistent(byteseq) && ch in byteseq && pos < |byteseq[ch]|
    requires Refs(s.t, e) && KeysOk(s.t) && During(s, nn, byteseq)
    requires Place(nn, ch, byteseq[ch][pos], pos, first, repeats, wait, sw, s).Some?
    ensures var s' := Place(nn, ch, byteseq[ch][pos], pos, first, repeats, wait, sw, s).value;
            Refs(s'.t, e[ch := Get(e, ch) + [byteseq[ch][pos].words]]) && KeysOk(s'.t) && During(s', nn, byteseq)
  {
    StoreRefs(nn, ch, pos, byteseq, s, e);
    StoreDuring(nn, ch, pos, byteseq, s);
  }

  lemma RefsSame(t: Tables, e: Expected, e': Expected)
    requires Refs(t, e) && forall c: Ch :: Get(e, c) == Get(e', c)
    ensures Refs(t, e')
  {
  }

  /** The bookkeeping of a grid point in one piece. */
  ghost predicate Inv(s: State, e: Expected, nn: nat, byteseq: map<Ch, seq<Wave>>)
  {
    Refs(s.t, e) && KeysOk(s.t) && During(s, nn, byteseq)
  }

  lemma ExpectedStep(e: Expected, ch: Ch, ws: seq<Wave>, n: nat)
    requires 0 < n <= |ws|
    ensures var e1 := e[ch := Get(e, ch) + WordsOf(ws[..n - 1])];
            e1[ch := Get(e1, ch) + [ws[n - 1].words]] == e[ch := Get(e, ch) + WordsOf(ws[..n])]
  {
    var e1 := e[ch := Get(e, ch) + WordsOf(ws[..n - 1])];
    assert ws[..n][..n - 1] == ws[..n - 1];
    assert WordsOf(ws[..n]) == WordsOf(ws[..n - 1]) + [ws[n - 1].words];
    assert Get(e1, ch) + [ws[n - 1].words] == Get(e, ch) + WordsOf(ws[..n]);
  }

  lemma PlaceStep(nn: nat, ch: Ch, n: nat, first: bool, repeats: seq<int>, wait: bool, sw: bool,
                  byteseq: map<Ch, seq<Wave>>, e: Expected, s1: State)
    requires Consistent(byteseq) && ch in byteseq && 0 < n <= |byteseq[ch]|
    requires Inv(s1, e[ch := Get(e, ch) + WordsOf(byteseq[ch][..n - 1])], nn, byteseq)
    requires Place(nn, ch, byteseq[ch][n - 1], n - 1, first, repeats, wait, sw, s1).Some?
    ensures Inv(Place(nn, ch, byteseq[ch][n - 1], n - 1, first, repeats, wait, sw, s1).value,
                e[ch := Get(e, ch) + WordsOf(byteseq[ch][..n])], nn, byteseq)
  {
    var e1 := e[ch := Get(e, ch) + WordsOf(byteseq[ch][..n - 1])];
    PlaceRefs(nn, ch, n - 1, first, repeats, wait, sw, byteseq, s1, e1);
    ExpectedStep(e, ch, byteseq[ch], n);
  }

  lemma {:induction false} PlaceAllRefs(nn: nat, ch: Ch, n: nat, first: bool, repeats: seq<int>, wait: bool,
                                        sw: bool, byteseq: map<Ch, seq<Wave>>, s: State, e: Expected)
    requires Consistent(byteseq) && ch in byteseq && n <= |byteseq[ch]|
    requires Inv(s, e, nn, byteseq)
    requires PlaceAll(nn, ch, byteseq[ch], n, first, repeats, wait, sw, s).Some?
    ensures Inv(PlaceAll(nn, ch, byteseq[ch], n, first, repeats, wait, sw, s).value,
                e[ch := Get(e, ch) + WordsOf(byteseq[ch][..n])], nn, byteseq)
  {
    if n == 0 {
      assert byteseq[ch][..0] == [];
      assert WordsOf(byteseq[ch][..0]) == [];
      RefsSame(s.t, e, e[ch := Get(e, ch) + WordsOf(byteseq[ch][..0])]);
    } else {
      PlaceAllRefs(nn, ch, n - 1, first, repeats, wait, sw, byteseq, s, e);
      var s1 := PlaceAll(nn, ch, byteseq[ch], n - 1, first, repeats, wait, sw, s).value;
      PlaceStep(nn, ch, n, first, repeats, wait, sw, byteseq, e, s1);
    }
  }

  lemma {:induction false} ChannelsRefs(nn: nat, byteseq: map<Ch, seq<Wave>>, repeats: seq<int>,
                                        defined: seq<Ch>, n: nat, wait: bool, sw: bool, s: State, e: Expected)
    requires n <= |defined| && Consistent(byteseq)
    requires Inv(s, e, nn, byteseq)
    requires Channels(nn, byteseq, repeats, defined, n, wait, sw, s).Some?
    ensures Inv(Channels(nn, byteseq, repeats, defined, n, wait, sw, s).value, RunWords(e, byteseq, defined, n),
                nn, byteseq)
  {
    if n > 0 {
      ChannelsRefs(nn, byteseq, repeats, defined, n - 1, wait, sw, s, e);
      var s1 := Channels(nn, byteseq, repeats, defined, n - 1, wait, sw, s).value;
      var ch := defined[n - 1];
      if ch in byteseq {
        PlaceAllRefs(nn, ch, |byteseq[ch]|, NoneBefore(defined, byteseq, n - 1), repeats, wait, sw,
                     byteseq, s1, RunWords(e, byteseq, defined, n - 1));
        assert byteseq[ch][..|byteseq[ch]|] == byteseq[ch];
      }
    }
  }

  /** Every compiled grid point's arrays are consistent. */
  ghost predicate AllConsistent(runs: seq<Run>)
  {
    forall i :: 0 <= i < |runs| && runs[i].Compiled? ==> Consistent(runs[i].byteseq)
  }

  lemma {:induction false} IterationsRefs(runs: seq<Run>, n: nat, defined: seq<Ch>, wait: bool, sw: bool)
    requires n <= |runs| && AllConsistent(runs) && Iterations(runs, n, defined, wait, sw).Some?
    ensures var t := Iterations(runs, n, defined, wait, sw).value;
            Refs(t, GridWords(runs, n, defined)) && KeysOk(t) && Before(t, n)
  {
    if n == 0 {
      assert forall c: Ch :: Get(map[], c) == [] && ListOf(NoTables, c) == [];
    } else {
      IterationsRefs(runs, n - 1, defined, wait, sw);
      var t := Iterations(runs, n - 1, defined, wait, sw).value;
      var run := runs[n - 1];
      if run.Compiled? {
        ChannelsRefs(n - 1, run.byteseq, run.repeats, defined, |defined|, wait, sw, State(t, map[]),
                     GridWords(runs, n - 1, defined));
      }
    }
  }

  /** The expected words with the standby block put first likewise. */
  function StandbyExpected(e: Expected, byteseq: map<Ch, seq<Wave>>): Expected
  {
    map c | c in e.Keys + byteseq.Keys :: if c in byteseq then [StandbyWords] + Get(e, c) else e[c]
  }

  lemma StandbyRefs(t: Tables, byteseq: map<Ch, seq<Wave>>, e: Expected, nn: nat, rows: seq<TableRow>)
    requires Refs(t, e) && Before(t, nn) && byteseq.Keys <= t.lists.Keys
    ensures Refs(Tables(WithStandby(t.packed, byteseq.Keys), t.keys, StandbyLists(t.lists, byteseq.Keys), rows),
                 StandbyExpected(e, byteseq))
  {
    var t' := Tables(WithStandby(t.packed, byteseq.Keys), t.keys, StandbyLists(t.lists, byteseq.Keys), rows);
    var e' := StandbyExpected(e, byteseq);
    forall c: Ch
      ensures |ListOf(t', c)| == |Get(e', c)|
      ensures forall k :: 0 <= k < |ListOf(t', c)| ==>
                ListOf(t', c)[k] in t'.packed && t'.packed[ListOf(t', c)[k]] == Get(e', c)[k]
    {
      if c in byteseq {
        assert ListOf(t', c) == [Standby(c)] + ListOf(t, c);
        assert Get(e', c) == [StandbyWords] + Get(e, c);
        assert Standby(c) in StandbyKeys(byteseq.Keys);
      } else {
        assert ListOf(t', c) == ListOf(t, c);
        assert Get(e', c) == Get(e, c);
      }
    }
  }

  /** The end of `prepare_sequences` keeps every list pointing at the
      expected words, with the standby blocks first with `start_with_event`. */
  lemma FinishRefs(t: Tables, last: Run, sw: bool, e: Expected, nn: nat)
    requires Refs(t, e) && KeysOk(t) && Before(t, nn) && Finish(t, last, sw).Some?
    ensures Refs(Finish(t, last, sw).value, if sw then StandbyExpected(e, last.byteseq) else e)
    ensures KeysOk(Finish(t, last, sw).value)
  {
    var t' := Finish(t, last, sw).value;
    if sw {
      StandbyRefs(t, last.byteseq, e, nn, t'.rows);
      assert t'.lists == StandbyLists(t.lists, last.byteseq.Keys);
    } else {
      assert forall c: Ch :: ListOf(t', c) == ListOf(t, c);
    }
  }

  /** What `wfname_l` refers to: the list of every channel has one key per
      block met for that channel (the standby block first, with
      `start_with_event`, for the channels of the last grid point, then the
      blocks of every grid point in order), and each key is stored in
      `packed_waveforms` with that block's words, although a block whose
      array was already stored at the same grid point is not stored again. */
  lemma PrepareRefs(runs: seq<Run>, defined: seq<Ch>, wait: bool, sw: bool)
    requires AllConsistent(runs) && PrepareSpec(runs, defined, wait, sw).Some?
    ensures Refs(PrepareSpec(runs, defined, wait, sw).value, FinalWords(runs, defined, sw))
    ensures KeysOk(PrepareSpec(runs, defined, wait, sw).value)
  {
    IterationsRefs(runs, |runs|, defined, wait, sw);
    var t := Iterations(runs, |runs|, defined, wait, sw).value;
    FinishRefs(t, runs[|runs| - 1], sw, GridWords(runs, |runs|, defined), |runs|);
  }

  // ---------------------------------------------------------------------------
  // The blocks `compile_loop(for_file=True)` hands over
  // ---------------------------------------------------------------------------

  /** The blocks of a successful loop compilation, each with the identity of
      the analog array it was packed into (the array `id` is taken of). */
  function LoopWaves(pl: Plan, st: AwgLoop.Store, order: seq<Ch>): (r: map<Ch, seq<Wave>>)
    requires Sized(pl, st)
    ensures r.Keys == Elems(order)
    ensures forall c :: c in order ==> |r[c]| == |pl.slots|
  {
    map c | c in order :: seq(|pl.slots|, i requires 0 <= i < |pl.slots| =>
                                Wave(AnalogObj(pl.slots[i], c), BlockBlob(pl, st, pl.slots[i], c, true).words))
  }

  /** These are the blocks `compile_loop` returns, in the same order. */
  lemma LoopWavesPacked(pl: Plan, st: AwgLoop.Store, order: seq<Ch>)
    requires Sized(pl, st)
    ensures forall c, i :: c in order && 0 <= i < |pl.slots| ==>
              Packed(pl, st, order, true)[c][i] == Words(LoopWaves(pl, st, order)[c][i].words)
  {
  }

  /** Blocks sharing an analog array hold the same words, so the
      de-duplication by identity never merges two different blocks. */
  lemma LoopWavesConsistent(pl: Plan, st: AwgLoop.Store, order: seq<Ch>)
    requires Sized(pl, st)
    ensures Consistent(LoopWaves(pl, st, order))
  {
    var b: map<Ch, seq<Wave>> := LoopWaves(pl, st, order);
    forall c: Ch, d: Ch, i: int, j: int | c in b && d in b && 0 <= i < |b[c]| && 0 <= j < |b[d]| && b[c][i].id == b[d][j].id
      ensures b[c][i].words == b[d][j].words
    {
      SameAnalogSameBlob(pl, st, pl.slots[i], c, pl.slots[j], d, true);
    }
  }

  // ---------------------------------------------------------------------------
  // The loops
  // ---------------------------------------------------------------------------

  lemma {:induction false} PlaceAllNone(nn: nat, ch: Ch, ws: seq<Wave>, n: nat, m: nat, first: bool,
                                        repeats: seq<int>, wait: bool, sw: bool, s: State)
    requires n <= m <= |ws| && PlaceAll(nn, ch, ws, n, first, repeats, wait, sw, s).None?
    ensures PlaceAll(nn, ch, ws, m, first, repeats, wait, sw, s).None?
    decreases m
  {
    if m > n {
      PlaceAllNone(nn, ch, ws, n, m - 1, first, repeats, wait, sw, s);
    }
  }

  lemma {:induction false} ChannelsNone(nn: nat, byteseq: map<Ch, seq<Wave>>, repeats: seq<int>, defined: seq<Ch>,
                                        n: nat, m: nat, wait: bool, sw: bool, s: State)
    requires n <= m <= |defined| && Channels(nn, byteseq, repeats, defined, n, wait, sw, s).None?
    ensures Channels(nn, byteseq, repeats, defined, m, wait, sw, s).None?
    decreases m
  {
    if m > n {
      ChannelsNone(nn, byteseq, repeats, defined, n, m - 1, wait, sw, s);
    }
  }

  lemma {:induction false} IterationsNone(runs: seq<Run>, n: nat, m: nat, defined: seq<Ch>, wait: bool, sw: bool)
    requires n <= m <= |runs| && Iterations(runs, n, defined, wait, sw).None?
    ensures Iterations(runs, m, defined, wait, sw).None?
    decreases m
  {
    if m > n {
      IterationsNone(runs, n, m - 1, defined, wait, sw);
    }
  }

  /** The loop over the blocks of channel ch at grid point nn; `used_pos`
      only ever holds the positions already seen, so a row is added for
      every block of the first channel, waiting for the trigger at the
      first one. */
  method PlaceWaves(nn: nat, ch: Ch, ws: seq<Wave>, first: bool, repeats: seq<int>, wait: bool, sw: bool,
                    s0: State) returns (r: Option<State>)
    ensures r == PlaceAll(nn, ch, ws, |ws|, first, repeats, wait, sw, s0)
  {
    var packed: map<Key, seq<int>>, keys: seq<Ch>, lists: map<Ch, seq<Key>> := s0.t.packed, s0.t.keys, s0.t.lists;
    var rows: seq<TableRow>, added: map<Obj, Key> := s0.t.rows, s0.added;
    var usedPos: seq<nat> := [];
    for pos := 0 to |ws|
      invariant PlaceAll(nn, ch, ws, pos, first, repeats, wait, sw, s0) ==
                Some(State(Tables(packed, keys, lists, rows), added))
      invariant |usedPos| == (if first then pos else 0)
      invariant forall k :: 0 <= k < |usedPos| ==> usedPos[k] == k
    {
      ghost var s := State(Tables(packed, keys, lists, rows), added);
      var w := ws[pos];
      var name: Key;
      if w.id !in added {
        name := Numbered(nn, ch, pos);
        packed := packed[name := w.words];
        added := added[w.id := name];
      } else {
        name := added[w.id];
        assert added[w.id := name] == added;
      }
      if ch !in lists {
        keys := keys + [ch];
        assert [name] == ListOf(s.t, ch) + [name];
        lists := lists[ch := [name]];
      } else {
        lists := lists[ch := lists[ch] + [name]];
      }
      if pos !in usedPos && first {
        if pos >= |repeats| {
          PlaceAllNone(nn, ch, ws, pos + 1, |ws|, first, repeats, wait, sw, s0);
          return None;
        }
        rows := rows + [TableRow(repeats[pos], if wait && usedPos == [] then 1 else 0, 0, if sw then 1 else 0)];
        usedPos := usedPos + [pos];
      }
    }
    r := Some(State(Tables(packed, keys, lists, rows), added));
  }

  /** The loop over the driver's defined channels at grid point nn, for a
      compilation that succeeded; `is_first_ch` drops once a channel with
      blocks was met. */
  method PrepareIteration(nn: nat, byteseq: map<Ch, seq<Wave>>, repeats: seq<int>, defined: seq<Ch>,
                          wait: bool, sw: bool, t0: Tables) returns (r: Option<Tables>)
    ensures r == Iteration(nn, Compiled(byteseq, repeats), defined, wait, sw, t0)
  {
    var s := State(t0, map[]);
    var isFirst := true;
    for j := 0 to |defined|
      invariant Channels(nn, byteseq, repeats, defined, j, wait, sw, State(t0, map[])) == Some(s)
      invariant isFirst == NoneBefore(defined, byteseq, j)
    {
      var ch := defined[j];
      if ch in byteseq {
        var o := PlaceWaves(nn, ch, byteseq[ch], isFirst, repeats, wait, sw, s);
        if o.None? {
          ChannelsNone(nn, byteseq, repeats, defined, j + 1, |defined|, wait, sw, State(t0, map[]));
          return None;
        }
        s := o.value;
        isFirst := false;
      }
    }
    r := Some(s.t);
  }

  lemma WithStandbyStep(packed: map<Key, seq<int>>, cs: set<Ch>, c: Ch)
    ensures WithStandby(packed, cs + {c}) == WithStandby(packed, cs)[Standby(c) := StandbyWords]
  {
    assert StandbyKeys(cs + {c}) == StandbyKeys(cs) + {Standby(c)};
  }

  lemma StandbyListsStep(lists: map<Ch, seq<Key>>, cs: set<Ch>, c: Ch)
    requires c in lists && c !in cs
    ensures StandbyLists(lists, cs + {c}) == StandbyLists(lists, cs)[c := [Standby(c)] + StandbyLists(lists, cs)[c]]
  {
  }

  /** The standby blocks: for every channel of the last grid point, in
      whatever order, a standby block is stored and put at the head of the
      channel's list; a channel without a list raises a KeyError. */
  method AddStandby(t: Tables, byteseq: map<Ch, seq<Wave>>) returns (r: Option<Tables>)
    ensures byteseq.Keys <= t.lists.Keys ==>
              r == Some(t.(packed := WithStandby(t.packed, byteseq.Keys),
                           lists := StandbyLists(t.lists, byteseq.Keys)))
    ensures !(byteseq.Keys <= t.lists.Keys) ==> r.None?
  {
    var todo := byteseq.Keys;
    var packed: map<Key, seq<int>>, lists: map<Ch, seq<Key>> := t.packed, t.lists;
    assert byteseq.Keys - todo == {};
    assert WithStandby(t.packed, {}) == t.packed;
    while todo != {}
      invariant todo <= byteseq.Keys
      invariant byteseq.Keys - todo <= t.lists.Keys
      invariant lists.Keys == t.lists.Keys
      invariant lists == StandbyLists(t.lists, byteseq.Keys - todo)
      invariant packed == WithStandby(t.packed, byteseq.Keys - todo)
      decreases todo
    {
      var c :| c in todo;
      if c !in lists {
        return None;
      }
      assert byteseq.Keys - (todo - {c}) == (byteseq.Keys - todo) + {c};
      WithStandbyStep(t.packed, byteseq.Keys - todo, c);
      StandbyListsStep(t.lists, byteseq.Keys - todo, c);
      lists := lists[c := [Standby(c)] + lists[c]];
      packed := packed[Standby(c) := StandbyWords];
      todo := todo - {c};
    }
    assert byteseq.Keys - todo == byteseq.Keys;
    r := Some(t.(packed := packed, lists := lists));
  }

  /** `prepare_sequences` over the compiled grid points. */
  method PrepareSequences(runs: seq<Run>, defined: seq<Ch>, wait: bool, sw: bool) returns (r: Option<Tables>)
    ensures r == PrepareSpec(runs, defined, wait, sw)
  {
    if runs == [] {
      return None;
    }
    var t := NoTables;
    for nn := 0 to |runs|
      invariant Iterations(runs, nn, defined, wait, sw) == Some(t)
    {
      var o: Option<Tables>;
      match runs[nn] {
        case Compiled(byteseq, repeats) =>
          o := PrepareIteration(nn, byteseq, repeats, defined, wait, sw, t);
        case Failed =>
          o := if defined == [] then Some(t) else None;
        case Raised =>
          o := None;
      }
      if o.None? {
        IterationsNone(runs, nn + 1, |runs|, defined, wait, sw);
        return None;
      }
      t := o.value;
    }
    var last := runs[|runs| - 1];
    if !last.Compiled? {
      return None;
    }
    if sw {
      var rows := [TableRow(0, 0, 0, 2)] + t.rows;
      var o := AddStandby(t, last.byteseq);
      if o.None? {
        return None;
      }
      rows := rows[|rows| - 1 := rows[|rows| - 1].(goto := 2)];
      r := Some(o.value.(rows := rows));
    } else {
      if t.rows == [] {
        return None;
      }
      r := Some(t.(rows := t.rows[|t.rows| - 1 := t.rows[|t.rows| - 1].(goto := 1)]));
    }
  }

  // ---------------------------------------------------------------------------
  // The names handed to the file generation
  // ---------------------------------------------------------------------------

  lemma KeyNamesInjective()
    ensures forall k: Key, l: Key :: KeyName(k) == KeyName(l) ==> k == l
  {
    forall k: Key, l: Key | KeyName(k) == KeyName(l)
      ensures k == l
    {
      KeyNameInjective(k, l);
    }
  }

  /** `packed_waveforms` keyed by the names themselves: every stored block
      keeps its own words under its name, and every name is the name of a
      stored block. */
  function PackedByName(packed: map<Key, seq<int>>): (r: map<string, seq<int>>)
    ensures forall k :: k in packed ==> KeyName(k) in r && r[KeyName(k)] == packed[k]
    ensures forall n :: n in r ==> exists k :: k in packed && KeyName(k) == n
  {
    KeyNamesInjective();
    map k | k in packed :: KeyName(k) := packed[k]
  }
}
