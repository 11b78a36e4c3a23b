/** The Tektronix `.awg` container file written by the AWG file transfer task:
    a flat list of tagged records `(u32 name size, u32 data size, name + NUL,
    data)`, little-endian, grouped into a header, the channel settings, one
    group of five records per waveform and the sequencing table. */
module AwgFile {
  import opened Common
  import opened AwgContext
  import opened Binary64

  // ---------------------------------------------------------------------------
  // Text
  // ---------------------------------------------------------------------------

  predicate IsAscii(s: string)
  {
    forall i :: 0 <= i < |s| ==> s[i] as int < 128
  }

  /** `s.encode('ASCII')`; `None` is the UnicodeEncodeError. */
  function Ascii(s: string): (r: Option<seq<Byte>>)
    ensures r.Some? <==> IsAscii(s)
    ensures r.Some? ==> |r.value| == |s| && forall i :: 0 <= i < |s| ==> r.value[i] == s[i] as int
  {
    if s == [] then Some([])
    else if s[0] as int >= 128 then None
    else match Ascii(s[1..])
      case None => None
      case Some(t) => Some([s[0] as int] + t)
  }

  /** `b.decode('ASCII')` of bytes below 128. */
  function Text(b: seq<Byte>): (s: string)
    requires forall i :: 0 <= i < |b| ==> b[i] < 128
    ensures |s| == |b|
  {
    seq(|b|, i requires 0 <= i < |b| => b[i] as char)
  }

  /** Decoding the encoded text gives the text back. */
  lemma AsciiRoundTrip(s: string)
    requires IsAscii(s)
    ensures Text(Ascii(s).value) == s
  {
  }

  predicate AllDigits(s: string)
  {
    forall i :: 0 <= i < |s| ==> '0' <= s[i] <= '9'
  }

  /** `int(s)` of a string of decimal digits (0 for the empty string). */
  function DigitsValue(s: string): nat
    requires AllDigits(s)
  {
    if s == [] then 0 else DigitsValue(s[..|s| - 1]) * 10 + (s[|s| - 1] as int - '0' as int)
  }

  lemma DigitCharValue(d: int)
    requires 0 <= d < 10
    ensures DigitChar(d) as int - '0' as int == d
  {
    if d < 5 {
      if d == 0 {} else if d == 1 {} else if d == 2 {} else if d == 3 {} else {}
    } else {
      if d == 5 {} else if d == 6 {} else if d == 7 {} else if d == 8 {} else {}
    }
  }

  /** Reading back `str(n)` gives n. */
  lemma {:induction false} DigitsOfNat(n: nat)
    ensures AllDigits(NatToString(n)) && DigitsValue(NatToString(n)) == n
  {
    var s := NatToString(n);
    if n < 10 {
      DigitCharValue(n);
      assert s[..0] == [];
    } else {
      DigitsOfNat(n / 10);
      DigitCharValue(n % 10);
      assert s[..|s| - 1] == NatToString(n / 10);
    }
  }

  // ---------------------------------------------------------------------------
  // struct formats
  // ---------------------------------------------------------------------------

  /** A record value: an integer, a string, a sequence of integers, or a
      float given by its 8-byte IEEE 754 binary64 encoding, low byte first. */
  datatype Value = Int(i: int) | Str(s: string) | Ints(vs: seq<int>) | Real(le: seq<Byte>)

  /** How `_pack_record` reads its dtype: one format character, a string
      (`'<n>s'`, whose count is not used), or a repeated format `'<n><code>'`. */
  datatype Format = Scalar(code: char) | Chars | Repeat(count: nat, code: char) | Unsupported

  function Classify(dtype: string): (f: Format)
    ensures |dtype| == 1 ==> f == Scalar(dtype[0])
    ensures |dtype| > 1 && dtype[|dtype| - 1] == 's' ==> f == Chars
    ensures f.Repeat? ==> |dtype| > 1 && AllDigits(dtype[..|dtype| - 1]) && f.code == dtype[|dtype| - 1] != 's'
  {
    if |dtype| == 1 then Scalar(dtype[0])
    else if |dtype| == 0 then Unsupported
    else if dtype[|dtype| - 1] == 's' then Chars
    else if AllDigits(dtype[..|dtype| - 1]) then Repeat(DigitsValue(dtype[..|dtype| - 1]), dtype[|dtype| - 1])
    else Unsupported
  }

  /** A dtype ending in `s` after a count is a string. */
  lemma ClassifyChars(n: nat)
    ensures Classify(NatToString(n) + "s") == Chars
  {
    var d := NatToString(n) + "s";
    assert |d| > 1 && d[|d| - 1] == 's';
  }

  /** The dtypes the file builder writes with `'{}H'.format(n)` and
      `'{}s'.format(n)` are read as n unsigned shorts and as a string. */
  lemma ClassifyBuilt(n: nat)
    ensures Classify(NatToString(n) + "H") == Repeat(n, 'H')
    ensures Classify(NatToString(n) + "s") == Chars
  {
    ClassifyChars(n);
    var d := NatToString(n) + "H";
    assert d[..|d| - 1] == NatToString(n);
    DigitsOfNat(n);
  }

  /** Byte width and signedness of struct's standard-size integer codes. */
  function IntCode(code: char): Option<(nat, bool)>
  {
    match code
    case 'b' => Some((1, true))
    case 'B' => Some((1, false))
    case 'h' => Some((2, true))
    case 'H' => Some((2, false))
    case 'i' => Some((4, true))
    case 'I' => Some((4, false))
    case 'l' => Some((4, true))
    case 'L' => Some((4, false))
    case 'q' => Some((8, true))
    case 'Q' => Some((8, false))
    case _ => None
  }

  predicate InRange(w: nat, signed: bool, v: int)
  {
    if signed then -(Pow256(w) / 2) <= v < Pow256(w) / 2 else 0 <= v < Pow256(w)
  }

  /** `struct.pack('<' + code, v)` for an integer code; `None` is struct.error. */
  function PackInt(code: char, v: int): (r: Option<seq<Byte>>)
    ensures r.Some? <==> IntCode(code).Some? && InRange(IntCode(code).value.0, IntCode(code).value.1, v)
    ensures r.Some? ==> |r.value| == IntCode(code).value.0
  {
    match IntCode(code)
    case None => None
    case Some((w, signed)) =>
      if !InRange(w, signed, v) then None
      else if signed then Some(SignedLe(v, w))
      else Some(LeBytes(v, w))
  }

  /** `struct.unpack('<' + code, b)`: the partner of PackInt. */
  function UnpackInt(signed: bool, b: seq<Byte>): int
  {
    var x := LeValue(b);
    if signed && x >= Pow256(|b|) / 2 then x - Pow256(|b|) else x
  }

  /** Unpacking a packed integer gives it back. */
  lemma PackIntRoundTrip(code: char, v: int)
    requires PackInt(code, v).Some?
    ensures UnpackInt(IntCode(code).value.1, PackInt(code, v).value) == v
  {
    var (w, signed) := IntCode(code).value;
    if signed && v < 0 {
      LeRoundTrip(v + Pow256(w), w);
    } else {
      LeRoundTrip(v, w);
    }
  }

  /** Two buffers written one after the other; `None` if either write raised. */
  function Join(a: Option<seq<Byte>>, b: Option<seq<Byte>>): (r: Option<seq<Byte>>)
    ensures r.Some? <==> a.Some? && b.Some?
    ensures r.Some? ==> |r.value| == |a.value| + |b.value|
  {
    if a.Some? && b.Some? then Some(a.value + b.value) else None
  }

  /** `struct.pack('<<n><code>', *vs)` once the count matches. */
  function PackInts(code: char, vs: seq<int>): (r: Option<seq<Byte>>)
    ensures r.Some? <==> forall i :: 0 <= i < |vs| ==> PackInt(code, vs[i]).Some?
    ensures r.Some? && IntCode(code).Some? ==> |r.value| == |vs| * IntCode(code).value.0
  {
    if vs == [] then Some([]) else Join(PackInt(code, vs[0]), PackInts(code, vs[1..]))
  }

  /** The data bytes of a record (`_pack_record`'s `record_data`). `None` is
      the exception struct or the ASCII codec raises. */
  function PackData(value: Value, dtype: string): (r: Option<seq<Byte>>)
  {
    match Classify(dtype)
    case Scalar(c) =>
      (match value
       case Int(v) => if c == 'd' then IntToDouble(v) else PackInt(c, v)
       case Real(le) => if c == 'd' && |le| == 8 then Some(le) else None
       case _ => None)
    case Chars =>
      (match value
       case Str(s) => Ascii(s)
       case _ => None)
    case Repeat(n, c) =>
      (match value
       case Ints(vs) => if |vs| == n then PackInts(c, vs) else None
       case _ => None)
    case Unsupported => None
  }

  /** The widths of the formats the builder uses: `'h'` is two bytes, `'l'`
      four, `'<n>H'` 2n, and a string is its ASCII bytes, count ignored. */
  lemma PackDataWidths(v: int, vs: seq<int>, s: string, n: nat)
    ensures PackData(Int(v), "h").Some? <==> -0x8000 <= v < 0x8000
    ensures PackData(Int(v), "h").Some? ==> |PackData(Int(v), "h").value| == 2
    ensures PackData(Int(v), "l").Some? <==> -0x8000_0000 <= v < 0x8000_0000
    ensures PackData(Int(v), "l").Some? ==> |PackData(Int(v), "l").value| == 4
    ensures PackData(Ints(vs), NatToString(n) + "H").Some? <==>
              |vs| == n && forall i :: 0 <= i < |vs| ==> 0 <= vs[i] < 0x1_0000
    ensures PackData(Ints(vs), NatToString(n) + "H").Some? ==>
              |PackData(Ints(vs), NatToString(n) + "H").value| == 2 * n
    ensures PackData(Str(s), NatToString(n) + "s") == Ascii(s)
    ensures PackData(Int(v), "d") == IntToDouble(v)
    ensures -Two53 < v < Two53 ==> PackData(Int(v), "d").Some? && |PackData(Int(v), "d").value| == 8
  {
    if v != 0 && -Two53 < v < Two53 {
      IntToDoubleExact(v);
    }
    ClassifyBuilt(n);
    assert Pow256(2) == 0x1_0000 && Pow256(4) == 0x1_0000_0000 by {
      assert Pow256(1) == 256;
    }
  }

  // ---------------------------------------------------------------------------
  // Records
  // ---------------------------------------------------------------------------

  const Limit32: int := 0x1_0000_0000

  /** `_pack_record(name, value, dtype)`: the two sizes as `'<II'` (the name
      size counts its NUL), the ASCII name, a NUL, then the data. */
  function PackRecord(name: string, value: Value, dtype: string): (r: Option<seq<Byte>>)
    ensures r.Some? <==> Ascii(name).Some? && PackData(value, dtype).Some? &&
                         |name| + 1 < Limit32 && |PackData(value, dtype).value| < Limit32
    ensures r.Some? ==> |r.value| == 8 + |name| + 1 + |PackData(value, dtype).value|
  {
    match (Ascii(name), PackData(value, dtype))
    case (Some(n), Some(d)) =>
      if |n| + 1 < Limit32 && |d| < Limit32 then Some(U32Le(|n| + 1) + U32Le(|d|) + n + [0] + d)
      else None
    case _ => None
  }

  /** A record as the file holds it: name bytes without the NUL, and data. */
  datatype Record = Record(name: seq<Byte>, data: seq<Byte>)

  /** Reads one record off the front of a byte string: the partner of
      PackRecord. */
  function ReadRecord(b: seq<Byte>): (r: Option<(Record, seq<Byte>)>)
    ensures r.Some? ==> |r.value.1| < |b|
  {
    if |b| < 8 then None
    else
      var ns := LeValue(b[..4]);
      var ds := LeValue(b[4..8]);
      if ns == 0 || |b| < 8 + ns + ds || b[8 + ns - 1] != 0 then None
      else Some((Record(b[8..8 + ns - 1], b[8 + ns..8 + ns + ds]), b[8 + ns + ds..]))
  }

  /** Reading back a packed record gives its name, its data and whatever
      followed it. */
  lemma ReadPackedRecord(name: string, value: Value, dtype: string, rest: seq<Byte>)
    requires PackRecord(name, value, dtype).Some?
    ensures ReadRecord(PackRecord(name, value, dtype).value + rest) ==
              Some((Record(Ascii(name).value, PackData(value, dtype).value), rest))
  {
    var n, d := Ascii(name).value, PackData(value, dtype).value;
    var b := PackRecord(name, value, dtype).value + rest;
    assert Pow256(4) == Limit32 by {
      assert Pow256(1) == 256;
    }
    assert b[..4] == U32Le(|n| + 1);
    assert b[4..8] == U32Le(|d|);
    LeRoundTrip(|n| + 1, 4);
    LeRoundTrip(|d|, 4);
    var ns := |n| + 1;
    assert b[8 + ns - 1] == 0;
    assert b[8..8 + ns - 1] == n;
    assert b[8 + ns..8 + ns + |d|] == d;
    assert b[8 + ns + |d|..] == rest;
  }

  /** Splits a whole file into its records. */
  function ReadAll(b: seq<Byte>): Option<seq<Record>>
    decreases |b|
  {
    if b == [] then Some([])
    else match ReadRecord(b)
      case None => None
      case Some((rec, rest)) =>
        match ReadAll(rest)
        case None => None
        case Some(rs) => Some([rec] + rs)
  }

  /** One record to write: `_pack_record`'s three arguments. */
  datatype Entry = Entry(name: string, value: Value, dtype: string)

  /** Writing entries one after the other into a buffer. */
  function PackAll(es: seq<Entry>): (r: Option<seq<Byte>>)
  {
    if es == [] then Some([])
    else Join(PackRecord(es[0].name, es[0].value, es[0].dtype), PackAll(es[1..]))
  }

  lemma JoinAssoc(x: Option<seq<Byte>>, y: Option<seq<Byte>>, z: Option<seq<Byte>>)
    ensures Join(x, Join(y, z)) == Join(Join(x, y), z)
  {
    if x.Some? && y.Some? && z.Some? {
      assert x.value + (y.value + z.value) == (x.value + y.value) + z.value;
    }
  }

  /** Writing two lists of entries is writing their concatenation. */
  lemma {:induction false} PackAllAppend(a: seq<Entry>, b: seq<Entry>)
    ensures PackAll(a + b) == Join(PackAll(a), PackAll(b))
  {
    if a == [] {
      assert a + b == b;
      if PackAll(b).Some? {
        assert [] + PackAll(b).value == PackAll(b).value;
      }
    } else {
      assert (a + b)[0] == a[0] && (a + b)[1..] == a[1..] + b;
      PackAllAppend(a[1..], b);
      var x := PackRecord(a[0].name, a[0].value, a[0].dtype);
      JoinAssoc(x, PackAll(a[1..]), PackAll(b));
    }
  }

  /** What reading the file gives back for each entry. */
  function Written(e: Entry): Record
    requires PackRecord(e.name, e.value, e.dtype).Some?
  {
    Record(Ascii(e.name).value, PackData(e.value, e.dtype).value)
  }

  /** Every entry of the list packs on its own. */
  predicate Packs(es: seq<Entry>)
  {
    forall i :: 0 <= i < |es| ==> PackRecord(es[i].name, es[i].value, es[i].dtype).Some?
  }

  function WrittenAll(es: seq<Entry>): (rs: seq<Record>)
    requires Packs(es)
    ensures |rs| == |es|
    ensures forall i :: 0 <= i < |es| ==> rs[i] == Written(es[i])
  {
    seq(|es|, i requires 0 <= i < |es| => Written(es[i]))
  }

  /** Every entry of a buffer that was written packed on its own. */
  lemma {:induction false} PackAllEach(es: seq<Entry>)
    requires PackAll(es).Some?
    ensures Packs(es)
  {
    if es != [] {
      PackAllEach(es[1..]);
      assert forall i :: 1 <= i < |es| ==> es[i] == es[1..][i - 1];
    }
  }

  /** A buffer of packed entries reads back as exactly those records, in
      order. */
  lemma {:induction false} PackAllReads(es: seq<Entry>)
    requires PackAll(es).Some?
    ensures Packs(es)
    ensures ReadAll(PackAll(es).value) == Some(WrittenAll(es))
  {
    PackAllEach(es);
    if es != [] {
      var e := es[0];
      PackAllReads(es[1..]);
      var rest := PackAll(es[1..]).value;
      ReadPackedRecord(e.name, e.value, e.dtype, rest);
      var p := PackRecord(e.name, e.value, e.dtype).value;
      var b := PackAll(es).value;
      assert b == p + rest;
      assert ReadRecord(b) == Some((Written(e), rest));
      assert ReadAll(b) == Some([Written(e)] + WrittenAll(es[1..]));
      assert WrittenAll(es) == [Written(e)] + WrittenAll(es[1..]);
    }
  }

  /** A missing write or section makes the whole buffer fail. */
  lemma PackAllPrefixNone(p: seq<Entry>, w: seq<Entry>)
    requires IsPrefix(p, w) && PackAll(p).None?
    ensures PackAll(w).None?
  {
    assert w == p + w[|p|..];
    PackAllAppend(p, w[|p|..]);
  }

  // ---------------------------------------------------------------------------
  // Python string order and the sorted waveform names
  // ---------------------------------------------------------------------------

  /** Python's `<` on strings: by code point, a proper prefix first. */
  predicate StrLt(a: string, b: string)
  {
    if a == [] then b != []
    else if b == [] then false
    else a[0] < b[0] || (a[0] == b[0] && StrLt(a[1..], b[1..]))
  }

  lemma {:induction false} StrLtIrreflexive(a: string)
    ensures !StrLt(a, a)
  {
    if a != [] {
      StrLtIrreflexive(a[1..]);
    }
  }

  lemma {:induction false} StrLtTransitive(a: string, b: string, c: string)
    requires StrLt(a, b) && StrLt(b, c)
    ensures StrLt(a, c)
  {
    if a != [] && a[0] == b[0] && b[0] == c[0] {
      StrLtTransitive(a[1..], b[1..], c[1..]);
    }
  }

  lemma {:induction false} StrLtTotal(a: string, b: string)
    ensures a == b || StrLt(a, b) || StrLt(b, a)
  {
    if a != [] && b != [] && a[0] == b[0] {
      StrLtTotal(a[1..], b[1..]);
      if a[1..] == b[1..] {
        assert a == [a[0]] + a[1..] && b == [b[0]] + b[1..];
      }
    }
  }

  lemma StrLtAsymmetric(a: string, b: string)
    requires StrLt(a, b)
    ensures !StrLt(b, a)
  {
    if StrLt(b, a) {
      StrLtTransitive(a, b, a);
      StrLtIrreflexive(a);
    }
  }

  predicate StrictlySorted(s: seq<string>)
  {
    forall i, j :: 0 <= i < j < |s| ==> StrLt(s[i], s[j])
  }

  function Names(s: seq<string>): set<string>
  {
    set x | x in s
  }

  /** Every non-empty set of names has a least one. */
  lemma {:induction false} LeastName(ks: set<string>)
    requires ks != {}
    ensures exists m :: m in ks && forall x :: x in ks && x != m ==> StrLt(m, x)
    decreases |ks|
  {
    var y :| y in ks;
    var others := ks - {y};
    if others == {} {
      assert forall x :: x in ks && x != y ==> x in others;
    } else {
      LeastName(others);
      var m :| m in others && forall x :: x in others && x != m ==> StrLt(m, x);
      StrLtTotal(m, y);
      if StrLt(y, m) {
        forall x | x in ks && x != y
          ensures StrLt(y, x)
        {
          assert x in others;
          if x != m {
            StrLtTransitive(y, m, x);
          }
        }
      } else {
        forall x | x in ks && x != m
          ensures StrLt(m, x)
        {
          if x != y {
            assert x in others;
          }
        }
      }
    }
  }

  lemma LeastFirst(m: string, rest: seq<string>, ks: set<string>)
    requires m in ks && forall x :: x in ks && x != m ==> StrLt(m, x)
    requires StrictlySorted(rest) && Names(rest) == ks - {m}
    ensures StrictlySorted([m] + rest) && Names([m] + rest) == ks
  {
    var q := [m] + rest;
    forall i, j | 0 <= i < j < |q|
      ensures StrLt(q[i], q[j])
    {
      if i == 0 {
        assert q[j] == rest[j - 1] && rest[j - 1] in Names(rest);
      } else {
        assert q[i] == rest[i - 1] && q[j] == rest[j - 1];
      }
    }
    assert Names(q) == {m} + Names(rest);
  }

  /** `sorted(keys)`: the names of a set in increasing order. */
  ghost function SortedKeys(ks: set<string>): (r: seq<string>)
    ensures StrictlySorted(r) && Names(r) == ks
    decreases |ks|
  {
    if ks == {} then []
    else
      LeastName(ks);
      var m :| m in ks && forall x :: x in ks && x != m ==> StrLt(m, x);
      var rest := SortedKeys(ks - {m});
      LeastFirst(m, rest, ks);
      [m] + rest
  }

  lemma NamesEmpty(s: seq<string>)
    ensures Names(s) == {} <==> s == []
  {
    if s != [] {
      assert s[0] in Names(s);
    }
  }

  /** Two sorted lists of the same names are the same list. */
  lemma {:induction false} SortedUnique(a: seq<string>, b: seq<string>)
    requires StrictlySorted(a) && StrictlySorted(b) && Names(a) == Names(b)
    ensures a == b
  {
    NamesEmpty(a);
    NamesEmpty(b);
    if a != [] && b != [] {
      assert b[0] in Names(a) && a[0] in Names(b);
      if a[0] != b[0] {
        var i :| 0 <= i < |a| && a[i] == b[0];
        var j :| 0 <= j < |b| && b[j] == a[0];
        assert StrLt(a[0], b[0]) by { assert i > 0; }
        assert StrLt(b[0], a[0]) by { assert j > 0; }
        StrLtAsymmetric(a[0], b[0]);
      }
      forall x | x in a[1..] ensures x != a[0] {
        StrLtIrreflexive(a[0]);
      }
      forall x | x in b[1..] ensures x != b[0] {
        StrLtIrreflexive(b[0]);
      }
      assert Names(a[1..]) == Names(a) - {a[0]};
      assert Names(b[1..]) == Names(b) - {b[0]};
      SortedUnique(a[1..], b[1..]);
      assert a == [a[0]] + a[1..] && b == [b[0]] + b[1..];
    }
  }

  /** One step of sorting: a new name placed in a sorted list. */
  function Insert(x: string, r: seq<string>): (q: seq<string>)
    requires StrictlySorted(r) && x !in r
    ensures StrictlySorted(q) && Names(q) == Names(r) + {x} && |q| == |r| + 1
  {
    if r == [] then [x]
    else if StrLt(x, r[0]) then
      assert forall j :: 0 < j < |r| ==> StrLt(x, r[j]) by {
        forall j | 0 < j < |r| ensures StrLt(x, r[j]) {
          StrLtTransitive(x, r[0], r[j]);
        }
      }
      [x] + r
    else
      StrLtTotal(x, r[0]);
      var q := Insert(x, r[1..]);
      assert forall j :: 0 <= j < |q| ==> q[j] in Names(r[1..]) + {x};
      [r[0]] + q
  }

  // ---------------------------------------------------------------------------
  // The four sections
  // ---------------------------------------------------------------------------

  /** 1e9 and 1.4 as IEEE 754 binary64, low byte first. */
  const SamplingRate: seq<Byte> := [0x00, 0x00, 0x00, 0x00, 0x65, 0xCD, 0xCD, 0x41]
  const Threshold: seq<Byte> := [0x66, 0x66, 0x66, 0x66, 0x66, 0x66, 0xF6, 0x3F]

  /** The `sequence_cfg` settings in their insertion order. The trigger rate,
      `trigger_period * 1e-6`, is given by its binary64 encoding. */
  function SequenceConfig(internalTrigger: bool, triggerRate: seq<Byte>): (r: seq<(string, Value)>)
    ensures |r| == 17
  {
    [("SAMPLING_RATE", Real(SamplingRate)),
     ("CLOCK_SOURCE", Int(1)),
     ("REFERENCE_SOURCE", Int(2)),
     ("EXTERNAL_REFERENCE_TYPE", Int(1)),
     ("REFERENCE_CLOCK_FREQUENCY_SELECTION", Int(1)),
     ("TRIGGER_SOURCE", Int(if internalTrigger then 2 else 1)),
     ("INTERNAL_TRIGGER_RATE", Real(triggerRate)),
     ("TRIGGER_INPUT_IMPEDANCE", Int(1)),
     ("TRIGGER_INPUT_SLOPE", Int(1)),
     ("TRIGGER_INPUT_POLARITY", Int(1)),
     ("TRIGGER_INPUT_THRESHOLD", Real(Threshold)),
     ("EVENT_INPUT_IMPEDANCE", Int(1)),
     ("EVENT_INPUT_POLARITY", Int(1)),
     ("EVENT_INPUT_THRESHOLD", Real(Threshold)),
     ("JUMP_TIMING", Int(1)),
     ("RUN_MODE", Int(4)),
     ("RUN_STATE", Int(1))]
  }

  const Magic: Entry := Entry("MAGIC", Int(5000), "h")
  const Version: Entry := Entry("VERSION", Int(1), "h")

  /** The header: MAGIC and VERSION, then every setting with the format the
      driver's head table gives it; `None` is the KeyError of a setting the
      table lacks. */
  function HeadEntries(fmt: map<string, string>, cfg: seq<(string, Value)>): Option<seq<Entry>>
  {
    if cfg == [] then Some([Magic, Version])
    else
      var (k, v) := cfg[|cfg| - 1];
      match HeadEntries(fmt, cfg[..|cfg| - 1])
      case None => None
      case Some(es) => if k in fmt then Some(es + [Entry(k, v, fmt[k])]) else None
  }

  /** The key of the channel format table a channel setting is looked up by. */
  function ChannelFormatKey(k: string): string
  {
    DropLast(k, 1) + "N"
  }

  /** The channel section: a setting is written only when the channel table
      knows its key; the others are dropped. */
  function ChannelEntries(fmt: map<string, string>, cfg: seq<(string, Value)>): seq<Entry>
  {
    if cfg == [] then []
    else
      var (k, v) := cfg[|cfg| - 1];
      ChannelEntries(fmt, cfg[..|cfg| - 1]) +
        (if ChannelFormatKey(k) in fmt then [Entry(k, v, fmt[ChannelFormatKey(k)])] else [])
  }

  /** The five records of waveform number ii. */
  function WaveformGroup(ii: nat, wf: string, data: seq<int>, stamp: seq<int>): (g: seq<Entry>)
    ensures |g| == 5
  {
    var n := NatToString(ii);
    [Entry("WAVEFORM_NAME_" + n, Str(wf + "\0"), NatToString(|wf| + 1) + "s"),
     Entry("WAVEFORM_TYPE_" + n, Int(1), "h"),
     Entry("WAVEFORM_LENGTH_" + n, Int(|data|), "l"),
     Entry("WAVEFORM_TIMESTAMP_" + n, Ints(stamp), "8H"),
     Entry("WAVEFORM_DATA_" + n, Ints(data), NatToString(|data|) + "H")]
  }

  const FirstWaveform: nat := 21

  /** The waveform section: one group per name, numbered from 21. */
  function WaveformEntries(names: seq<string>, packed: map<string, seq<int>>, stamp: seq<int>): (r: seq<Entry>)
    requires forall i :: 0 <= i < |names| ==> names[i] in packed
    ensures |r| == 5 * |names|
  {
    if names == [] then []
    else
      var i := |names| - 1;
      WaveformEntries(names[..i], packed, stamp) + WaveformGroup(FirstWaveform + i, names[i], packed[names[i]], stamp)
  }

  /** WAIT, LOOP, JUMP and GOTO of row i (numbered i + 1 in the file). */
  function RowHead(i: nat, trig: seq<int>, nrep: seq<int>, jump: seq<int>, goto: seq<int>): seq<Entry>
    requires i < |trig| && i < |nrep| && i < |jump| && i < |goto|
  {
    var n := NatToString(i + 1);
    [Entry("SEQUENCE_WAIT_" + n, Int(trig[i]), "h"),
     Entry("SEQUENCE_LOOP_" + n, Int(nrep[i]), "l"),
     Entry("SEQUENCE_JUMP_" + n, Int(jump[i]), "h"),
     Entry("SEQUENCE_GOTO_" + n, Int(goto[i]), "h")]
  }

  /** The waveform reference of channel ch in row i. */
  function RowName(i: nat, ch: Ch, wf: string): Entry
  {
    Entry("SEQUENCE_WAVEFORM_NAME_CH_" + NatToString(ch) + "_" + NatToString(i + 1),
          Str(wf + "\0"), NatToString(|wf| + 1) + "s")
  }

  /** The references of row i for every channel of `wfname_l`, in its key
      order; `None` is the IndexError of a channel list shorter than the
      table. */
  function RowNames(i: nat, wfnames: seq<(Ch, seq<string>)>): (r: Option<seq<Entry>>)
    ensures r.Some? <==> forall j :: 0 <= j < |wfnames| ==> i < |wfnames[j].1|
    ensures r.Some? ==> |r.value| == |wfnames|
  {
    if wfnames == [] then Some([])
    else
      var (ch, l) := wfnames[|wfnames| - 1];
      match RowNames(i, wfnames[..|wfnames| - 1])
      case None => None
      case Some(es) => if i < |l| then Some(es + [RowName(i, ch, l[i])]) else None
  }

  /** The first n rows of the sequence section; `None` is an IndexError. */
  function SequenceEntries(n: nat, trig: seq<int>, nrep: seq<int>, jump: seq<int>, goto: seq<int>,
                           wfnames: seq<(Ch, seq<string>)>): Option<seq<Entry>>
    requires n <= |trig|
  {
    if n == 0 then Some([])
    else
      var i := n - 1;
      match SequenceEntries(i, trig, nrep, jump, goto, wfnames)
      case None => None
      case Some(es) =>
        if i < |nrep| && i < |jump| && i < |goto| && RowNames(i, wfnames).Some? then
          Some(es + RowHead(i, trig, nrep, jump, goto) + RowNames(i, wfnames).value)
        else None
  }

  function Section(es: Option<seq<Entry>>): Option<seq<Byte>>
  {
    if es.Some? then PackAll(es.value) else None
  }

  /** The bytes `generate_awg_file` returns: header, channel, waveform and
      sequence sections in that order; `None` when it raises. */
  ghost function AwgFileSpec(packed: map<string, seq<int>>, wfnames: seq<(Ch, seq<string>)>,
                             nrep: seq<int>, trig: seq<int>, goto: seq<int>, jump: seq<int>,
                             chCfg: seq<(string, Value)>, headFmt: map<string, string>,
                             chFmt: map<string, string>, internalTrigger: bool,
                             triggerRate: seq<Byte>, stamp: seq<int>): Option<seq<Byte>>
  {
    Join(Join(Join(Section(HeadEntries(headFmt, SequenceConfig(internalTrigger, triggerRate))),
                   PackAll(ChannelEntries(chFmt, chCfg))),
              PackAll(WaveformEntries(SortedKeys(packed.Keys), packed, stamp))),
         Section(SequenceEntries(|trig|, trig, nrep, jump, goto, wfnames)))
  }

  // ---------------------------------------------------------------------------
  // Prefixes of the sections
  // ---------------------------------------------------------------------------

  lemma PackOne(e: Entry)
    ensures PackAll([e]) == PackRecord(e.name, e.value, e.dtype)
  {
    var r := PackRecord(e.name, e.value, e.dtype);
    if r.Some? {
      assert r.value + [] == r.value;
    }
  }

  lemma PrefixTransitive<T>(p: seq<T>, q: seq<T>, w: seq<T>)
    requires IsPrefix(p, q) && IsPrefix(q, w)
    ensures IsPrefix(p, w)
  {
    assert w[..|p|] == w[..|q|][..|p|];
  }

  lemma {:induction false} HeadPrefix(fmt: map<string, string>, cfg: seq<(string, Value)>, j: nat)
    requires j <= |cfg|
    ensures HeadEntries(fmt, cfg[..j]).None? ==> HeadEntries(fmt, cfg).None?
    ensures HeadEntries(fmt, cfg).Some? ==>
              IsPrefix(HeadEntries(fmt, cfg[..j]).value, HeadEntries(fmt, cfg).value)
    decreases |cfg|
  {
    if j == |cfg| {
      assert cfg[..j] == cfg;
    } else {
      var c := cfg[..|cfg| - 1];
      assert c[..j] == cfg[..j];
      HeadPrefix(fmt, c, j);
      if HeadEntries(fmt, cfg).Some? {
        var es := HeadEntries(fmt, c).value;
        assert IsPrefix(es, HeadEntries(fmt, cfg).value);
        PrefixTransitive(HeadEntries(fmt, cfg[..j]).value, es, HeadEntries(fmt, cfg).value);
      }
    }
  }

  lemma {:induction false} ChannelPrefix(fmt: map<string, string>, cfg: seq<(string, Value)>, j: nat)
    requires j <= |cfg|
    ensures IsPrefix(ChannelEntries(fmt, cfg[..j]), ChannelEntries(fmt, cfg))
    decreases |cfg|
  {
    if j == |cfg| {
      assert cfg[..j] == cfg;
    } else {
      var c := cfg[..|cfg| - 1];
      assert c[..j] == cfg[..j];
      ChannelPrefix(fmt, c, j);
      PrefixTransitive(ChannelEntries(fmt, cfg[..j]), ChannelEntries(fmt, c), ChannelEntries(fmt, cfg));
    }
  }

  lemma {:induction false} WaveformPrefix(names: seq<string>, packed: map<string, seq<int>>, stamp: seq<int>, j: nat)
    requires j <= |names| && forall i :: 0 <= i < |names| ==> names[i] in packed
    ensures IsPrefix(WaveformEntries(names[..j], packed, stamp), WaveformEntries(names, packed, stamp))
    decreases |names|
  {
    if j == |names| {
      assert names[..j] == names;
    } else {
      var c := names[..|names| - 1];
      assert c[..j] == names[..j];
      WaveformPrefix(c, packed, stamp, j);
      PrefixTransitive(WaveformEntries(names[..j], packed, stamp), WaveformEntries(c, packed, stamp),
                       WaveformEntries(names, packed, stamp));
    }
  }

  lemma {:induction false} RowNamesPrefix(i: nat, wfnames: seq<(Ch, seq<string>)>, j: nat)
    requires j <= |wfnames|
    ensures RowNames(i, wfnames[..j]).None? ==> RowNames(i, wfnames).None?
    ensures RowNames(i, wfnames).Some? ==>
              IsPrefix(RowNames(i, wfnames[..j]).value, RowNames(i, wfnames).value)
    decreases |wfnames|
  {
    if j == |wfnames| {
      assert wfnames[..j] == wfnames;
    } else {
      var c := wfnames[..|wfnames| - 1];
      assert c[..j] == wfnames[..j];
      RowNamesPrefix(i, c, j);
      if RowNames(i, wfnames).Some? {
        PrefixTransitive(RowNames(i, wfnames[..j]).value, RowNames(i, c).value, RowNames(i, wfnames).value);
      }
    }
  }

  lemma {:induction false} SequencePrefix(m: nat, n: nat, trig: seq<int>, nrep: seq<int>, jump: seq<int>,
                                          goto: seq<int>, wfnames: seq<(Ch, seq<string>)>)
    requires m <= n <= |trig|
    ensures SequenceEntries(m, trig, nrep, jump, goto, wfnames).None? ==>
              SequenceEntries(n, trig, nrep, jump, goto, wfnames).None?
    ensures SequenceEntries(n, trig, nrep, jump, goto, wfnames).Some? ==>
              IsPrefix(SequenceEntries(m, trig, nrep, jump, goto, wfnames).value,
                       SequenceEntries(n, trig, nrep, jump, goto, wfnames).value)
    decreases n
  {
    if m < n {
      SequencePrefix(m, n - 1, trig, nrep, jump, goto, wfnames);
      if SequenceEntries(n, trig, nrep, jump, goto, wfnames).Some? {
        PrefixTransitive(SequenceEntries(m, trig, nrep, jump, goto, wfnames).value,
                         SequenceEntries(n - 1, trig, nrep, jump, goto, wfnames).value,
                         SequenceEntries(n, trig, nrep, jump, goto, wfnames).value);
      }
    }
  }

  // ---------------------------------------------------------------------------
  // generate_awg_file
  // ---------------------------------------------------------------------------

  /** The file starts with these bytes: MAGIC = 5000 and VERSION = 1. */
  const MagicRecord: seq<Byte> := [6, 0, 0, 0, 2, 0, 0, 0, 77, 65, 71, 73, 67, 0, 0x88, 0x13]
  const VersionRecord: seq<Byte> := [8, 0, 0, 0, 2, 0, 0, 0, 86, 69, 82, 83, 73, 79, 78, 0, 1, 0]

  lemma SmallU32(x: nat)
    requires x < 256
    ensures U32Le(x) == [x, 0, 0, 0]
  {
    assert LeBytes(0, 3) == [0, 0, 0] by {
      assert LeBytes(0, 2) == [0, 0] by {
        assert LeBytes(0, 1) == [0] + LeBytes(0, 0);
      }
    }
  }

  lemma ShortData()
    ensures PackData(Int(5000), "h") == Some([0x88, 0x13])
    ensures PackData(Int(1), "h") == Some([1, 0])
  {
    assert Pow256(2) == 0x1_0000 by {
      assert Pow256(1) == 256;
    }
    assert Classify("h") == Scalar('h');
    assert LeBytes(5000, 2) == [0x88, 0x13] by {
      assert LeBytes(19, 1) == [19] + LeBytes(0, 0);
    }
    assert LeBytes(1, 2) == [1, 0] by {
      assert LeBytes(0, 1) == [0] + LeBytes(0, 0);
    }
  }

  lemma MagicRecordBytes()
    ensures PackRecord(Magic.name, Magic.value, Magic.dtype) == Some(MagicRecord)
  {
    ShortData();
    SmallU32(6);
    SmallU32(2);
    assert IsAscii("MAGIC");
    var m := Ascii("MAGIC").value;
    assert m == [77, 65, 71, 73, 67] by {
      assert |m| == 5 && m[0] == 77 && m[1] == 65 && m[2] == 71 && m[3] == 73 && m[4] == 67;
    }
    HeaderRecordsBytes();
  }

  lemma VersionRecordBytes()
    ensures PackRecord(Version.name, Version.value, Version.dtype) == Some(VersionRecord)
  {
    ShortData();
    SmallU32(8);
    SmallU32(2);
    assert IsAscii("VERSION");
    var v := Ascii("VERSION").value;
    assert v == [86, 69, 82, 83, 73, 79, 78] by {
      assert |v| == 7 && v[0] == 86 && v[1] == 69 && v[2] == 82 && v[3] == 83;
      assert v[4] == 73 && v[5] == 79 && v[6] == 78;
    }
    HeaderRecordsBytes();
  }

  lemma HeaderRecords()
    ensures PackRecord(Magic.name, Magic.value, Magic.dtype) == Some(MagicRecord)
    ensures PackRecord(Version.name, Version.value, Version.dtype) == Some(VersionRecord)
  {
    MagicRecordBytes();
    VersionRecordBytes();
  }

  lemma HeaderRecordsBytes()
    ensures MagicRecord == [6, 0, 0, 0] + [2, 0, 0, 0] + [77, 65, 71, 73, 67] + [0] + [0x88, 0x13]
    ensures VersionRecord == [8, 0, 0, 0] + [2, 0, 0, 0] + [86, 69, 82, 83, 73, 79, 78] + [0] + [1, 0]
  {
  }

  lemma HeaderPack()
    ensures PackAll([Magic, Version]) == Some(MagicRecord + VersionRecord)
  {
    HeaderRecords();
    PackOne(Version);
    assert [Magic, Version][1..] == [Version];
  }

  /** `head_str`: MAGIC, VERSION, then one record per setting. */
  method WriteHead(fmt: map<string, string>, cfg: seq<(string, Value)>) returns (r: Option<seq<Byte>>)
    ensures r == Section(HeadEntries(fmt, cfg))
  {
    var magic := PackRecord(Magic.name, Magic.value, Magic.dtype);
    var version := PackRecord(Version.name, Version.value, Version.dtype);
    HeaderRecords();
    ghost var es := [Magic, Version];
    HeaderPack();
    assert cfg[..0] == [];
    var buf := magic.value + version.value;
    var i := 0;
    while i < |cfg|
      invariant 0 <= i <= |cfg|
      invariant HeadEntries(fmt, cfg[..i]) == Some(es)
      invariant PackAll(es) == Some(buf)
    {
      var (k, v) := cfg[i];
      HeadStep(fmt, cfg, i, es, buf);
      if k !in fmt {
        return None;
      }
      var rec := PackRecord(k, v, fmt[k]);
      es := es + [Entry(k, v, fmt[k])];
      if rec.None? {
        return None;
      }
      buf := buf + rec.value;
      i := i + 1;
    }
    assert cfg[..i] == cfg;
    r := Some(buf);
  }

  /** One setting of `head_str`'s loop: an unknown name or a record that
      does not pack fails the whole header; otherwise its record follows
      the bytes so far. */
  lemma HeadStep(fmt: map<string, string>, cfg: seq<(string, Value)>, i: nat,
                 es: seq<Entry>, buf: seq<Byte>)
    requires i < |cfg| && HeadEntries(fmt, cfg[..i]) == Some(es) && PackAll(es) == Some(buf)
    ensures cfg[i].0 !in fmt ==> Section(HeadEntries(fmt, cfg)).None?
    ensures cfg[i].0 in fmt ==>
              var e := Entry(cfg[i].0, cfg[i].1, fmt[cfg[i].0]);
              var rec := PackRecord(e.name, e.value, e.dtype);
              HeadEntries(fmt, cfg[..i + 1]) == Some(es + [e]) &&
              (rec.None? ==> Section(HeadEntries(fmt, cfg)).None?) &&
              (rec.Some? ==> PackAll(es + [e]) == Some(buf + rec.value))
  {
    assert cfg[..i + 1][..i] == cfg[..i];
    HeadPrefix(fmt, cfg, i + 1);
    var k := cfg[i].0;
    if k in fmt {
      var e := Entry(k, cfg[i].1, fmt[k]);
      PackAllAppend(es, [e]);
      PackOne(e);
      if PackRecord(e.name, e.value, e.dtype).None? && HeadEntries(fmt, cfg).Some? {
        PackAllPrefixNone(es + [e], HeadEntries(fmt, cfg).value);
      }
    }
  }

  /** `ch_record_str`: the channel settings the channel table knows. */
  method WriteChannels(fmt: map<string, string>, cfg: seq<(string, Value)>) returns (r: Option<seq<Byte>>)
    ensures r == PackAll(ChannelEntries(fmt, cfg))
  {
    var buf := [];
    var i := 0;
    assert cfg[..0] == [];
    while i < |cfg|
      invariant 0 <= i <= |cfg|
      invariant PackAll(ChannelEntries(fmt, cfg[..i])) == Some(buf)
    {
      var (k, v) := cfg[i];
      var chK := DropLast(k, 1) + "N";
      if chK in fmt {
        var rec := PackRecord(k, v, fmt[chK]);
        ChannelStep(fmt, cfg, i, buf, rec);
        if rec.None? {
          return None;
        }
        buf := buf + rec.value;
      } else {
        ChannelStep(fmt, cfg, i, buf, Some([]));
        assert buf + [] == buf;
      }
      i := i + 1;
    }
    assert cfg[..i] == cfg;
    r := Some(buf);
  }

  lemma ChannelStep(fmt: map<string, string>, cfg: seq<(string, Value)>, i: nat, buf: seq<Byte>,
                    rec: Option<seq<Byte>>)
    requires i < |cfg| && PackAll(ChannelEntries(fmt, cfg[..i])) == Some(buf)
    requires var k := cfg[i].0;
      rec == if ChannelFormatKey(k) in fmt then PackRecord(k, cfg[i].1, fmt[ChannelFormatKey(k)]) else Some([])
    ensures rec.Some? ==> PackAll(ChannelEntries(fmt, cfg[..i + 1])) == Some(buf + rec.value)
    ensures rec.None? ==> PackAll(ChannelEntries(fmt, cfg)).None?
  {
    var (k, v) := cfg[i];
    var es := ChannelEntries(fmt, cfg[..i]);
    assert cfg[..i + 1][..i] == cfg[..i] && cfg[..i + 1][i] == cfg[i];
    if ChannelFormatKey(k) in fmt {
      var e := Entry(k, v, fmt[ChannelFormatKey(k)]);
      assert ChannelEntries(fmt, cfg[..i + 1]) == es + [e];
      PackAllAppend(es, [e]);
      PackOne(e);
      if rec.None? {
        ChannelPrefix(fmt, cfg, i + 1);
        PackAllPrefixNone(es + [e], ChannelEntries(fmt, cfg));
      }
    } else {
      assert ChannelEntries(fmt, cfg[..i + 1]) == es + [];
      assert es + [] == es && buf + [] == buf;
    }
  }

  /** `wlist = list(packed_waveforms.keys()); wlist.sort()`. */
  method SortedNames(packed: map<string, seq<int>>) returns (names: seq<string>)
    ensures names == SortedKeys(packed.Keys)
  {
    names := [];
    var ks := packed.Keys;
    while ks != {}
      invariant StrictlySorted(names) && Names(names) + ks == packed.Keys && Names(names) !! ks
      decreases |ks|
    {
      var k :| k in ks;
      names := Insert(k, names);
      ks := ks - {k};
    }
    SortedUnique(names, SortedKeys(packed.Keys));
  }

  /** `wf_record_str`: five records per waveform, numbered from 21 in
      sorted name order. */
  method WriteWaveforms(packed: map<string, seq<int>>, stamp: seq<int>) returns (r: Option<seq<Byte>>)
    ensures r == PackAll(WaveformEntries(SortedKeys(packed.Keys), packed, stamp))
  {
    var names := SortedNames(packed);
    assert forall i :: 0 <= i < |names| ==> names[i] in packed by {
      assert Names(names) == packed.Keys;
    }
    r := WriteGroups(names, packed, stamp);
  }

  /** The loop over the sorted names, `ii` counting from 21. */
  method WriteGroups(names: seq<string>, packed: map<string, seq<int>>, stamp: seq<int>) returns (r: Option<seq<Byte>>)
    requires forall i :: 0 <= i < |names| ==> names[i] in packed
    ensures r == PackAll(WaveformEntries(names, packed, stamp))
  {
    var buf := [];
    var ii := FirstWaveform;
    var i := 0;
    assert names[..0] == [];
    while i < |names|
      invariant 0 <= i <= |names| && ii == FirstWaveform + i
      invariant PackAll(WaveformEntries(names[..i], packed, stamp)) == Some(buf)
    {
      var wf := names[i];
      var wfdat := packed[wf];
      var rec := PackAll(WaveformGroup(ii, wf, wfdat, stamp));
      WaveformStep(names, packed, stamp, i, buf, rec);
      if rec.None? {
        WaveformFail(names, packed, stamp, i);
        return None;
      }
      buf := buf + rec.value;
      ii := ii + 1;
      i := i + 1;
    }
    assert names[..i] == names;
    r := Some(buf);
  }

  lemma WaveformEntriesStep(names: seq<string>, packed: map<string, seq<int>>, stamp: seq<int>, i: nat)
    requires i < |names| && forall j :: 0 <= j < |names| ==> names[j] in packed
    ensures WaveformEntries(names[..i + 1], packed, stamp) ==
              WaveformEntries(names[..i], packed, stamp) + WaveformGroup(FirstWaveform + i, names[i], packed[names[i]], stamp)
  {
    assert names[..i + 1][..i] == names[..i] && names[..i + 1][i] == names[i];
  }

  lemma WaveformStep(names: seq<string>, packed: map<string, seq<int>>, stamp: seq<int>, i: nat,
                     buf: seq<Byte>, rec: Option<seq<Byte>>)
    requires i < |names| && forall j :: 0 <= j < |names| ==> names[j] in packed
    requires PackAll(WaveformEntries(names[..i], packed, stamp)) == Some(buf)
    requires rec == PackAll(WaveformGroup(FirstWaveform + i, names[i], packed[names[i]], stamp))
    ensures rec.Some? ==> PackAll(WaveformEntries(names[..i + 1], packed, stamp)) == Some(buf + rec.value)
    ensures rec.None? ==> PackAll(WaveformEntries(names[..i + 1], packed, stamp)).None?
  {
    WaveformEntriesStep(names, packed, stamp, i);
    PackAllStep(WaveformEntries(names[..i + 1], packed, stamp), WaveformEntries(names[..i], packed, stamp),
                WaveformGroup(FirstWaveform + i, names[i], packed[names[i]], stamp), buf, rec);
  }

  /** A group that fails to pack fails the whole section. */
  lemma WaveformFail(names: seq<string>, packed: map<string, seq<int>>, stamp: seq<int>, i: nat)
    requires i < |names| && forall j :: 0 <= j < |names| ==> names[j] in packed
    requires PackAll(WaveformEntries(names[..i + 1], packed, stamp)).None?
    ensures PackAll(WaveformEntries(names, packed, stamp)).None?
  {
    WaveformPrefix(names, packed, stamp, i + 1);
    PackAllPrefixNone(WaveformEntries(names[..i + 1], packed, stamp), WaveformEntries(names, packed, stamp));
  }

  /** Packing one more group extends the bytes, or fails with it. */
  lemma PackAllStep(all: seq<Entry>, es: seq<Entry>, g: seq<Entry>, buf: seq<Byte>, rec: Option<seq<Byte>>)
    requires all == es + g && PackAll(es) == Some(buf) && rec == PackAll(g)
    ensures rec.Some? ==> PackAll(all) == Some(buf + rec.value)
    ensures rec.None? ==> PackAll(all).None?
  {
    PackAllAppend(es, g);
  }

  /** `seq_record_str`: per row of `trig_wait`, WAIT, LOOP, JUMP and GOTO,
      then one waveform reference per channel of `wfname_l`. */
  method WriteSequence(trig: seq<int>, nrep: seq<int>, jump: seq<int>, goto: seq<int>,
                       wfnames: seq<(Ch, seq<string>)>) returns (r: Option<seq<Byte>>)
    ensures r == Section(SequenceEntries(|trig|, trig, nrep, jump, goto, wfnames))
  {
    var buf := [];
    ghost var es: seq<Entry> := [];
    var i := 0;
    while i < |trig|
      invariant 0 <= i <= |trig|
      invariant SequenceEntries(i, trig, nrep, jump, goto, wfnames) == Some(es)
      invariant PackAll(es) == Some(buf)
    {
      SequencePrefix(i + 1, |trig|, trig, nrep, jump, goto, wfnames);
      if i >= |nrep| || i >= |jump| || i >= |goto| {
        return None;
      }
      var rec := PackAll(RowHead(i, trig, nrep, jump, goto));
      RowHeadStep(i, trig, nrep, jump, goto, wfnames, es, buf, rec);
      if rec.None? {
        return None;
      }
      ghost var pre := es + RowHead(i, trig, nrep, jump, goto);
      var row := WriteRowNames(i, wfnames, pre, buf + rec.value);
      RowDone(i, trig, nrep, jump, goto, wfnames, es, row);
      if row.None? {
        return None;
      }
      buf := row.value;
      es := pre + RowNames(i, wfnames).value;
      i := i + 1;
    }
    r := Some(buf);
  }

  /** The inner loop over the channels of `wfname_l` for row i, appending to
      the buffer `buf` that holds the records `pre`. */
  method WriteRowNames(i: nat, wfnames: seq<(Ch, seq<string>)>, ghost pre: seq<Entry>, buf0: seq<Byte>)
    returns (r: Option<seq<Byte>>)
    requires PackAll(pre) == Some(buf0)
    ensures RowNames(i, wfnames).None? ==> r.None?
    ensures RowNames(i, wfnames).Some? ==> r == PackAll(pre + RowNames(i, wfnames).value)
  {
    var buf := buf0;
    var j := 0;
    assert wfnames[..0] == [] && pre + [] == pre;
    while j < |wfnames|
      invariant 0 <= j <= |wfnames|
      invariant RowNames(i, wfnames[..j]).Some?
      invariant PackAll(pre + RowNames(i, wfnames[..j]).value) == Some(buf)
    {
      var (ch, l) := wfnames[j];
      if i >= |l| {
        return None;
      }
      var name := RowName(i, ch, l[i]);
      var rec := PackRecord(name.name, name.value, name.dtype);
      RowNameStep(i, wfnames, pre, j, buf, rec);
      if rec.None? {
        return None;
      }
      buf := buf + rec.value;
      j := j + 1;
    }
    assert wfnames[..j] == wfnames;
    r := Some(buf);
  }

  lemma RowHeadStep(i: nat, trig: seq<int>, nrep: seq<int>, jump: seq<int>, goto: seq<int>,
                    wfnames: seq<(Ch, seq<string>)>, es: seq<Entry>, buf: seq<Byte>, rec: Option<seq<Byte>>)
    requires i < |trig| && i < |nrep| && i < |jump| && i < |goto|
    requires SequenceEntries(i, trig, nrep, jump, goto, wfnames) == Some(es) && PackAll(es) == Some(buf)
    requires rec == PackAll(RowHead(i, trig, nrep, jump, goto))
    ensures rec.Some? ==> PackAll(es + RowHead(i, trig, nrep, jump, goto)) == Some(buf + rec.value)
    ensures rec.None? ==> Section(SequenceEntries(|trig|, trig, nrep, jump, goto, wfnames)).None?
  {
    var h := RowHead(i, trig, nrep, jump, goto);
    PackAllAppend(es, h);
    SequencePrefix(i + 1, |trig|, trig, nrep, jump, goto, wfnames);
    var all := SequenceEntries(|trig|, trig, nrep, jump, goto, wfnames);
    if rec.None? && all.Some? {
      var w := SequenceEntries(i + 1, trig, nrep, jump, goto, wfnames).value;
      assert w == es + h + RowNames(i, wfnames).value;
      assert IsPrefix(es + h, w);
      PrefixTransitive(es + h, w, all.value);
      PackAllPrefixNone(es + h, all.value);
    }
  }

  lemma RowNameStep(i: nat, wfnames: seq<(Ch, seq<string>)>, pre: seq<Entry>, j: nat, buf: seq<Byte>,
                    rec: Option<seq<Byte>>)
    requires j < |wfnames| && i < |wfnames[j].1| && RowNames(i, wfnames[..j]).Some?
    requires PackAll(pre + RowNames(i, wfnames[..j]).value) == Some(buf)
    requires var e := RowName(i, wfnames[j].0, wfnames[j].1[i]); rec == PackRecord(e.name, e.value, e.dtype)
    ensures RowNames(i, wfnames[..j + 1]).Some?
    ensures rec.Some? ==> PackAll(pre + RowNames(i, wfnames[..j + 1]).value) == Some(buf + rec.value)
    ensures rec.None? && RowNames(i, wfnames).Some? ==> PackAll(pre + RowNames(i, wfnames).value).None?
  {
    var e := RowName(i, wfnames[j].0, wfnames[j].1[i]);
    var before := pre + RowNames(i, wfnames[..j]).value;
    assert wfnames[..j + 1][..j] == wfnames[..j] && wfnames[..j + 1][j] == wfnames[j];
    assert RowNames(i, wfnames[..j + 1]).value == RowNames(i, wfnames[..j]).value + [e];
    assert pre + RowNames(i, wfnames[..j + 1]).value == before + [e];
    PackAllAppend(before, [e]);
    PackOne(e);
    if rec.None? && RowNames(i, wfnames).Some? {
      RowNamesPrefix(i, wfnames, j + 1);
      var names := RowNames(i, wfnames).value;
      var part := RowNames(i, wfnames[..j + 1]).value;
      assert IsPrefix(before + [e], pre + names) by {
        assert (pre + names)[..|before + [e]|] == pre + names[..|part|];
      }
      PackAllPrefixNone(before + [e], pre + names);
    }
  }

  lemma RowDone(i: nat, trig: seq<int>, nrep: seq<int>, jump: seq<int>, goto: seq<int>,
                wfnames: seq<(Ch, seq<string>)>, es: seq<Entry>, row: Option<seq<Byte>>)
    requires i < |trig| && i < |nrep| && i < |jump| && i < |goto|
    requires SequenceEntries(i, trig, nrep, jump, goto, wfnames) == Some(es)
    requires RowNames(i, wfnames).None? ==> row.None?
    requires RowNames(i, wfnames).Some? ==>
               row == PackAll(es + RowHead(i, trig, nrep, jump, goto) + RowNames(i, wfnames).value)
    ensures row.Some? ==> SequenceEntries(i + 1, trig, nrep, jump, goto, wfnames) ==
                            Some(es + RowHead(i, trig, nrep, jump, goto) + RowNames(i, wfnames).value)
    ensures row.None? ==> Section(SequenceEntries(|trig|, trig, nrep, jump, goto, wfnames)).None?
  {
    SequencePrefix(i + 1, |trig|, trig, nrep, jump, goto, wfnames);
    var all := SequenceEntries(|trig|, trig, nrep, jump, goto, wfnames);
    if row.None? && all.Some? {
      var w := SequenceEntries(i + 1, trig, nrep, jump, goto, wfnames).value;
      PackAllPrefixNone(w, all.value);
    }
  }

  /** `generate_awg_file`: the four buffers, concatenated. The timestamp
      (`time.localtime()` reordered, its last field dropped) is a parameter. */
  method GenerateAwgFile(packed: map<string, seq<int>>, wfnames: seq<(Ch, seq<string>)>,
                         nrep: seq<int>, trig: seq<int>, goto: seq<int>, jump: seq<int>,
                         chCfg: seq<(string, Value)>, headFmt: map<string, string>,
                         chFmt: map<string, string>, internalTrigger: bool,
                         triggerRate: seq<Byte>, stamp: seq<int>) returns (r: Option<seq<Byte>>)
    ensures r == AwgFileSpec(packed, wfnames, nrep, trig, goto, jump, chCfg, headFmt, chFmt,
                             internalTrigger, triggerRate, stamp)
  {
    var head := WriteHead(headFmt, SequenceConfig(internalTrigger, triggerRate));
    if head.None? {
      return None;
    }
    var ch := WriteChannels(chFmt, chCfg);
    if ch.None? {
      return None;
    }
    var wf := WriteWaveforms(packed, stamp);
    if wf.None? {
      return None;
    }
    var sq := WriteSequence(trig, nrep, jump, goto, wfnames);
    if sq.None? {
      return None;
    }
    r := Some(head.value + ch.value + wf.value + sq.value);
  }

  // ---------------------------------------------------------------------------
  // What the file holds
  // ---------------------------------------------------------------------------

  /** Every record of the file, in order; `None` when a section raises
      before any record is packed. */
  ghost function FileEntries(packed: map<string, seq<int>>, wfnames: seq<(Ch, seq<string>)>,
                             nrep: seq<int>, trig: seq<int>, goto: seq<int>, jump: seq<int>,
                             chCfg: seq<(string, Value)>, headFmt: map<string, string>,
                             chFmt: map<string, string>, internalTrigger: bool,
                             triggerRate: seq<Byte>, stamp: seq<int>): Option<seq<Entry>>
  {
    var h := HeadEntries(headFmt, SequenceConfig(internalTrigger, triggerRate));
    var sq := SequenceEntries(|trig|, trig, nrep, jump, goto, wfnames);
    if h.Some? && sq.Some? then
      Some(h.value + ChannelEntries(chFmt, chCfg) + WaveformEntries(SortedKeys(packed.Keys), packed, stamp) + sq.value)
    else None
  }

  /** Four sections joined are the section of the four entry lists joined. */
  lemma JoinSections(h: Option<seq<Entry>>, c: seq<Entry>, w: seq<Entry>, sq: Option<seq<Entry>>)
    ensures Join(Join(Join(Section(h), PackAll(c)), PackAll(w)), Section(sq)) ==
            Section(if h.Some? && sq.Some? then Some(h.value + c + w + sq.value) else None)
  {
    if h.Some? && sq.Some? {
      PackAllAppend(h.value, c);
      PackAllAppend(h.value + c, w);
      PackAllAppend(h.value + c + w, sq.value);
    }
  }

  /** The four buffers concatenated are the records of the header, channel,
      waveform and sequence sections written in that order. */
  lemma AwgFileEntries(packed: map<string, seq<int>>, wfnames: seq<(Ch, seq<string>)>,
                       nrep: seq<int>, trig: seq<int>, goto: seq<int>, jump: seq<int>,
                       chCfg: seq<(string, Value)>, headFmt: map<string, string>,
                       chFmt: map<string, string>, internalTrigger: bool,
                       triggerRate: seq<Byte>, stamp: seq<int>)
    ensures AwgFileSpec(packed, wfnames, nrep, trig, goto, jump, chCfg, headFmt, chFmt,
                        internalTrigger, triggerRate, stamp) ==
            Section(FileEntries(packed, wfnames, nrep, trig, goto, jump, chCfg, headFmt, chFmt,
                                internalTrigger, triggerRate, stamp))
  {
    JoinSections(HeadEntries(headFmt, SequenceConfig(internalTrigger, triggerRate)),
                 ChannelEntries(chFmt, chCfg), WaveformEntries(SortedKeys(packed.Keys), packed, stamp),
                 SequenceEntries(|trig|, trig, nrep, jump, goto, wfnames));
  }

  /** A packed section reads back as the records of its entries. */
  lemma SectionReads(es: Option<seq<Entry>>)
    requires Section(es).Some?
    ensures es.Some? && Packs(es.value) && ReadAll(Section(es).value) == Some(WrittenAll(es.value))
  {
    PackAllReads(es.value);
  }

  /** Reading the file back gives exactly those records. */
  lemma AwgFileReads(packed: map<string, seq<int>>, wfnames: seq<(Ch, seq<string>)>,
                     nrep: seq<int>, trig: seq<int>, goto: seq<int>, jump: seq<int>,
                     chCfg: seq<(string, Value)>, headFmt: map<string, string>,
                     chFmt: map<string, string>, internalTrigger: bool,
                     triggerRate: seq<Byte>, stamp: seq<int>)
    requires AwgFileSpec(packed, wfnames, nrep, trig, goto, jump, chCfg, headFmt, chFmt,
                         internalTrigger, triggerRate, stamp).Some?
    ensures var es := FileEntries(packed, wfnames, nrep, trig, goto, jump, chCfg, headFmt, chFmt,
                                  internalTrigger, triggerRate, stamp);
            es.Some? && Packs(es.value) &&
            ReadAll(AwgFileSpec(packed, wfnames, nrep, trig, goto, jump, chCfg, headFmt, chFmt,
                                internalTrigger, triggerRate, stamp).value) == Some(WrittenAll(es.value))
  {
    AwgFileEntries(packed, wfnames, nrep, trig, goto, jump, chCfg, headFmt, chFmt,
                   internalTrigger, triggerRate, stamp);
    SectionReads(FileEntries(packed, wfnames, nrep, trig, goto, jump, chCfg, headFmt, chFmt,
                             internalTrigger, triggerRate, stamp));
  }

  /** Entries that start with MAGIC and VERSION pack to bytes that start
      with their two records. */
  lemma MagicFirst(es: seq<Entry>)
    requires |es| >= 2 && es[0] == Magic && es[1] == Version && PackAll(es).Some?
    ensures IsPrefix(MagicRecord + VersionRecord, PackAll(es).value)
  {
    var rest := es[2..];
    assert es == [Magic, Version] + rest;
    PackAllAppend([Magic, Version], rest);
    HeaderPack();
    JoinPrefix(MagicRecord + VersionRecord, PackAll(rest), PackAll(es));
  }

  /** Bytes joined in front of others are a prefix of the result. */
  lemma JoinPrefix(x: seq<Byte>, y: Option<seq<Byte>>, z: Option<seq<Byte>>)
    requires z == Join(Some(x), y) && z.Some?
    ensures IsPrefix(x, z.value)
  {
    assert z.value[..|x|] == x;
  }

  /** The file starts with the MAGIC = 5000 record, then VERSION = 1. */
  lemma AwgFileMagic(packed: map<string, seq<int>>, wfnames: seq<(Ch, seq<string>)>,
                     nrep: seq<int>, trig: seq<int>, goto: seq<int>, jump: seq<int>,
                     chCfg: seq<(string, Value)>, headFmt: map<string, string>,
                     chFmt: map<string, string>, internalTrigger: bool,
                     triggerRate: seq<Byte>, stamp: seq<int>)
    requires AwgFileSpec(packed, wfnames, nrep, trig, goto, jump, chCfg, headFmt, chFmt,
                         internalTrigger, triggerRate, stamp).Some?
    ensures IsPrefix(MagicRecord + VersionRecord,
                     AwgFileSpec(packed, wfnames, nrep, trig, goto, jump, chCfg, headFmt, chFmt,
                                 internalTrigger, triggerRate, stamp).value)
  {
    AwgFileEntries(packed, wfnames, nrep, trig, goto, jump, chCfg, headFmt, chFmt,
                   internalTrigger, triggerRate, stamp);
    var es := FileEntries(packed, wfnames, nrep, trig, goto, jump, chCfg, headFmt, chFmt,
                          internalTrigger, triggerRate, stamp).value;
    var cfg := SequenceConfig(internalTrigger, triggerRate);
    HeadLayout(headFmt, cfg);
    MagicFirst(es);
  }

  /** The header is MAGIC, VERSION, then every setting in order with the
      format the head table gives it; it fails exactly when a setting is
      missing from the table. */
  lemma {:induction false} HeadLayout(fmt: map<string, string>, cfg: seq<(string, Value)>)
    ensures HeadEntries(fmt, cfg).Some? <==> forall i :: 0 <= i < |cfg| ==> cfg[i].0 in fmt
    ensures HeadEntries(fmt, cfg).Some? ==>
              var es := HeadEntries(fmt, cfg).value;
              |es| == 2 + |cfg| && es[0] == Magic && es[1] == Version &&
              forall i :: 0 <= i < |cfg| ==> es[2 + i] == Entry(cfg[i].0, cfg[i].1, fmt[cfg[i].0])
  {
    if cfg != [] {
      var c := cfg[..|cfg| - 1];
      HeadLayout(fmt, c);
      var (k, v) := cfg[|cfg| - 1];
      assert forall i :: 0 <= i < |c| ==> c[i] == cfg[i];
      assert (forall i :: 0 <= i < |cfg| ==> cfg[i].0 in fmt) <==>
             (forall i :: 0 <= i < |c| ==> c[i].0 in fmt) && k in fmt;
      if HeadEntries(fmt, cfg).Some? {
        var es := HeadEntries(fmt, c).value;
        assert HeadEntries(fmt, cfg).value == es + [Entry(k, v, fmt[k])];
      }
    }
  }

  /** A channel setting is written, with the channel table's format, exactly
      when the table has its `k[:-1] + 'N'` key. */
  lemma {:induction false} ChannelKept(fmt: map<string, string>, cfg: seq<(string, Value)>, e: Entry)
    ensures e in ChannelEntries(fmt, cfg) <==>
              (e.name, e.value) in cfg && ChannelFormatKey(e.name) in fmt &&
              e.dtype == fmt[ChannelFormatKey(e.name)]
  {
    if cfg != [] {
      var c := cfg[..|cfg| - 1];
      ChannelKept(fmt, c, e);
      var (k, v) := cfg[|cfg| - 1];
      assert cfg == c + [(k, v)];
      var tail := if ChannelFormatKey(k) in fmt then [Entry(k, v, fmt[ChannelFormatKey(k)])] else [];
      assert ChannelEntries(fmt, cfg) == ChannelEntries(fmt, c) + tail;
      assert e in ChannelEntries(fmt, cfg) <==> e in ChannelEntries(fmt, c) || e in tail;
      assert (e.name, e.value) in cfg <==> (e.name, e.value) in c || (e.name, e.value) == (k, v);
    }
  }

  /** Group j of the waveform section is the five records of the j-th name,
      numbered 21 + j. */
  lemma {:induction false} WaveformLayout(names: seq<string>, packed: map<string, seq<int>>, stamp: seq<int>, j: nat)
    requires j < |names| && forall i :: 0 <= i < |names| ==> names[i] in packed
    ensures WaveformEntries(names, packed, stamp)[5 * j..5 * j + 5] ==
              WaveformGroup(FirstWaveform + j, names[j], packed[names[j]], stamp)
    decreases |names|, 1
  {
    if j < |names| - 1 {
      WaveformLayoutEarlier(names, packed, stamp, j);
    } else {
      WaveformLayoutLast(names, packed, stamp);
    }
  }

  lemma {:induction false} WaveformLayoutEarlier(names: seq<string>, packed: map<string, seq<int>>, stamp: seq<int>, j: nat)
    requires j < |names| - 1 && forall i :: 0 <= i < |names| ==> names[i] in packed
    ensures WaveformEntries(names, packed, stamp)[5 * j..5 * j + 5] ==
              WaveformGroup(FirstWaveform + j, names[j], packed[names[j]], stamp)
    decreases |names|, 0
  {
    var n := |names| - 1;
    var c := names[..n];
    var pre := WaveformEntries(c, packed, stamp);
    var g := WaveformGroup(FirstWaveform + n, names[n], packed[names[n]], stamp);
    var w := WaveformGroup(FirstWaveform + j, names[j], packed[names[j]], stamp);
    WaveformLayout(c, packed, stamp, j);
    assert c[j] == names[j];
    WaveformSnoc(names, packed, stamp);
    EarlierOfAppend(WaveformEntries(names, packed, stamp), pre, g, 5 * j, 5 * j + 5, w);
  }

  /** The last name's group comes after those of the others. */
  lemma WaveformSnoc(names: seq<string>, packed: map<string, seq<int>>, stamp: seq<int>)
    requires names != [] && forall i :: 0 <= i < |names| ==> names[i] in packed
    ensures var n := |names| - 1;
            WaveformEntries(names, packed, stamp) ==
              WaveformEntries(names[..n], packed, stamp) + WaveformGroup(FirstWaveform + n, names[n], packed[names[n]], stamp)
  {
  }

  lemma EarlierOfAppend<T>(all: seq<T>, pre: seq<T>, g: seq<T>, lo: nat, hi: nat, w: seq<T>)
    requires all == pre + g && lo <= hi <= |pre| && pre[lo..hi] == w
    ensures all[lo..hi] == w
  {
  }

  lemma WaveformLayoutLast(names: seq<string>, packed: map<string, seq<int>>, stamp: seq<int>)
    requires names != [] && forall i :: 0 <= i < |names| ==> names[i] in packed
    ensures var n := |names| - 1;
            WaveformEntries(names, packed, stamp)[5 * n..5 * n + 5] ==
              WaveformGroup(FirstWaveform + n, names[n], packed[names[n]], stamp)
  {
    var n := |names| - 1;
    var pre := WaveformEntries(names[..n], packed, stamp);
    var g := WaveformGroup(FirstWaveform + n, names[n], packed[names[n]], stamp);
    WaveformSnoc(names, packed, stamp);
    LastOfAppend(WaveformEntries(names, packed, stamp), pre, g);
  }

  lemma LastOfAppend<T>(all: seq<T>, pre: seq<T>, g: seq<T>)
    requires all == pre + g
    ensures all[|pre|..|pre| + |g|] == g
  {
  }

  /** Every waveform of the dictionary gets exactly one group: the sorted
      names have no repeats, and the group of name k is found at its place in
      sorted order. */
  lemma WaveformGroups(packed: map<string, seq<int>>, stamp: seq<int>, k: string)
    requires k in packed
    ensures var names := SortedKeys(packed.Keys);
            (forall i :: 0 <= i < |names| ==> names[i] in packed) &&
            (forall i, j :: 0 <= i < j < |names| ==> names[i] != names[j]) &&
            exists j :: 0 <= j < |names| && names[j] == k &&
                        WaveformEntries(names, packed, stamp)[5 * j..5 * j + 5] ==
                          WaveformGroup(FirstWaveform + j, k, packed[k], stamp)
  {
    var names := SortedKeys(packed.Keys);
    assert forall i :: 0 <= i < |names| ==> names[i] in Names(names);
    forall i, j | 0 <= i < j < |names|
      ensures names[i] != names[j]
    {
      StrLtIrreflexive(names[i]);
    }
    assert k in Names(names);
    var j :| 0 <= j < |names| && names[j] == k;
    WaveformLayout(names, packed, stamp, j);
    assert WaveformEntries(names, packed, stamp)[5 * j..5 * j + 5] ==
             WaveformGroup(FirstWaveform + j, names[j], packed[names[j]], stamp);
    assert WaveformGroup(FirstWaveform + j, names[j], packed[names[j]], stamp) ==
             WaveformGroup(FirstWaveform + j, k, packed[k], stamp);
  }

  /** `'<n>H'` writes word k of the data as bytes 2k (low) and 2k + 1 (high). */
  lemma {:induction false} ShortsLowFirst(vs: seq<int>)
    requires PackInts('H', vs).Some?
    ensures var b := PackInts('H', vs).value;
            |b| == 2 * |vs| &&
            forall k :: 0 <= k < |vs| ==> b[2 * k] == vs[k] % 256 && b[2 * k + 1] == vs[k] / 256
  {
    if vs != [] {
      ShortsLowFirst(vs[1..]);
      var a := PackInt('H', vs[0]).value;
      var rest := PackInts('H', vs[1..]).value;
      assert LeBytes(vs[0], 2) == [vs[0] % 256] + LeBytes(vs[0] / 256, 1);
      forall k | 1 <= k < |vs|
        ensures (a + rest)[2 * k] == vs[k] % 256 && (a + rest)[2 * k + 1] == vs[k] / 256
      {
        assert vs[k] == vs[1..][k - 1];
        assert (a + rest)[2 * k] == rest[2 * (k - 1)];
      }
    }
  }

  /** What the five records of a waveform hold: the name with a NUL, type 1,
      the length as a signed 32-bit integer, and the data words low byte
      first. */
  lemma WaveformGroupData(ii: nat, wf: string, data: seq<int>, stamp: seq<int>)
    requires IsAscii(wf) && |data| < 0x8000_0000
    requires forall k :: 0 <= k < |data| ==> 0 <= data[k] < 0x1_0000
    ensures var g := WaveformGroup(ii, wf, data, stamp);
            PackData(g[0].value, g[0].dtype) == Some(Ascii(wf).value + [0]) &&
            PackData(g[1].value, g[1].dtype) == Some([1, 0]) &&
            PackData(g[2].value, g[2].dtype).Some? &&
            |PackData(g[2].value, g[2].dtype).value| == 4 &&
            UnpackInt(true, PackData(g[2].value, g[2].dtype).value) == |data| &&
            PackData(g[4].value, g[4].dtype).Some? &&
            var d := PackData(g[4].value, g[4].dtype).value;
            |d| == 2 * |data| &&
            forall k :: 0 <= k < |data| ==> d[2 * k] == data[k] % 256 && d[2 * k + 1] == data[k] / 256
  {
    var g := WaveformGroup(ii, wf, data, stamp);
    assert g[0].value == Str(wf + "\0") && g[0].dtype == NatToString(|wf| + 1) + "s";
    assert g[1].value == Int(1) && g[1].dtype == "h";
    assert g[2].value == Int(|data|) && g[2].dtype == "l";
    assert g[4].value == Ints(data) && g[4].dtype == NatToString(|data|) + "H";
    ShortData();
    NameRecord(wf);
    LengthRecord(|data|);
    DataRecord(data);
  }

  /** The name record: the ASCII bytes of the name and a NUL. */
  lemma NameRecord(wf: string)
    requires IsAscii(wf)
    ensures PackData(Str(wf + "\0"), NatToString(|wf| + 1) + "s") == Some(Ascii(wf).value + [0])
  {
    ClassifyChars(|wf| + 1);
    PackString(NatToString(|wf| + 1) + "s", wf + "\0");
    AsciiNul(wf);
  }

  /** A string value under a string dtype is written as its ASCII bytes. */
  lemma PackString(d: string, z: string)
    requires Classify(d) == Chars
    ensures PackData(Str(z), d) == Ascii(z)
  {
  }

  lemma AsciiNul(wf: string)
    requires IsAscii(wf)
    ensures Ascii(wf + "\0") == Some(Ascii(wf).value + [0])
  {
    var z := "\0";
    assert |z| == 1 && z[0] as int == 0 && z[1..] == [];
    assert Ascii(z[1..]) == Some([]);
    var nul: seq<Byte> := [0];
    assert nul + [] == nul;
    assert Ascii(z) == Some(nul);
    AsciiAppend(wf, z);
  }

  /** Encoding a concatenation concatenates the encodings. */
  lemma {:induction false} AsciiAppend(a: string, b: string)
    requires IsAscii(a) && IsAscii(b)
    ensures Ascii(a + b) == Some(Ascii(a).value + Ascii(b).value)
  {
    if a == [] {
      assert a + b == b && Ascii(a) == Some([]);
      assert [] + Ascii(b).value == Ascii(b).value;
    } else {
      var ab := a + b;
      assert ab[0] == a[0] && ab[1..] == a[1..] + b;
      assert IsAscii(a[1..]) && IsAscii(ab);
      AsciiAppend(a[1..], b);
      var x, y := Ascii(a[1..]).value, Ascii(b).value;
      assert Ascii(ab[1..]) == Some(x + y);
      assert Ascii(ab) == Some([a[0] as int] + (x + y));
      assert Ascii(a) == Some([a[0] as int] + x);
      assert [a[0] as int] + (x + y) == ([a[0] as int] + x) + y;
    }
  }

  /** The length record: a signed 32-bit integer that reads back as the length. */
  lemma LengthRecord(n: nat)
    requires n < 0x8000_0000
    ensures PackData(Int(n), "l").Some? && |PackData(Int(n), "l").value| == 4
    ensures UnpackInt(true, PackData(Int(n), "l").value) == n
  {
    PackDataWidths(n, [], "", 0);
    assert Classify("l") == Scalar('l');
    PackIntRoundTrip('l', n);
  }

  /** The data record: word k as bytes 2k (low) and 2k + 1 (high). */
  lemma DataRecord(data: seq<int>)
    requires forall k :: 0 <= k < |data| ==> 0 <= data[k] < 0x1_0000
    ensures PackData(Ints(data), NatToString(|data|) + "H").Some?
    ensures var d := PackData(Ints(data), NatToString(|data|) + "H").value;
            |d| == 2 * |data| &&
            forall k :: 0 <= k < |data| ==> d[2 * k] == data[k] % 256 && d[2 * k + 1] == data[k] / 256
  {
    ClassifyBuilt(|data|);
    PackDataWidths(0, data, "", |data|);
    assert PackData(Ints(data), NatToString(|data|) + "H") == PackInts('H', data);
    ShortsLowFirst(data);
  }

  /** The references of row i: one per channel of `wfname_l`, in its order. */
  lemma {:induction false} RowNamesLayout(i: nat, wfnames: seq<(Ch, seq<string>)>)
    requires RowNames(i, wfnames).Some?
    ensures forall c :: 0 <= c < |wfnames| ==>
              RowNames(i, wfnames).value[c] == RowName(i, wfnames[c].0, wfnames[c].1[i])
  {
    if wfnames != [] {
      var w := wfnames[..|wfnames| - 1];
      RowNamesLayout(i, w);
      assert forall c :: 0 <= c < |w| ==> w[c] == wfnames[c];
    }
  }

  /** The entries of a list of rows, one row after the other. */
  function Concat(rows: seq<seq<Entry>>): (es: seq<Entry>)
    ensures rows != [] ==> IsPrefix(rows[0], es)
  {
    if rows == [] then [] else rows[0] + Concat(rows[1..])
  }

  /** Row i can be read from every list of the table. */
  predicate RowFits(i: nat, nrep: seq<int>, jump: seq<int>, goto: seq<int>, wfnames: seq<(Ch, seq<string>)>)
  {
    i < |nrep| && i < |jump| && i < |goto| && forall c :: 0 <= c < |wfnames| ==> i < |wfnames[c].1|
  }

  /** The sequence section fails (IndexError) exactly when some list is
      shorter than `trig_wait`. */
  lemma {:induction false} SequenceFits(n: nat, trig: seq<int>, nrep: seq<int>, jump: seq<int>,
                                        goto: seq<int>, wfnames: seq<(Ch, seq<string>)>)
    requires n <= |trig|
    ensures SequenceEntries(n, trig, nrep, jump, goto, wfnames).Some? <==>
              forall i :: 0 <= i < n ==> RowFits(i, nrep, jump, goto, wfnames)
  {
    if n > 0 {
      SequenceFits(n - 1, trig, nrep, jump, goto, wfnames);
      assert RowFits(n - 1, nrep, jump, goto, wfnames) <==>
             n - 1 < |nrep| && n - 1 < |jump| && n - 1 < |goto| && RowNames(n - 1, wfnames).Some?;
      assert (forall i :: 0 <= i < n ==> RowFits(i, nrep, jump, goto, wfnames)) <==>
             (forall i :: 0 <= i < n - 1 ==> RowFits(i, nrep, jump, goto, wfnames)) &&
             RowFits(n - 1, nrep, jump, goto, wfnames);
    }
  }

  /** Row i of the table, as written: WAIT, LOOP, JUMP and GOTO of row i+1,
      then one reference per channel. */
  function Row(i: nat, trig: seq<int>, nrep: seq<int>, jump: seq<int>, goto: seq<int>,
               wfnames: seq<(Ch, seq<string>)>): seq<Entry>
    requires i < |trig| && RowFits(i, nrep, jump, goto, wfnames)
  {
    RowHead(i, trig, nrep, jump, goto) + RowNames(i, wfnames).value
  }

  /** The first n rows of the table. */
  function Rows(n: nat, trig: seq<int>, nrep: seq<int>, jump: seq<int>, goto: seq<int>,
                wfnames: seq<(Ch, seq<string>)>): (rows: seq<seq<Entry>>)
    requires n <= |trig| && forall i :: 0 <= i < n ==> RowFits(i, nrep, jump, goto, wfnames)
    ensures |rows| == n && forall i :: 0 <= i < n ==> rows[i] == Row(i, trig, nrep, jump, goto, wfnames)
  {
    if n == 0 then [] else Rows(n - 1, trig, nrep, jump, goto, wfnames) + [Row(n - 1, trig, nrep, jump, goto, wfnames)]
  }

  /** The sequence section is the rows of the table one after the other. */
  lemma {:induction false} SequenceRows(n: nat, trig: seq<int>, nrep: seq<int>, jump: seq<int>,
                                        goto: seq<int>, wfnames: seq<(Ch, seq<string>)>)
    requires n <= |trig| && SequenceEntries(n, trig, nrep, jump, goto, wfnames).Some?
    ensures forall i :: 0 <= i < n ==> RowFits(i, nrep, jump, goto, wfnames)
    ensures SequenceEntries(n, trig, nrep, jump, goto, wfnames).value ==
              Concat(Rows(n, trig, nrep, jump, goto, wfnames))
  {
    SequenceFits(n, trig, nrep, jump, goto, wfnames);
    if n > 0 {
      SequenceRows(n - 1, trig, nrep, jump, goto, wfnames);
      var es := SequenceEntries(n - 1, trig, nrep, jump, goto, wfnames).value;
      var head, names := RowHead(n - 1, trig, nrep, jump, goto), RowNames(n - 1, wfnames).value;
      assert es + head + names == es + (head + names);
      ConcatAppend(Rows(n - 1, trig, nrep, jump, goto, wfnames), Row(n - 1, trig, nrep, jump, goto, wfnames));
    }
  }

  lemma {:induction false} ConcatAppend(rows: seq<seq<Entry>>, row: seq<Entry>)
    ensures Concat(rows + [row]) == Concat(rows) + row
  {
    if rows != [] {
      ConcatAppend(rows[1..], row);
      assert (rows + [row])[1..] == rows[1..] + [row];
    }
  }
}
