/**
 * The resize-message scanner of the terminal proxy (handleResize in
 * cluster-manager/terminal.go). An inbound websocket chunk that starts with `{`
 * is searched for the literal keys "cols" and "rows"; the digits after each key
 * are read as a wrapping 16-bit number and a non-zero value replaces the
 * default geometry. The scanner then always applies the size.
 *
 * Go's loop guard `j < len(str) && str[j] == ' ' || str[j] == ':'` binds as
 * `(j < len(str) && str[j] == ' ') || str[j] == ':'`, so the scan indexes past
 * the end of the chunk when nothing but spaces and colons follows a key. That
 * is a run-time panic, modelled here as the outcome `Crash`.
 */
module ResizeScanner {
  import opened Wrappers

  type byte = b: int | 0 <= b < 256
  type uint16 = x: int | 0 <= x < 65536

  const SPACE: byte := 32
  const COLON: byte := 58
  const DIGIT0: byte := 48
  const DIGIT9: byte := 57
  const LBRACE: byte := 123

  /** `"cols"` and `"rows"`, quotes included, as ASCII bytes. */
  const ColsKey: seq<byte> := [34, 99, 111, 108, 115, 34]
  const RowsKey: seq<byte> := [34, 114, 111, 119, 115, 34]
  const KeyLength := 6

  /** The geometry handleResize starts from, whatever was applied before. */
  const DefaultCols: uint16 := 80
  const DefaultRows: uint16 := 24

  datatype Winsize = Winsize(rows: uint16, cols: uint16)

  /** What one call of handleResize does: a run-time panic, or one Setsize call. */
  datatype ResizeOutcome = Crash | Resized(size: Winsize)

  datatype Axis = Cols | Rows

  function Key(a: Axis): seq<byte>
  {
    match a
    case Cols => ColsKey
    case Rows => RowsKey
  }

  function Pick(w: Winsize, a: Axis): uint16
  {
    match a
    case Cols => w.cols
    case Rows => w.rows
  }

  function DefaultOf(a: Axis): uint16
  {
    match a
    case Cols => DefaultCols
    case Rows => DefaultRows
  }

  /** Go's uint16 arithmetic keeps the low 16 bits. */
  function Wrap16(x: int): uint16
  {
    x % 65536
  }

  predicate IsDigit(b: byte)
  {
    DIGIT0 <= b <= DIGIT9
  }

  predicate Skippable(b: byte)
  {
    b == SPACE || b == COLON
  }

  predicate KeyAt(s: seq<byte>, i: nat, key: seq<byte>)
  {
    i + |key| <= |s| && s[i..i + |key|] == key
  }

  // ---------------------------------------------------------------------
  // The scanner as functions

  /**
   * Where the space-and-colon skip loop started at j stops, or None when it
   * evaluates `str[j]` with j at or beyond the end.
   */
  function SkipEnd(s: seq<byte>, j: nat): Option<nat>
    decreases |s| - j
  {
    if j >= |s| then None
    else if Skippable(s[j]) then SkipEnd(s, j + 1)
    else Some(j)
  }

  /** The digit loop: accumulates the digit run from j onto acc in uint16 arithmetic. */
  function DigitRun(s: seq<byte>, j: nat, acc: uint16): uint16
    decreases |s| - j
  {
    if j < |s| && IsDigit(s[j]) then DigitRun(s, j + 1, Wrap16(Wrap16(acc * 10) + (s[j] - DIGIT0)))
    else acc
  }

  /** The number read for a key found at i, or None when the skip loop panics. */
  function FieldValue(s: seq<byte>, i: nat): Option<uint16>
  {
    match SkipEnd(s, i + KeyLength + 1)
    case None => None
    case Some(j) => Some(DigitRun(s, j, 0))
  }

  /** The outer loop from position i on, with the geometry found so far. */
  function ScanFrom(s: seq<byte>, i: nat, cols: uint16, rows: uint16): (r: ResizeOutcome)
    requires cols > 0 && rows > 0
    ensures r.Resized? ==> r.size.cols > 0 && r.size.rows > 0
    decreases |s| - i
  {
    if i + KeyLength > |s| then Resized(Winsize(rows, cols))
    else if KeyAt(s, i, ColsKey) then
      match FieldValue(s, i)
      case None => Crash
      case Some(v) => ScanFrom(s, i + 1, if v > 0 then v else cols, rows)
    else if KeyAt(s, i, RowsKey) then
      match FieldValue(s, i)
      case None => Crash
      case Some(v) => ScanFrom(s, i + 1, cols, if v > 0 then v else rows)
    else ScanFrom(s, i + 1, cols, rows)
  }

  /** handleResize on one chunk. Chunks of 10 bytes or fewer are not scanned. */
  function Resize(s: seq<byte>): ResizeOutcome
  {
    if |s| > 10 then ScanFrom(s, 0, DefaultCols, DefaultRows)
    else Resized(Winsize(DefaultRows, DefaultCols))
  }

  // ---------------------------------------------------------------------
  // The scanner as the source writes it

  /** The skip loop and the digit loop after a key found at i. */
  method ReadField(s: seq<byte>, i: nat) returns (v: Option<uint16>)
    ensures v == FieldValue(s, i)
  {
    var j := i + KeyLength + 1;
    while true
      invariant i + KeyLength + 1 <= j <= |s| + i + KeyLength + 1
      invariant SkipEnd(s, j) == SkipEnd(s, i + KeyLength + 1)
      decreases |s| + 1 - j
    {
      if j < |s| && s[j] == SPACE {
        j := j + 1;
      } else if j >= |s| {
        // Go evaluates str[j] here: index out of range
        return None;
      } else if s[j] == COLON {
        j := j + 1;
      } else {
        break;
      }
    }
    var start := j;
    var num: uint16 := 0;
    while j < |s| && DIGIT0 <= s[j] <= DIGIT9
      invariant start <= j
      invariant DigitRun(s, j, num) == DigitRun(s, start, 0)
      decreases |s| - j
    {
      num := Wrap16(Wrap16(num * 10) + (s[j] - DIGIT0));
      j := j + 1;
    }
    v := Some(num);
  }

  /** handleResize: the result is the Setsize call it makes, or the panic. */
  method HandleResize(data: seq<byte>) returns (r: ResizeOutcome)
    ensures r == Resize(data)
  {
    var cols, rows := DefaultCols, DefaultRows;
    if |data| > 10 {
      var i := 0;
      while i < |data| - 5
        invariant 0 <= i <= |data| - 5
        invariant cols > 0 && rows > 0
        invariant ScanFrom(data, i, cols, rows) == Resize(data)
      {
        if data[i..i + 6] == ColsKey {
          var v := ReadField(data, i);
          if v.None? {
            return Crash;
          }
          if v.value > 0 {
            cols := v.value;
          }
        }
        if data[i..i + 6] == RowsKey {
          var v := ReadField(data, i);
          if v.None? {
            return Crash;
          }
          if v.value > 0 {
            rows := v.value;
          }
        }
        i := i + 1;
      }
    }
    r := Resized(Winsize(rows, cols));
  }

  // ---------------------------------------------------------------------
  // What the scanner computes

  /** The decimal value of a run of ASCII digits, without any wrap-around. */
  function DecimalValue(ds: seq<byte>): nat
    requires forall k :: 0 <= k < |ds| ==> IsDigit(ds[k])
  {
    if ds == [] then 0
    else
      assert IsDigit(ds[|ds| - 1]);
      DecimalValue(ds[..|ds| - 1]) * 10 + (ds[|ds| - 1] - DIGIT0)
  }

  /** The end of the digit run that starts at j. */
  function DigitsEnd(s: seq<byte>, j: nat): (e: nat)
    requires j <= |s|
    ensures j <= e <= |s|
    ensures forall k :: j <= k < e ==> IsDigit(s[k])
    ensures e == |s| || !IsDigit(s[e])
    decreases |s| - j
  {
    if j < |s| && IsDigit(s[j]) then DigitsEnd(s, j + 1) else j
  }

  predicate AllSkippable(s: seq<byte>, j: nat)
  {
    forall m :: j <= m < |s| ==> Skippable(s[m])
  }

  /** A key at k whose value the skip loop runs past the end for. */
  predicate CrashesAt(s: seq<byte>, k: nat)
  {
    (KeyAt(s, k, ColsKey) || KeyAt(s, k, RowsKey)) && AllSkippable(s, k + KeyLength + 1)
  }

  /** A key for axis a at k with a non-zero value. */
  predicate SetsAxisAt(s: seq<byte>, k: nat, a: Axis)
  {
    KeyAt(s, k, Key(a)) && FieldValue(s, k).Some? && FieldValue(s, k).value > 0
  }

  lemma ModStep(a: int, d: int)
    ensures Wrap16(Wrap16(Wrap16(a) * 10) + d) == Wrap16(a * 10 + d)
  {
    var q := a / 65536;
    var r := a % 65536;
    assert a * 10 + d == (r * 10 + d) + (q * 10) * 65536;
    var q2 := (r * 10) / 65536;
    assert r * 10 == Wrap16(r * 10) + q2 * 65536;
    assert r * 10 + d == (Wrap16(r * 10) + d) + q2 * 65536;
  }

  /** The skip loop panics exactly when only spaces and colons remain. */
  lemma {:induction false} SkipEndNone(s: seq<byte>, j: nat)
    ensures SkipEnd(s, j) == None <==> AllSkippable(s, j)
    decreases |s| - j
  {
    if j < |s| && Skippable(s[j]) {
      SkipEndNone(s, j + 1);
      assert AllSkippable(s, j) <==> AllSkippable(s, j + 1);
    }
  }

  /** Where the skip loop stops, the byte is the first one that is neither a space nor a colon. */
  lemma {:induction false} SkipEndStops(s: seq<byte>, j: nat)
    requires SkipEnd(s, j).Some?
    ensures j <= SkipEnd(s, j).value < |s|
    ensures !Skippable(s[SkipEnd(s, j).value])
    ensures forall m :: j <= m < SkipEnd(s, j).value ==> Skippable(s[m])
    decreases |s| - j
  {
    if Skippable(s[j]) {
      SkipEndStops(s, j + 1);
    }
  }

  lemma {:induction false} DigitRunDecimal(s: seq<byte>, j: nat, p: seq<byte>)
    requires j <= |s|
    requires forall k :: 0 <= k < |p| ==> IsDigit(p[k])
    ensures var e := DigitsEnd(s, j);
      (forall k :: 0 <= k < |p + s[j..e]| ==> IsDigit((p + s[j..e])[k])) &&
      DigitRun(s, j, Wrap16(DecimalValue(p))) == Wrap16(DecimalValue(p + s[j..e]))
    decreases |s| - j
  {
    var e := DigitsEnd(s, j);
    if j < |s| && IsDigit(s[j]) {
      var p' := p + [s[j]];
      assert p'[..|p'| - 1] == p;
      ModStep(DecimalValue(p), s[j] - DIGIT0);
      assert Wrap16(Wrap16(Wrap16(DecimalValue(p)) * 10) + (s[j] - DIGIT0)) == Wrap16(DecimalValue(p'));
      DigitRunDecimal(s, j + 1, p');
      assert p' + s[j + 1..e] == p + s[j..e];
    } else {
      assert s[j..e] == [];
      assert p + s[j..e] == p;
    }
  }

  /**
   * A key's value is the decimal number formed by the digits after the key,
   * one skipped byte and any spaces and colons, taken modulo 65536.
   */
  lemma FieldValueIsDecimalMod(s: seq<byte>, i: nat)
    requires FieldValue(s, i).Some?
    ensures var j := SkipEnd(s, i + KeyLength + 1).value;
      j < |s| && !Skippable(s[j]) &&
      (forall m :: i + KeyLength + 1 <= m < j ==> Skippable(s[m])) &&
      FieldValue(s, i).value == Wrap16(DecimalValue(s[j..DigitsEnd(s, j)]))
  {
    var j := SkipEnd(s, i + KeyLength + 1).value;
    SkipEndStops(s, i + KeyLength + 1);
    assert FieldValue(s, i).value == DigitRun(s, j, 0);
    var ds := s[j..DigitsEnd(s, j)];
    DigitRunDecimal(s, j, []);
    assert Wrap16(DecimalValue([])) == 0;
    assert [] + ds == ds;
  }

  lemma {:induction false} ScanFromCrash(s: seq<byte>, i: nat, cols: uint16, rows: uint16)
    requires cols > 0 && rows > 0
    ensures ScanFrom(s, i, cols, rows) == Crash <==> exists k :: i <= k && CrashesAt(s, k)
    decreases |s| - i
  {
    if i + KeyLength > |s| {
      forall k | i <= k ensures !CrashesAt(s, k) { }
    } else {
      SkipEndNone(s, i + KeyLength + 1);
      if KeyAt(s, i, ColsKey) || KeyAt(s, i, RowsKey) {
        match FieldValue(s, i)
        case None =>
          assert CrashesAt(s, i);
        case Some(v) =>
          var c := if KeyAt(s, i, ColsKey) && v > 0 then v else cols;
          var r := if KeyAt(s, i, RowsKey) && v > 0 then v else rows;
          assert ColsKey != RowsKey by { assert ColsKey[1] != RowsKey[1]; }
          assert ScanFrom(s, i, cols, rows) == ScanFrom(s, i + 1, c, r);
          ScanFromCrash(s, i + 1, c, r);
          assert !CrashesAt(s, i);
          assert (exists k :: i <= k && CrashesAt(s, k)) ==> (exists k :: i + 1 <= k && CrashesAt(s, k));
      } else {
        ScanFromCrash(s, i + 1, cols, rows);
        assert !CrashesAt(s, i);
        assert (exists k :: i <= k && CrashesAt(s, k)) ==> (exists k :: i + 1 <= k && CrashesAt(s, k));
      }
    }
  }

  /**
   * handleResize panics exactly when the chunk is longer than 10 bytes and
   * some "cols" or "rows" key in it is followed, one byte on, by nothing but
   * spaces and colons (or by nothing at all).
   */
  lemma ResizeCrashes(s: seq<byte>)
    ensures Resize(s) == Crash <==> |s| > 10 && exists k :: CrashesAt(s, k)
  {
    if |s| > 10 {
      ScanFromCrash(s, 0, DefaultCols, DefaultRows);
    }
  }

  lemma {:induction false} ScanFromKeeps(s: seq<byte>, i: nat, cols: uint16, rows: uint16, a: Axis)
    requires cols > 0 && rows > 0
    requires ScanFrom(s, i, cols, rows).Resized?
    requires forall k :: i <= k ==> !SetsAxisAt(s, k, a)
    ensures Pick(ScanFrom(s, i, cols, rows).size, a) == Pick(Winsize(rows, cols), a)
    decreases |s| - i
  {
    if i + KeyLength <= |s| {
      assert !SetsAxisAt(s, i, a);
      assert ColsKey != RowsKey by { assert ColsKey[1] != RowsKey[1]; }
      if KeyAt(s, i, ColsKey) {
        var v := FieldValue(s, i).value;
        ScanFromKeeps(s, i + 1, if v > 0 then v else cols, rows, a);
      } else if KeyAt(s, i, RowsKey) {
        var v := FieldValue(s, i).value;
        ScanFromKeeps(s, i + 1, cols, if v > 0 then v else rows, a);
      } else {
        ScanFromKeeps(s, i + 1, cols, rows, a);
      }
    }
  }

  /** The columns after the outer loop's step at i. */
  function StepCols(s: seq<byte>, i: nat, cols: uint16): uint16
  {
    if KeyAt(s, i, ColsKey) && FieldValue(s, i).Some? && FieldValue(s, i).value > 0 then FieldValue(s, i).value
    else cols
  }

  /** The rows after the outer loop's step at i. */
  function StepRows(s: seq<byte>, i: nat, rows: uint16): uint16
  {
    if KeyAt(s, i, RowsKey) && FieldValue(s, i).Some? && FieldValue(s, i).value > 0 then FieldValue(s, i).value
    else rows
  }

  /** One step of the outer loop on a path that does not panic. */
  lemma ScanStep(s: seq<byte>, i: nat, cols: uint16, rows: uint16)
    requires cols > 0 && rows > 0 && i + KeyLength <= |s|
    requires ScanFrom(s, i, cols, rows).Resized?
    ensures ScanFrom(s, i, cols, rows) == ScanFrom(s, i + 1, StepCols(s, i, cols), StepRows(s, i, rows))
  {
    assert ColsKey != RowsKey by { assert ColsKey[1] != RowsKey[1]; }
  }

  lemma {:induction false} ScanFromLastWins(s: seq<byte>, i: nat, cols: uint16, rows: uint16, a: Axis, k: nat)
    requires cols > 0 && rows > 0
    requires ScanFrom(s, i, cols, rows).Resized?
    requires i <= k && SetsAxisAt(s, k, a)
    requires forall k' :: k < k' ==> !SetsAxisAt(s, k', a)
    ensures Pick(ScanFrom(s, i, cols, rows).size, a) == FieldValue(s, k).value
    decreases k - i
  {
    ScanStep(s, i, cols, rows);
    var c, r := StepCols(s, i, cols), StepRows(s, i, rows);
    if i == k {
      assert Pick(Winsize(r, c), a) == FieldValue(s, k).value by {
        assert ColsKey != RowsKey by { assert ColsKey[1] != RowsKey[1]; }
      }
      ScanFromKeeps(s, i + 1, c, r, a);
    } else {
      ScanFromLastWins(s, i + 1, c, r, a, k);
    }
  }

  /**
   * An axis that no key in the chunk gives a non-zero value to, and both axes
   * of a chunk of 10 bytes or fewer, get the constant default (80 columns,
   * 24 rows), never the previously applied geometry. Every applied size is
   * positive on both axes.
   */
  lemma ResizeDefault(s: seq<byte>, a: Axis)
    requires Resize(s).Resized?
    requires |s| <= 10 || forall k :: !SetsAxisAt(s, k, a)
    ensures Pick(Resize(s).size, a) == DefaultOf(a)
    ensures Resize(s).size.cols > 0 && Resize(s).size.rows > 0
  {
    if |s| > 10 {
      ScanFromKeeps(s, 0, DefaultCols, DefaultRows, a);
    }
  }

  /** When a key occurs several times, the last occurrence with a non-zero value wins. */
  lemma ResizeLastOccurrenceWins(s: seq<byte>, a: Axis, k: nat)
    requires |s| > 10 && Resize(s).Resized?
    requires SetsAxisAt(s, k, a)
    requires forall k' :: k < k' ==> !SetsAxisAt(s, k', a)
    ensures Pick(Resize(s).size, a) == FieldValue(s, k).value
  {
    ScanFromLastWins(s, 0, DefaultCols, DefaultRows, a, k);
  }

  // ---------------------------------------------------------------------
  // Examples

  /** Positions that hold no key leave the scan unchanged. */
  lemma {:induction false} ScanFromSkips(s: seq<byte>, i: nat, j: nat, cols: uint16, rows: uint16)
    requires cols > 0 && rows > 0
    requires i <= j
    requires j <= |s|
    requires forall k :: i <= k < j && k + KeyLength <= |s| ==> s[k] != 34 || (s[k + 1] != 99 && s[k + 1] != 114)
    ensures ScanFrom(s, i, cols, rows) == ScanFrom(s, j, cols, rows)
    decreases j - i
  {
    if i < j {
      if i + KeyLength <= |s| {
        assert s[i..i + KeyLength][0] == s[i] && s[i..i + KeyLength][1] == s[i + 1];
      }
      ScanFromSkips(s, i + 1, j, cols, rows);
    }
  }

  /** `{"cols":100,"rows":40}` resizes to 100 columns by 40 rows. */
  lemma ExampleBothFields()
    ensures Resize([123, 34, 99, 111, 108, 115, 34, 58, 49, 48, 48, 44, 34, 114, 111, 119, 115, 34, 58, 52, 48, 125])
         == Resized(Winsize(40, 100))
  {
    var s: seq<byte> := [123, 34, 99, 111, 108, 115, 34, 58, 49, 48, 48, 44, 34, 114, 111, 119, 115, 34, 58, 52, 48, 125];
    BothFieldsScan(s);
  }

  lemma BothFieldsScan(s: seq<byte>)
    requires s == [123, 34, 99, 111, 108, 115, 34, 58, 49, 48, 48, 44, 34, 114, 111, 119, 115, 34, 58, 52, 48, 125]
    ensures ScanFrom(s, 0, 80, 24) == Resized(Winsize(40, 100))
  {
    BothFieldsValues(s);
    BothFieldsGaps(s);
    ScanFromSkips(s, 0, 1, 80, 24);
    ScanFromSkips(s, 2, 12, 100, 24);
    ScanFromSkips(s, 13, 22, 100, 40);
  }

  lemma BothFieldsGaps(s: seq<byte>)
    requires s == [123, 34, 99, 111, 108, 115, 34, 58, 49, 48, 48, 44, 34, 114, 111, 119, 115, 34, 58, 52, 48, 125]
    ensures forall k :: 0 <= k < 1 ==> s[k] != 34
    ensures forall k :: 2 <= k < 12 && k + KeyLength <= |s| ==> s[k] != 34 || (s[k + 1] != 99 && s[k + 1] != 114)
    ensures forall k :: 13 <= k < 22 && k + KeyLength <= |s| ==> s[k] != 34 || (s[k + 1] != 99 && s[k + 1] != 114)
  {
  }

  lemma BothFieldsValues(s: seq<byte>)
    requires s == [123, 34, 99, 111, 108, 115, 34, 58, 49, 48, 48, 44, 34, 114, 111, 119, 115, 34, 58, 52, 48, 125]
    ensures ScanFrom(s, 1, 80, 24) == ScanFrom(s, 2, 100, 24)
    ensures ScanFrom(s, 12, 100, 24) == ScanFrom(s, 13, 100, 40)
  {
    assert s[1..7] == ColsKey;
    assert s[12..18] == RowsKey;
    assert s[12..18] != ColsKey;
    assert SkipEnd(s, 8) == Some(8);
    assert DigitRun(s, 8, 0) == DigitRun(s, 9, 1) == DigitRun(s, 10, 10) == DigitRun(s, 11, 100) == 100;
    assert SkipEnd(s, 19) == Some(19);
    assert DigitRun(s, 19, 0) == DigitRun(s, 20, 4) == DigitRun(s, 21, 40) == 40;
  }

  /** `{"cols":0,"rows":40}`: a zero column count falls back to the constant 80. */
  lemma ExampleZeroField()
    ensures Resize([123, 34, 99, 111, 108, 115, 34, 58, 48, 44, 34, 114, 111, 119, 115, 34, 58, 52, 48, 125]) == Resized(Winsize(40, 80))
  {
    var s: seq<byte> := [123, 34, 99, 111, 108, 115, 34, 58, 48, 44, 34, 114, 111, 119, 115, 34, 58, 52, 48, 125];
    ZeroFieldValues(s);
    ZeroFieldGaps(s);
    ScanFromSkips(s, 0, 1, 80, 24);
    ScanFromSkips(s, 2, 10, 80, 24);
    ScanFromSkips(s, 11, 20, 80, 40);
  }

  lemma ZeroFieldValues(s: seq<byte>)
    requires s == [123, 34, 99, 111, 108, 115, 34, 58, 48, 44, 34, 114, 111, 119, 115, 34, 58, 52, 48, 125]
    ensures ScanFrom(s, 1, 80, 24) == ScanFrom(s, 2, 80, 24)
    ensures ScanFrom(s, 10, 80, 24) == ScanFrom(s, 11, 80, 40)
  {
    assert s[1..7] == ColsKey;
    assert s[10..16] == RowsKey;
    assert s[10..16] != ColsKey;
    assert SkipEnd(s, 8) == Some(8);
    assert DigitRun(s, 8, 0) == DigitRun(s, 9, 0) == 0;
    assert SkipEnd(s, 17) == Some(17);
    assert DigitRun(s, 17, 0) == DigitRun(s, 18, 4) == DigitRun(s, 19, 40) == 40;
  }

  lemma ZeroFieldGaps(s: seq<byte>)
    requires s == [123, 34, 99, 111, 108, 115, 34, 58, 48, 44, 34, 114, 111, 119, 115, 34, 58, 52, 48, 125]
    ensures forall k :: 0 <= k < 1 && k + KeyLength <= |s| ==> s[k] != 34 || (s[k + 1] != 99 && s[k + 1] != 114)
    ensures forall k :: 2 <= k < 10 && k + KeyLength <= |s| ==> s[k] != 34 || (s[k + 1] != 99 && s[k + 1] != 114)
    ensures forall k :: 11 <= k < 20 && k + KeyLength <= |s| ==> s[k] != 34 || (s[k + 1] != 99 && s[k + 1] != 114)
  {
  }

  /** `{"cols":65616}`: 65616 wraps around to 80 in 16 bits; the rows default to 24. */
  lemma ExampleWrapAround()
    ensures Resize([123, 34, 99, 111, 108, 115, 34, 58, 54, 53, 54, 49, 54, 125]) == Resized(Winsize(24, 80))
  {
    var s: seq<byte> := [123, 34, 99, 111, 108, 115, 34, 58, 54, 53, 54, 49, 54, 125];
    WrapAroundValues(s);
    WrapAroundGaps(s);
    ScanFromSkips(s, 0, 1, 80, 24);
    ScanFromSkips(s, 2, 14, 80, 24);
  }

  lemma WrapAroundValues(s: seq<byte>)
    requires s == [123, 34, 99, 111, 108, 115, 34, 58, 54, 53, 54, 49, 54, 125]
    ensures ScanFrom(s, 1, 80, 24) == ScanFrom(s, 2, 80, 24)
  {
    assert s[1..7] == ColsKey;
    assert SkipEnd(s, 8) == Some(8);
    assert DigitRun(s, 8, 0) == DigitRun(s, 9, 6) == DigitRun(s, 10, 65) == DigitRun(s, 11, 656);
    assert DigitRun(s, 11, 656) == DigitRun(s, 12, 6561) == DigitRun(s, 13, 80) == 80;
  }

  lemma WrapAroundGaps(s: seq<byte>)
    requires s == [123, 34, 99, 111, 108, 115, 34, 58, 54, 53, 54, 49, 54, 125]
    ensures forall k :: 0 <= k < 1 && k + KeyLength <= |s| ==> s[k] != 34 || (s[k + 1] != 99 && s[k + 1] != 114)
    ensures forall k :: 2 <= k < 14 && k + KeyLength <= |s| ==> s[k] != 34 || (s[k + 1] != 99 && s[k + 1] != 114)
  {
  }

  /** `{"rows":40,"cols"`: nothing follows the last key, so the skip loop indexes past the end. */
  lemma ExampleTruncatedCrashes()
    ensures Resize([123, 34, 114, 111, 119, 115, 34, 58, 52, 48, 44, 34, 99, 111, 108, 115, 34]) == Crash
  {
    var s: seq<byte> := [123, 34, 114, 111, 119, 115, 34, 58, 52, 48, 44, 34, 99, 111, 108, 115, 34];
    TruncatedValues(s);
    TruncatedGaps(s);
    ScanFromSkips(s, 0, 1, 80, 24);
    ScanFromSkips(s, 2, 11, 80, 40);
  }

  lemma TruncatedValues(s: seq<byte>)
    requires s == [123, 34, 114, 111, 119, 115, 34, 58, 52, 48, 44, 34, 99, 111, 108, 115, 34]
    ensures ScanFrom(s, 1, 80, 24) == ScanFrom(s, 2, 80, 40)
    ensures ScanFrom(s, 11, 80, 40) == Crash
  {
    assert s[1..7] == RowsKey;
    assert s[1..7] != ColsKey;
    assert s[11..17] == ColsKey;
    assert SkipEnd(s, 8) == Some(8);
    assert DigitRun(s, 8, 0) == DigitRun(s, 9, 4) == DigitRun(s, 10, 40) == 40;
    assert SkipEnd(s, 18) == None;
  }

  lemma TruncatedGaps(s: seq<byte>)
    requires s == [123, 34, 114, 111, 119, 115, 34, 58, 52, 48, 44, 34, 99, 111, 108, 115, 34]
    ensures forall k :: 0 <= k < 1 && k + KeyLength <= |s| ==> s[k] != 34 || (s[k + 1] != 99 && s[k + 1] != 114)
    ensures forall k :: 2 <= k < 11 && k + KeyLength <= |s| ==> s[k] != 34 || (s[k + 1] != 99 && s[k + 1] != 114)
  {
  }
}
