/**
 * A pandas DataFrame as the cleaning code uses it: an ordered list of
 * labelled columns of equal length. Labels need not be distinct, as in
 * pandas; selecting a key then finds no column, one, or several.
 */
module Frames {
  import opened Wrappers

  /** One cell: NaN or None, a string, or a number (exact where pandas has float64). */
  datatype Cell = Missing | Str(text: string) | Num(value: real)

  datatype Column = Column(name: string, cells: seq<Cell>)

  /** The exceptions the cleaning steps can raise. */
  datatype Error =
    | KeyError(key: string)        // the key selects no column
    | DuplicateLabel(key: string)  // the key selects several columns, so df[key] is a DataFrame and the Series method fails
    | NotText(key: string)         // the .str accessor on a column holding numbers and no string
    | NotNumeric(key: string)      // median() on a column holding a string

  /** Every column has exactly `rows` cells. */
  predicate Rectangular(cols: seq<Column>, rows: nat)
  {
    forall i :: 0 <= i < |cols| ==> |cols[i].cells| == rows
  }

  /** How many columns carry the key. */
  function Count(cols: seq<Column>, key: string): (n: nat)
    ensures n <= |cols|
    ensures n == 0 <==> forall i :: 0 <= i < |cols| ==> cols[i].name != key
  {
    if cols == [] then 0
    else (if cols[0].name == key then 1 else 0) + Count(cols[1..], key)
  }

  /** The position of the first column with the key. */
  function IndexOf(cols: seq<Column>, key: string): (i: nat)
    requires Count(cols, key) > 0
    ensures i < |cols| && cols[i].name == key
    ensures forall j :: 0 <= j < i ==> cols[j].name != key
  {
    if cols[0].name == key then 0 else 1 + IndexOf(cols[1..], key)
  }

  lemma {:induction false} CountOneIsUnique(cols: seq<Column>, key: string)
    requires Count(cols, key) == 1
    ensures forall j :: 0 <= j < |cols| && j != IndexOf(cols, key) ==> cols[j].name != key
  {
    if cols[0].name != key {
      CountOneIsUnique(cols[1..], key);
      forall j | 0 <= j < |cols| && j != IndexOf(cols, key) ensures cols[j].name != key {
        if j > 0 { assert cols[j] == cols[1..][j - 1]; }
      }
    } else {
      forall j | 0 < j < |cols| ensures cols[j].name != key {
        assert cols[j] == cols[1..][j - 1];
      }
    }
  }

  lemma {:induction false} CountAboveOneHasTwo(cols: seq<Column>, key: string)
    requires Count(cols, key) > 1
    ensures exists i, j :: 0 <= i < j < |cols| && cols[i].name == key && cols[j].name == key
  {
    if cols[0].name == key {
      var j := IndexOf(cols[1..], key);
      assert cols[j + 1] == cols[1..][j];
    } else {
      CountAboveOneHasTwo(cols[1..], key);
      var i, j :| 0 <= i < j < |cols[1..]| && cols[1..][i].name == key && cols[1..][j].name == key;
      assert cols[i + 1] == cols[1..][i] && cols[j + 1] == cols[1..][j];
    }
  }

  /**
   * df[key]: the position of the one column with that key, or the
   * error pandas raises when there is none or more than one.
   */
  function Lookup(cols: seq<Column>, key: string): (r: Result<nat, Error>)
    ensures r.Success? ==> r.value < |cols| && cols[r.value].name == key
    ensures r.Success? ==> forall j :: 0 <= j < |cols| && j != r.value ==> cols[j].name != key
    ensures r == Failure(KeyError(key)) <==> forall j :: 0 <= j < |cols| ==> cols[j].name != key
    ensures r == Failure(DuplicateLabel(key)) <==>
              exists i, j :: 0 <= i < j < |cols| && cols[i].name == key && cols[j].name == key
    ensures r.Failure? ==> r.error == KeyError(key) || r.error == DuplicateLabel(key)
  {
    var n := Count(cols, key);
    if n == 0 then Failure(KeyError(key))
    else if n > 1 then
      CountAboveOneHasTwo(cols, key);
      Failure(DuplicateLabel(key))
    else
      CountOneIsUnique(cols, key);
      Success(IndexOf(cols, key))
  }

  lemma {:induction false} CountReadsLabelsOnly(a: seq<Column>, b: seq<Column>, key: string)
    requires |a| == |b| && forall i :: 0 <= i < |a| ==> a[i].name == b[i].name
    ensures Count(a, key) == Count(b, key)
    ensures Count(a, key) > 0 ==> IndexOf(a, key) == IndexOf(b, key)
  {
    if a != [] {
      CountReadsLabelsOnly(a[1..], b[1..], key);
    }
  }

  /** Lookup sees only the labels. */
  lemma LookupReadsLabelsOnly(a: seq<Column>, b: seq<Column>, key: string)
    requires |a| == |b| && forall i :: 0 <= i < |a| ==> a[i].name == b[i].name
    ensures Lookup(a, key) == Lookup(b, key)
  {
    CountReadsLabelsOnly(a, b, key);
  }

  /** drop(columns=[key]) once the key is known to be present: every column with that key goes. */
  function DropLabel(cols: seq<Column>, key: string): (r: seq<Column>)
    ensures forall i :: 0 <= i < |r| ==> r[i].name != key && r[i] in cols
    ensures |r| == |cols| - Count(cols, key)
  {
    if cols == [] then []
    else (if cols[0].name == key then [] else [cols[0]]) + DropLabel(cols[1..], key)
  }

  lemma {:induction false} DropLabelConcat(a: seq<Column>, b: seq<Column>, key: string)
    ensures DropLabel(a + b, key) == DropLabel(a, key) + DropLabel(b, key)
  {
    if a != [] {
      assert (a + b)[1..] == a[1..] + b;
      DropLabelConcat(a[1..], b, key);
    } else {
      assert a + b == b;
    }
  }

  /** Dropping a label keeps every column labelled otherwise. */
  lemma {:induction false} DropLabelKeepsOthers(cols: seq<Column>, key: string)
    ensures forall c :: c in cols && c.name != key ==> c in DropLabel(cols, key)
  {
    if cols != [] {
      DropLabelKeepsOthers(cols[1..], key);
      assert forall c :: c in cols ==> c == cols[0] || c in cols[1..];
    }
  }

  lemma {:induction false} CountConcat(a: seq<Column>, b: seq<Column>, key: string)
    ensures Count(a + b, key) == Count(a, key) + Count(b, key)
  {
    if a != [] {
      assert (a + b)[1..] == a[1..] + b;
      CountConcat(a[1..], b, key);
    } else {
      assert a + b == b;
    }
  }

  /** Dropping a label leaves the number of columns with any other label as it was. */
  lemma {:induction false} DropLabelKeepsCounts(cols: seq<Column>, key: string, other: string)
    requires other != key
    ensures Count(DropLabel(cols, key), other) == Count(cols, other)
  {
    if cols != [] {
      DropLabelKeepsCounts(cols[1..], key, other);
      var head := if cols[0].name == key then [] else [cols[0]];
      CountConcat(head, DropLabel(cols[1..], key), other);
      assert Count(head, other) == (if cols[0].name == other then 1 else 0);
    }
  }

  /** Dropping an absent label changes nothing. */
  lemma {:induction false} DropAbsentLabel(cols: seq<Column>, key: string)
    requires Count(cols, key) == 0
    ensures DropLabel(cols, key) == cols
  {
    if cols != [] {
      DropAbsentLabel(cols[1..], key);
      assert cols == [cols[0]] + cols[1..];
    }
  }

  class Frame {
    var cols: seq<Column>
    var rows: nat

    ghost predicate Valid()
      reads this
    {
      Rectangular(cols, rows)
    }

    constructor (cols: seq<Column>, rows: nat)
      requires Rectangular(cols, rows)
      ensures Valid() && this.cols == cols && this.rows == rows
    {
      this.cols := cols;
      this.rows := rows;
    }

    /** DataFrame.copy(): a new frame with the same labels and cells. */
    method Copy() returns (t: Frame)
      requires Valid()
      ensures fresh(t) && t.Valid() && t.cols == cols && t.rows == rows
    {
      t := new Frame(cols, rows);
    }

    /** df[key] = cells, for the key that selects column i. */
    method Assign(i: nat, cells: seq<Cell>)
      requires Valid() && i < |cols| && |cells| == rows
      modifies this
      ensures Valid() && rows == old(rows)
      ensures cols == old(cols)[i := Column(old(cols)[i].name, cells)]
    {
      cols := cols[i := Column(cols[i].name, cells)];
    }

    /** df.columns = names */
    method Relabel(names: seq<string>)
      requires Valid() && |names| == |cols|
      modifies this
      ensures Valid() && rows == old(rows) && |cols| == |old(cols)|
      ensures forall i :: 0 <= i < |cols| ==> cols[i] == Column(names[i], old(cols)[i].cells)
    {
      var before := cols;
      cols := seq(|before|, i requires 0 <= i < |before| => Column(names[i], before[i].cells));
    }

    /** df = df.drop(columns=[key]): a KeyError when no column has the key. */
    method Drop(key: string) returns (e: Option<Error>)
      requires Valid()
      modifies this
      ensures Valid() && rows == old(rows)
      ensures e.Some? <==> Count(old(cols), key) == 0
      ensures e.Some? ==> e.value == KeyError(key) && cols == old(cols)
      ensures e.None? ==> cols == DropLabel(old(cols), key)
    {
      if Count(cols, key) == 0 {
        return Some(KeyError(key));
      }
      cols := DropLabel(cols, key);
      e := None;
    }
  }
}
