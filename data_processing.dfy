/**
 * The cleaning steps of src/data_processing.py. Each step takes a frame,
 * makes a copy, rewrites the named columns of the copy one label at a time
 * and returns the copy. A label a step cannot use raises in pandas; here the
 * step returns a Failure carrying that error.
 */
module DataProcessing {
  import opened Wrappers
  import opened Strings
  import opened Numeric
  import opened Statistics
  import opened Frames

  const MonetaryColumns: seq<string> := ["cost", "sale_amount"]
  const CategoricalColumns: seq<string> := ["campaign_name", "location", "device", "keyword"]
  const FillColumns: seq<string> := ["clicks", "impressions", "cost", "leads", "conversions", "sale_amount"]
  const SparseColumn: string := "conversion_rate"
  const DateColumn: string := "ad_date"

  const CampaignCorrections: map<string, string> := map[
    "data anlytics corse" := "data analytics course",
    "data analytcis course" := "data analytics course",
    "data analytics corse" := "data analytics course",
    "dataanalyticscourse" := "data analytics course"
  ]
  const LocationCorrections: map<string, string> := map[
    "hyderbad" := "hyderabad",
    "hydrebad" := "hyderabad"
  ]
  const KeywordCorrections: map<string, string> := map[
    "data analitics online" := "data analytics online",
    "data anaytics training" := "data analytics training",
    "online data analytic" := "online data analytics"
  ]

  // ---------------------------------------------------------------------------
  // Shared shape of the steps: a loop over a fixed list of labels.
  // ---------------------------------------------------------------------------

  predicate Distinct(keys: seq<string>)
  {
    forall i, j :: 0 <= i < j < |keys| ==> keys[i] != keys[j]
  }

  /** A rewrite of one column that keeps its label and its length. */
  ghost predicate ColumnwiseRewrite(f: Column -> Column)
  {
    forall c :: f(c).name == c.name && |f(c).cells| == |c.cells|
  }

  /**
   * `after` is `before` with every column labelled in `keys` replaced by f of
   * itself: all other columns, the order of the columns and their number are
   * as they were.
   */
  ghost predicate Rewrites(before: seq<Column>, after: seq<Column>, keys: seq<string>, f: Column -> Column)
  {
    && |after| == |before|
    && forall i :: 0 <= i < |before| ==> after[i] == if before[i].name in keys then f(before[i]) else before[i]
  }

  /** What a step needs of the values of a column besides its being selectable. */
  datatype Use = AnyValues | TextValues | NumberValues

  predicate HasText(cells: seq<Cell>)
  {
    exists j :: 0 <= j < |cells| && cells[j].Str?
  }

  predicate HasNumber(cells: seq<Cell>)
  {
    exists j :: 0 <= j < |cells| && cells[j].Num?
  }

  /** The error, if any, a step raises when it reaches the label `key`. */
  function ColumnError(cols: seq<Column>, key: string, use: Use): Option<Error>
  {
    match Lookup(cols, key)
    case Failure(e) => Some(e)
    case Success(i) =>
      if use == TextValues && !HasText(cols[i].cells) && HasNumber(cols[i].cells) then Some(NotText(key))
      else if use == NumberValues && HasText(cols[i].cells) then Some(NotNumeric(key))
      else None
  }

  /** The error raised by the first label of `keys` that fails, in loop order. */
  function FirstError(cols: seq<Column>, keys: seq<string>, use: Use): (r: Option<Error>)
    ensures r.None? <==> forall k :: 0 <= k < |keys| ==> ColumnError(cols, keys[k], use).None?
  {
    if keys == [] then None
    else
      var init := keys[..|keys| - 1];
      assert forall k :: 0 <= k < |init| ==> init[k] == keys[k];
      match FirstError(cols, init, use)
      case Some(e) => Some(e)
      case None => ColumnError(cols, keys[|keys| - 1], use)
  }

  /** The error is the one of a label all of whose predecessors passed. */
  lemma {:induction false} FirstErrorIsFirst(cols: seq<Column>, keys: seq<string>, use: Use)
    requires FirstError(cols, keys, use).Some?
    ensures exists k :: 0 <= k < |keys| && ColumnError(cols, keys[k], use) == FirstError(cols, keys, use)
                      && forall j :: 0 <= j < k ==> ColumnError(cols, keys[j], use).None?
  {
    var init := keys[..|keys| - 1];
    if FirstError(cols, init, use).Some? {
      FirstErrorIsFirst(cols, init, use);
      var k :| 0 <= k < |init| && ColumnError(cols, init[k], use) == FirstError(cols, init, use)
               && forall j :: 0 <= j < k ==> ColumnError(cols, init[j], use).None?;
      assert init[k] == keys[k];
      assert forall j :: 0 <= j < k ==> init[j] == keys[j];
    } else {
      var k := |keys| - 1;
      assert forall j :: 0 <= j < k ==> init[j] == keys[j];
    }
  }

  /** Once a prefix of the labels has failed, the loop has failed with the same error. */
  lemma {:induction false} FirstErrorSticks(cols: seq<Column>, keys: seq<string>, n: nat, use: Use)
    requires n <= |keys| && FirstError(cols, keys[..n], use).Some?
    ensures FirstError(cols, keys, use) == FirstError(cols, keys[..n], use)
    decreases |keys|
  {
    if n < |keys| {
      var init := keys[..|keys| - 1];
      assert init[..n] == keys[..n];
      FirstErrorSticks(cols, init, n, use);
    } else {
      assert keys[..n] == keys;
    }
  }

  lemma ColumnErrorReadsOneColumn(a: seq<Column>, b: seq<Column>, key: string, use: Use)
    requires |a| == |b| && forall i :: 0 <= i < |a| ==> a[i].name == b[i].name
    requires forall i :: 0 <= i < |a| && a[i].name == key ==> a[i] == b[i]
    ensures ColumnError(a, key, use) == ColumnError(b, key, use)
  {
    LookupReadsLabelsOnly(a, b, key);
  }

  /** A step fails when one of its labels is absent; with KeyError of that label when every earlier label passed. */
  lemma AbsentKeyFails(cols: seq<Column>, keys: seq<string>, use: Use, k: nat)
    requires k < |keys| && forall i :: 0 <= i < |cols| ==> cols[i].name != keys[k]
    ensures FirstError(cols, keys, use).Some?
    ensures (forall j :: 0 <= j < k ==> ColumnError(cols, keys[j], use).None?) ==>
              FirstError(cols, keys, use) == Some(KeyError(keys[k]))
  {
    assert ColumnError(cols, keys[k], use) == Some(KeyError(keys[k]));
    if forall j :: 0 <= j < k ==> ColumnError(cols, keys[j], use).None? {
      assert forall j :: 0 <= j < k ==> keys[..k][j] == keys[j];
      FailsAt(cols, keys, k, use);
    }
  }

  /** One turn of the loop below: the column labelled keys[k] is rewritten. */
  lemma RewritesOneMore(before: seq<Column>, now: seq<Column>, keys: seq<string>, k: nat, i: nat, f: Column -> Column)
    requires ColumnwiseRewrite(f) && Distinct(keys) && k < |keys|
    requires Rewrites(before, now, keys[..k], f)
    requires i < |before| && before[i].name == keys[k]
    requires forall j :: 0 <= j < |before| && j != i ==> before[j].name != keys[k]
    ensures Rewrites(before, now[i := Column(now[i].name, f(now[i]).cells)], keys[..k + 1], f)
  {
    assert keys[..k + 1] == keys[..k] + [keys[k]];
    assert keys[k] !in keys[..k];
    assert now[i] == before[i];
    assert Column(f(before[i]).name, f(before[i]).cells) == f(before[i]);
  }

  /** A label that fails ends the loop with its error. */
  lemma FailsAt(before: seq<Column>, keys: seq<string>, k: nat, use: Use)
    requires k < |keys| && FirstError(before, keys[..k], use).None?
    requires ColumnError(before, keys[k], use).Some?
    ensures FirstError(before, keys, use) == ColumnError(before, keys[k], use)
  {
    assert keys[..k + 1][..k] == keys[..k];
    FirstErrorSticks(before, keys, k + 1, use);
  }

  /** A label that passes extends the prefix that passed. */
  lemma PassesAt(before: seq<Column>, keys: seq<string>, k: nat, use: Use)
    requires k < |keys| && FirstError(before, keys[..k], use).None?
    requires ColumnError(before, keys[k], use).None?
    ensures FirstError(before, keys[..k + 1], use).None?
  {
    assert keys[..k + 1][..k] == keys[..k];
  }

  /**
   * The loop `for col in keys: df_clean[col] = f(df_clean[col])` on the copy
   * `clean`: each label in turn is looked up and checked, then its column is
   * replaced. It stops at the first label that fails.
   */
  method RewriteColumns(clean: Frame, keys: seq<string>, use: Use, f: Column -> Column) returns (e: Option<Error>)
    requires clean.Valid() && Distinct(keys) && ColumnwiseRewrite(f)
    modifies clean
    ensures clean.Valid() && clean.rows == old(clean.rows)
    ensures e == FirstError(old(clean.cols), keys, use)
    ensures e.None? ==> Rewrites(old(clean.cols), clean.cols, keys, f)
  {
    ghost var before := clean.cols;
    for k := 0 to |keys|
      invariant clean.Valid() && clean.rows == old(clean.rows)
      invariant FirstError(before, keys[..k], use).None?
      invariant Rewrites(before, clean.cols, keys[..k], f)
    {
      var key := keys[k];
      assert key !in keys[..k];
      ColumnErrorReadsOneColumn(before, clean.cols, key, use);
      var err := ColumnError(clean.cols, key, use);
      if err.Some? {
        FailsAt(before, keys, k, use);
        return err;
      }
      PassesAt(before, keys, k, use);
      var i := Lookup(clean.cols, key).value;
      RewritesOneMore(before, clean.cols, keys, k, i, f);
      clean.Assign(i, f(clean.cols[i]).cells);
    }
    assert keys[..|keys|] == keys;
    e := None;
  }

  /** Applying the same step twice gives what applying it once gave, when its column rewrite is idempotent. */
  lemma RewritesTwice(a: seq<Column>, b: seq<Column>, c: seq<Column>, keys: seq<string>, f: Column -> Column)
    requires ColumnwiseRewrite(f)
    requires forall x: Column :: x.name in keys ==> f(f(x)) == f(x)
    requires Rewrites(a, b, keys, f) && Rewrites(b, c, keys, f)
    ensures c == b
  {
    forall i | 0 <= i < |b| ensures c[i] == b[i] {
      if a[i].name in keys {
        assert f(a[i]).name == a[i].name;
      }
    }
  }

  /** Whether a column's values pass the check a step makes of them. */
  predicate CellsPass(cells: seq<Cell>, use: Use)
  {
    match use
    case AnyValues => true
    case TextValues => HasText(cells) || !HasNumber(cells)
    case NumberValues => !HasText(cells)
  }

  /** A label passes exactly when it selects one column whose values pass the check. */
  lemma ColumnErrorIsCheck(cols: seq<Column>, key: string, use: Use)
    ensures ColumnError(cols, key, use).None? <==>
              Lookup(cols, key).Success? && CellsPass(cols[Lookup(cols, key).value].cells, use)
  {
  }

  /** One label that passed on `a` passes on the rewritten frame. */
  lemma RewritesKeepPassingAt(a: seq<Column>, b: seq<Column>, keys: seq<string>, use: Use, f: Column -> Column, k: nat)
    requires ColumnwiseRewrite(f) && Rewrites(a, b, keys, f) && k < |keys|
    requires forall x: Column :: x.name in keys && CellsPass(x.cells, use) ==> CellsPass(f(x).cells, use)
    requires ColumnError(a, keys[k], use).None?
    ensures ColumnError(b, keys[k], use).None?
  {
    assert forall i :: 0 <= i < |a| ==> b[i].name == a[i].name by {
      forall i | 0 <= i < |a| ensures b[i].name == a[i].name {
        if a[i].name in keys { assert f(a[i]).name == a[i].name; }
      }
    }
    LookupReadsLabelsOnly(a, b, keys[k]);
    ColumnErrorIsCheck(a, keys[k], use);
    ColumnErrorIsCheck(b, keys[k], use);
    var i := Lookup(a, keys[k]).value;
    assert a[i].name == keys[k];
    assert b[i] == f(a[i]);
  }

  /**
   * When every label passed on `a` and the column rewrite keeps the values
   * passing, every label passes on the rewritten frame too.
   */
  lemma RewritesKeepPassing(a: seq<Column>, b: seq<Column>, keys: seq<string>, use: Use, f: Column -> Column)
    requires ColumnwiseRewrite(f) && Rewrites(a, b, keys, f)
    requires forall x: Column :: x.name in keys && CellsPass(x.cells, use) ==> CellsPass(f(x).cells, use)
    requires FirstError(a, keys, use).None?
    ensures FirstError(b, keys, use).None?
  {
    forall k | 0 <= k < |keys| ensures ColumnError(b, keys[k], use).None? {
      RewritesKeepPassingAt(a, b, keys, use, f, k);
    }
  }

  // ---------------------------------------------------------------------------
  // Step 1, load_and_standardize_columns: the labels.
  // ---------------------------------------------------------------------------

  /** The label rewrite: strip(), then lower(), then replace(' ', '_'). */
  function StandardLabel(name: string): string
  {
    ReplaceSpaces(Lower(Strip(name)))
  }

  /** A standard label has no surrounding whitespace, no upper-case letter and no space. */
  lemma StandardLabelShape(name: string)
    ensures Trimmed(StandardLabel(name)) && NoUpper(StandardLabel(name)) && NoBlank(StandardLabel(name))
    ensures |StandardLabel(name)| <= |name|
  {
    StripIsTrimmedInfix(name);
    LowerProperties(Strip(name));
    ReplaceSpacesProperties(Lower(Strip(name)));
  }

  /** Standardising a standard label changes nothing. */
  lemma StandardLabelIdempotent(name: string)
    ensures StandardLabel(StandardLabel(name)) == StandardLabel(name)
  {
    var s := StandardLabel(name);
    StandardLabelShape(name);
    StripTrimmed(s);
    LowerProperties(s);
    ReplaceSpacesProperties(s);
  }

  /** The labels of a row built from TitleCase keys become the labels the later steps select. */
  lemma StandardLabelExamples()
    ensures StandardLabel("Campaign_Name") == "campaign_name"
    ensures StandardLabel(" Sale Amount ") == "sale_amount"
  {
    StripTrimmed("Campaign_Name");
    assert Lower("Campaign_Name") == "campaign_name";
    ReplaceSpacesProperties("campaign_name");
    assert Strip(" Sale Amount ") == "Sale Amount" by {
      assert StripLeft(" Sale Amount ") == "Sale Amount ";
      assert StripRight("Sale Amount ") == "Sale Amount";
    }
    assert Lower("Sale Amount") == "sale amount";
    assert ReplaceSpaces("sale amount") == "sale_amount";
  }

  /**
   * df.columns = df.columns.str.strip().str.lower().str.replace(' ', '_'),
   * on the frame pd.read_csv returned.
   */
  method LoadAndStandardizeColumns(df: Frame)
    requires df.Valid()
    modifies df
    ensures df.Valid() && df.rows == old(df.rows) && |df.cols| == |old(df.cols)|
    ensures forall i :: 0 <= i < |df.cols| ==> df.cols[i] == Column(StandardLabel(old(df.cols[i].name)), old(df.cols[i].cells))
  {
    var cols := df.cols;
    var names := seq(|cols|, i requires 0 <= i < |cols| => StandardLabel(cols[i].name));
    df.Relabel(names);
  }

  // ---------------------------------------------------------------------------
  // Step 2, clean_monetary_columns.
  // ---------------------------------------------------------------------------

  /**
   * One cell of cost or sale_amount after astype(str), the removal of [$,₹]
   * and to_numeric(errors='coerce'). str() of NaN is "nan", which reads back
   * as NaN; str() of a number reads back as the same number.
   */
  function CleanMoneyCell(c: Cell): (r: Cell)
    ensures !r.Str?
    ensures c.Missing? ==> r.Missing?
    ensures c.Num? ==> r == c
  {
    match c
    case Missing => Missing
    case Num(x) => Num(x)
    case Str(s) =>
      match ToNumeric(StripCurrency(s))
      case Some(x) => Num(x)
      case None => Missing
  }

  function CleanMoneyColumn(col: Column): Column
  {
    Column(col.name, seq(|col.cells|, j requires 0 <= j < |col.cells| => CleanMoneyCell(col.cells[j])))
  }

  /** A string whose text, once the marks are gone, is a decimal literal becomes that literal's value. */
  lemma MoneyCellReadsLiteral(s: string, l: Literal)
    requires ValidLiteral(l) && StripCurrency(s) == Render(l)
    ensures CleanMoneyCell(Str(s)) == Num(Value(l))
  {
    ToNumericAccepts(l);
  }

  /** Any other string becomes NaN rather than an error. */
  lemma MoneyCellCoercesToMissing(s: string)
    requires forall l :: ValidLiteral(l) ==> Render(l) != StripCurrency(s)
    ensures CleanMoneyCell(Str(s)) == Missing
  {
    ToNumericRejects(StripCurrency(s));
  }

  lemma MoneyCellIdempotent(c: Cell)
    ensures CleanMoneyCell(CleanMoneyCell(c)) == CleanMoneyCell(c)
  {
  }

  lemma ThousandsText()
    ensures StripCurrency("$1,000.00") == "1000.00"
  {
    assert "$1,000.00" == ['$'] + "1" + ([','] + "000.00");
    StripCurrencyConcat(['$'] + "1", [','] + "000.00");
    StripLeadingMark('$', "1");
    StripLeadingMark(',', "000.00");
  }

  lemma ThousandsValue()
    ensures ValidLiteral(Literal(Unsigned, "1000", true, "00"))
    ensures Render(Literal(Unsigned, "1000", true, "00")) == "1000.00"
    ensures Value(Literal(Unsigned, "1000", true, "00")) == 1000.0
  {
    assert AllDigits("1000") && AllDigits("00");
    assert SignText(Unsigned) == "";
    assert DigitsValue("1000") == 1000 by {
      assert "1000"[..3] == "100" && "100"[..2] == "10" && "10"[..1] == "1" && "1"[..0] == "";
    }
    assert DigitsValue("00") == 0 by {
      assert "00"[..1] == "0" && "0"[..0] == "";
    }
  }

  lemma MoneyCellExampleThousands()
    ensures CleanMoneyCell(Str("$1,000.00")) == Num(1000.0)
  {
    ThousandsText();
    ThousandsValue();
    MoneyCellReadsLiteral("$1,000.00", Literal(Unsigned, "1000", true, "00"));
  }

  lemma FiftyValue()
    ensures ValidLiteral(Literal(Unsigned, "50", false, ""))
    ensures Render(Literal(Unsigned, "50", false, "")) == "50"
    ensures Value(Literal(Unsigned, "50", false, "")) == 50.0
  {
    assert AllDigits("50");
    assert SignText(Unsigned) == "";
    assert DigitsValue("50") == 50 by {
      assert "50"[..1] == "5" && "5"[..0] == "";
    }
  }

  lemma MoneyCellExampleRupees()
    ensures CleanMoneyCell(Str("₹50")) == Num(50.0)
  {
    assert "₹50" == ['₹'] + "50";
    StripLeadingMark('₹', "50");
    FiftyValue();
    MoneyCellReadsLiteral("₹50", Literal(Unsigned, "50", false, ""));
  }

  lemma TwoHundredValue()
    ensures ValidLiteral(Literal(Unsigned, "200", false, ""))
    ensures Render(Literal(Unsigned, "200", false, "")) == "200"
    ensures Value(Literal(Unsigned, "200", false, "")) == 200.0
  {
    assert AllDigits("200");
    assert SignText(Unsigned) == "";
    assert DigitsValue("200") == 200 by {
      assert "200"[..2] == "20" && "20"[..1] == "2" && "2"[..0] == "";
    }
  }

  lemma MoneyCellExampleDollars()
    ensures CleanMoneyCell(Str("$200")) == Num(200.0)
  {
    assert "$200" == ['$'] + "200";
    StripLeadingMark('$', "200");
    TwoHundredValue();
    MoneyCellReadsLiteral("$200", Literal(Unsigned, "200", false, ""));
  }

  lemma MoneyCellExampleInvalid()
    ensures CleanMoneyCell(Str("invalid")) == Missing
  {
    assert StripCurrency("invalid")[0] == 'i';
    ToNumericRejectsLeadingText(StripCurrency("invalid"));
  }

  /**
   * clean_monetary_columns: on a copy, cost and then sale_amount are
   * rewritten cell by cell; the input frame is left as it was.
   */
  method CleanMonetaryColumns(df: Frame) returns (r: Result<Frame, Error>)
    requires df.Valid()
    ensures unchanged(df)
    ensures r.Failure? <==> FirstError(df.cols, MonetaryColumns, AnyValues).Some?
    ensures r.Failure? ==> Some(r.error) == FirstError(df.cols, MonetaryColumns, AnyValues)
    ensures r.Success? ==> fresh(r.value) && r.value.Valid() && r.value.rows == df.rows
    ensures r.Success? ==> Rewrites(df.cols, r.value.cols, MonetaryColumns, CleanMoneyColumn)
  {
    var clean := df.Copy();
    var e := RewriteColumns(clean, MonetaryColumns, AnyValues, CleanMoneyColumn);
    if e.Some? {
      return Failure(e.value);
    }
    r := Success(clean);
  }

  /** After the step every cell of cost and sale_amount is a number or NaN. */
  lemma MonetaryCellsAreNumbers(before: seq<Column>, after: seq<Column>)
    requires Rewrites(before, after, MonetaryColumns, CleanMoneyColumn)
    ensures forall i, j :: 0 <= i < |after| && after[i].name in MonetaryColumns && 0 <= j < |after[i].cells| ==> !after[i].cells[j].Str?
  {
    forall i, j | 0 <= i < |after| && after[i].name in MonetaryColumns && 0 <= j < |after[i].cells|
      ensures !after[i].cells[j].Str?
    {
      assert CleanMoneyColumn(before[i]).name == before[i].name;
    }
  }

  /**
   * Without a cost column the step raises KeyError('cost'); without
   * sale_amount it fails too, with KeyError('sale_amount') once cost is found.
   */
  lemma MonetaryNeedsBothColumns(cols: seq<Column>)
    ensures (forall i :: 0 <= i < |cols| ==> cols[i].name != "cost") ==>
              FirstError(cols, MonetaryColumns, AnyValues) == Some(KeyError("cost"))
    ensures (forall i :: 0 <= i < |cols| ==> cols[i].name != "sale_amount") ==>
              FirstError(cols, MonetaryColumns, AnyValues).Some?
    ensures (forall i :: 0 <= i < |cols| ==> cols[i].name != "sale_amount") && Lookup(cols, "cost").Success? ==>
              FirstError(cols, MonetaryColumns, AnyValues) == Some(KeyError("sale_amount"))
  {
    assert MonetaryColumns[0] == "cost" && MonetaryColumns[1] == "sale_amount";
    if forall i :: 0 <= i < |cols| ==> cols[i].name != "cost" {
      AbsentKeyFails(cols, MonetaryColumns, AnyValues, 0);
    }
    if forall i :: 0 <= i < |cols| ==> cols[i].name != "sale_amount" {
      AbsentKeyFails(cols, MonetaryColumns, AnyValues, 1);
    }
  }

  /** Running the step on its own output changes nothing. */
  lemma MonetaryCleaningIdempotent(a: seq<Column>, b: seq<Column>, c: seq<Column>)
    requires Rewrites(a, b, MonetaryColumns, CleanMoneyColumn) && Rewrites(b, c, MonetaryColumns, CleanMoneyColumn)
    ensures FirstError(a, MonetaryColumns, AnyValues).None? ==> FirstError(b, MonetaryColumns, AnyValues).None?
    ensures c == b
  {
    if FirstError(a, MonetaryColumns, AnyValues).None? {
      RewritesKeepPassing(a, b, MonetaryColumns, AnyValues, CleanMoneyColumn);
    }
    forall x: Column ensures CleanMoneyColumn(CleanMoneyColumn(x)) == CleanMoneyColumn(x) {
      forall j | 0 <= j < |x.cells| ensures CleanMoneyCell(CleanMoneyCell(x.cells[j])) == CleanMoneyCell(x.cells[j]) {
        MoneyCellIdempotent(x.cells[j]);
      }
    }
    RewritesTwice(a, b, c, MonetaryColumns, CleanMoneyColumn);
  }

  // ---------------------------------------------------------------------------
  // Step 3, standardize_date_column.
  // ---------------------------------------------------------------------------

  function DateColumnOf(toDatetime: Cell -> Cell, col: Column): Column
  {
    Column(col.name, seq(|col.cells|, j requires 0 <= j < |col.cells| => toDatetime(col.cells[j])))
  }

  /**
   * standardize_date_column: pd.to_datetime(format='mixed', errors='coerce')
   * is given as the cell conversion `toDatetime`; only ad_date changes.
   */
  method StandardizeDateColumn(df: Frame, toDatetime: Cell -> Cell) returns (r: Result<Frame, Error>)
    requires df.Valid()
    ensures unchanged(df)
    ensures r.Failure? <==> Lookup(df.cols, DateColumn).Failure?
    ensures r.Failure? ==> r.error == Lookup(df.cols, DateColumn).error
    ensures r.Success? ==> fresh(r.value) && r.value.Valid() && r.value.rows == df.rows
    ensures r.Success? ==> Rewrites(df.cols, r.value.cols, [DateColumn], c => DateColumnOf(toDatetime, c))
  {
    var clean := df.Copy();
    var e := RewriteColumns(clean, [DateColumn], AnyValues, c => DateColumnOf(toDatetime, c));
    assert [DateColumn][..0] == [];
    if e.Some? {
      return Failure(e.value);
    }
    r := Success(clean);
  }

  // ---------------------------------------------------------------------------
  // Step 4, clean_categorical_columns.
  // ---------------------------------------------------------------------------

  /** .str.lower() on one cell: a string is lowercased, anything else becomes NaN. */
  function LowerCell(c: Cell): Cell
  {
    if c.Str? then Str(Lower(c.text)) else Missing
  }

  function LowerColumn(col: Column): Column
  {
    Column(col.name, seq(|col.cells|, j requires 0 <= j < |col.cells| => LowerCell(col.cells[j])))
  }

  /** Series.replace(table) on one cell: a string that is a key becomes its value. */
  function Correct(table: map<string, string>, c: Cell): Cell
  {
    if c.Str? && c.text in table then Str(table[c.text]) else c
  }

  function CorrectColumn(table: map<string, string>, col: Column): Column
  {
    Column(col.name, seq(|col.cells|, j requires 0 <= j < |col.cells| => Correct(table, col.cells[j])))
  }

  /** The correction table each categorical column gets; device gets none. */
  function CorrectionsFor(key: string): map<string, string>
  {
    if key == "campaign_name" then CampaignCorrections
    else if key == "location" then LocationCorrections
    else if key == "keyword" then KeywordCorrections
    else map[]
  }

  /** What clean_categorical_columns does to one column: lowercase, then correct. */
  function CleanCategoryColumn(col: Column): Column
  {
    CorrectColumn(CorrectionsFor(col.name), LowerColumn(col))
  }

  /**
   * Every key is in lower case, so lowercasing never hides it; every value is
   * in lower case and is not itself a key, so a corrected value stays put.
   */
  predicate Canonical(table: map<string, string>)
  {
    forall k :: k in table ==> NoUpper(k) && NoUpper(table[k]) && table[k] !in table
  }

  lemma CampaignKeys()
    ensures forall k :: k in CampaignCorrections <==>
              k == "data anlytics corse" || k == "data analytcis course" || k == "data analytics corse" || k == "dataanalyticscourse"
    ensures forall k :: k in CampaignCorrections ==> CampaignCorrections[k] == "data analytics course"
  {
  }

  lemma CampaignTextIsLower()
    ensures NoUpper("data anlytics corse") && NoUpper("data analytcis course")
    ensures NoUpper("data analytics corse") && NoUpper("dataanalyticscourse") && NoUpper("data analytics course")
  {
  }

  lemma CampaignTargetIsNoKey()
    ensures "data analytics course" !in CampaignCorrections
  {
    assert "data analytics course"[7] != "data anlytics corse"[7];
    assert "data analytics course"[12] != "data analytcis course"[12];
    assert "data analytics course"[17] != "data analytics corse"[17];
    assert "data analytics course"[4] != "dataanalyticscourse"[4];
  }

  lemma CampaignTableIsCanonical()
    ensures Canonical(CampaignCorrections)
    ensures forall k :: k in CampaignCorrections ==> CampaignCorrections[k] == "data analytics course"
  {
    CampaignKeys();
    CampaignTextIsLower();
    CampaignTargetIsNoKey();
  }

  lemma LocationTableIsCanonical()
    ensures Canonical(LocationCorrections)
    ensures forall k :: k in LocationCorrections ==> LocationCorrections[k] == "hyderabad"
  {
    assert NoUpper("hyderbad") && NoUpper("hydrebad") && NoUpper("hyderabad");
    assert "hyderabad" !in LocationCorrections by {
      assert "hyderabad"[5] != "hyderbad"[5];
      assert "hyderabad"[3] != "hydrebad"[3];
    }
  }

  lemma KeywordKeys()
    ensures forall k :: k in KeywordCorrections <==>
              k == "data analitics online" || k == "data anaytics training" || k == "online data analytic"
    ensures KeywordCorrections["data analitics online"] == "data analytics online"
    ensures KeywordCorrections["data anaytics training"] == "data analytics training"
    ensures KeywordCorrections["online data analytic"] == "online data analytics"
  {
  }

  lemma KeywordTextIsLower()
    ensures NoUpper("data analitics online") && NoUpper("data anaytics training") && NoUpper("online data analytic")
    ensures NoUpper("data analytics online") && NoUpper("data analytics training") && NoUpper("online data analytics")
  {
  }

  lemma KeywordTargetsAreNoKeys()
    ensures "data analytics online" !in KeywordCorrections
    ensures "data analytics training" !in KeywordCorrections
    ensures "online data analytics" !in KeywordCorrections
  {
    assert "data analytics online"[9] != "data analitics online"[9];
    assert "data analytics online"[8] != "data anaytics training"[8];
    assert "data analytics online"[0] != "online data analytic"[0];
    assert "data analytics training"[9] != "data analitics online"[9];
    assert "data analytics training"[8] != "data anaytics training"[8];
    assert "data analytics training"[0] != "online data analytic"[0];
    assert "online data analytics"[0] != "data analitics online"[0];
    assert "online data analytics"[0] != "data anaytics training"[0];
    assert |"online data analytics"| != |"online data analytic"|;
  }

  lemma KeywordTableIsCanonical()
    ensures Canonical(KeywordCorrections)
  {
    KeywordKeys();
    KeywordTextIsLower();
    KeywordTargetsAreNoKeys();
  }

  /** Every correction maps lower-case text to lower-case text that no correction rewrites again. */
  lemma CorrectionTablesAreCanonical()
    ensures Canonical(CampaignCorrections) && Canonical(LocationCorrections) && Canonical(KeywordCorrections)
    ensures forall k :: k in CampaignCorrections ==> CampaignCorrections[k] == "data analytics course"
    ensures forall k :: k in LocationCorrections ==> LocationCorrections[k] == "hyderabad"
  {
    CampaignTableIsCanonical();
    LocationTableIsCanonical();
    KeywordTableIsCanonical();
  }

  /** One categorical cell after the step: a string whose lowercase form is a key gets the key's value, any other string is just lowercased. */
  /**
   * A cleaned categorical cell is lower-case text that its column's table no
   * longer corrects, or NaN where the cell held no text.
   */
  lemma CategoryColumnIsCanonical(col: Column)
    ensures forall j :: 0 <= j < |col.cells| && col.cells[j].Str? ==>
              && CleanCategoryColumn(col).cells[j].Str?
              && NoUpper(CleanCategoryColumn(col).cells[j].text)
              && CleanCategoryColumn(col).cells[j].text !in CorrectionsFor(col.name)
    ensures forall j :: 0 <= j < |col.cells| && !col.cells[j].Str? ==> CleanCategoryColumn(col).cells[j] == Missing
  {
    CorrectionTablesAreCanonical();
    var t := CorrectionsFor(col.name);
    assert Canonical(t);
    forall j | 0 <= j < |col.cells| && col.cells[j].Str?
      ensures NoUpper(CleanCategoryColumn(col).cells[j].text) && CleanCategoryColumn(col).cells[j].text !in t
    {
      LowerProperties(col.cells[j].text);
    }
  }

  /** A cleaned category is a fixed point of the cleaning. */
  lemma CategoryCellIdempotent(table: map<string, string>, c: Cell)
    requires Canonical(table)
    ensures Correct(table, LowerCell(Correct(table, LowerCell(c)))) == Correct(table, LowerCell(c))
  {
    var r := Correct(table, LowerCell(c));
    if r.Str? {
      if c.Str? && Lower(c.text) in table {
        LowerProperties(table[Lower(c.text)]);
      } else {
        LowerProperties(c.text);
        LowerProperties(Lower(c.text));
      }
    }
  }

  lemma LowerCampaignExample()
    ensures Lower("Data Analytcis Course") == "data analytcis course"
  {
  }

  lemma CategoryExampleCampaign()
    ensures CleanCategoryColumn(Column("campaign_name", [Str("Data Analytcis Course")])).cells == [Str("data analytics course")]
  {
    LowerCampaignExample();
    CampaignKeys();
  }

  lemma CategoryExampleLocation()
    ensures CleanCategoryColumn(Column("location", [Str("hydrebad")])).cells == [Str("hyderabad")]
  {
    assert Lower("hydrebad") == "hydrebad";
  }

  lemma CategoryExampleDevice()
    ensures CleanCategoryColumn(Column("device", [Str("DESKTOP")])).cells == [Str("desktop")]
  {
    assert Lower("DESKTOP") == "desktop";
  }

  lemma LowerKeywordExample()
    ensures Lower("data analitics online") == "data analitics online"
  {
  }

  lemma CategoryExampleKeyword()
    ensures CleanCategoryColumn(Column("keyword", [Str("data analitics online")])).cells == [Str("data analytics online")]
  {
    LowerKeywordExample();
    KeywordKeys();
  }

  /** df[key] = df[key].replace(table), for a key that selects one column. */
  method ReplaceValues(clean: Frame, key: string, table: map<string, string>) returns (i: nat)
    requires clean.Valid() && Lookup(clean.cols, key).Success?
    modifies clean
    ensures clean.Valid() && clean.rows == old(clean.rows)
    ensures Lookup(old(clean.cols), key) == Success(i)
    ensures clean.cols == old(clean.cols)[i := CorrectColumn(table, old(clean.cols)[i])]
  {
    i := Lookup(clean.cols, key).value;
    clean.Assign(i, CorrectColumn(table, clean.cols[i]).cells);
  }

  /**
   * clean_categorical_columns: on a copy, the four columns are lowercased in
   * turn, then three of them go through their correction tables.
   */
  method CleanCategoricalColumns(df: Frame) returns (r: Result<Frame, Error>)
    requires df.Valid()
    ensures unchanged(df)
    ensures r.Failure? <==> FirstError(df.cols, CategoricalColumns, TextValues).Some?
    ensures r.Failure? ==> Some(r.error) == FirstError(df.cols, CategoricalColumns, TextValues)
    ensures r.Success? ==> fresh(r.value) && r.value.Valid() && r.value.rows == df.rows
    ensures r.Success? ==> Rewrites(df.cols, r.value.cols, CategoricalColumns, CleanCategoryColumn)
  {
    var clean := df.Copy();
    LowerColumnKeepsShape();
    var e := RewriteColumns(clean, CategoricalColumns, TextValues, LowerColumn);
    if e.Some? {
      return Failure(e.value);
    }
    ghost var lowered := clean.cols;
    ghost var c, l, k := CorrectionTargets(df.cols, lowered);
    var i := ReplaceValues(clean, "campaign_name", CampaignCorrections);
    ghost var fixed := clean.cols;
    LookupAfterUpdate(lowered, c, fixed[c], "location");
    LookupAfterUpdate(lowered, c, fixed[c], "keyword");
    i := ReplaceValues(clean, "location", LocationCorrections);
    LookupAfterUpdate(fixed, l, clean.cols[l], "keyword");
    i := ReplaceValues(clean, "keyword", KeywordCorrections);
    CorrectionsFinishCleaning(df.cols, lowered, clean.cols, c, l, k);
    r := Success(clean);
  }

  lemma LowerColumnKeepsShape()
    ensures ColumnwiseRewrite(LowerColumn)
  {
  }

  /** Once the four columns are lowercased, the three that have corrections are still found where they were. */
  lemma CorrectionTargets(before: seq<Column>, lowered: seq<Column>) returns (c: nat, l: nat, k: nat)
    requires FirstError(before, CategoricalColumns, TextValues).None?
    requires Rewrites(before, lowered, CategoricalColumns, LowerColumn)
    ensures Lookup(before, "campaign_name") == Lookup(lowered, "campaign_name") == Success(c)
    ensures Lookup(before, "location") == Lookup(lowered, "location") == Success(l)
    ensures Lookup(before, "keyword") == Lookup(lowered, "keyword") == Success(k)
  {
    LookupAfterLoop(before, lowered, "campaign_name", 0);
    LookupAfterLoop(before, lowered, "location", 1);
    LookupAfterLoop(before, lowered, "keyword", 3);
    c := Lookup(before, "campaign_name").value;
    l := Lookup(before, "location").value;
    k := Lookup(before, "keyword").value;
  }

  /** Replacing the cells of a column leaves every lookup as it was. */
  lemma LookupAfterUpdate(cols: seq<Column>, i: nat, col: Column, key: string)
    requires i < |cols| && col.name == cols[i].name
    ensures Lookup(cols[i := col], key) == Lookup(cols, key)
  {
    LookupReadsLabelsOnly(cols, cols[i := col], key);
  }

  lemma LookupAfterLoop(before: seq<Column>, now: seq<Column>, key: string, k: nat)
    requires k < |CategoricalColumns| && CategoricalColumns[k] == key
    requires FirstError(before, CategoricalColumns, TextValues).None?
    requires |now| == |before| && forall i :: 0 <= i < |before| ==> now[i].name == before[i].name
    ensures Lookup(now, key) == Lookup(before, key) && Lookup(now, key).Success?
  {
    LookupReadsLabelsOnly(before, now, key);
    assert ColumnError(before, CategoricalColumns[k], TextValues).None?;
  }

  /** Lowercasing the four columns and then correcting three of them cleans all four. */
  lemma CorrectionsFinishCleaning(before: seq<Column>, lowered: seq<Column>, after: seq<Column>, c: nat, l: nat, k: nat)
    requires Lookup(before, "campaign_name") == Success(c)
    requires Lookup(before, "location") == Success(l)
    requires Lookup(before, "keyword") == Success(k)
    requires Rewrites(before, lowered, CategoricalColumns, LowerColumn)
    requires after == lowered[c := CorrectColumn(CampaignCorrections, lowered[c])]
                             [l := CorrectColumn(LocationCorrections, lowered[l])]
                             [k := CorrectColumn(KeywordCorrections, lowered[k])]
    ensures Rewrites(before, after, CategoricalColumns, CleanCategoryColumn)
  {
    forall i | 0 <= i < |before|
      ensures after[i] == if before[i].name in CategoricalColumns then CleanCategoryColumn(before[i]) else before[i]
    {
      if i == c || i == l || i == k {
        assert after[i] == CleanCategoryColumn(before[i]);
      } else if before[i].name == "device" {
        CorrectNothing(lowered[i]);
      } else {
        assert before[i].name != "campaign_name" && before[i].name != "location" && before[i].name != "keyword";
      }
    }
  }

  lemma CorrectNothing(col: Column)
    ensures CorrectColumn(map[], col) == col
  {
  }

  /** A cleaned categorical column comes out of the cleaning as it went in. */
  lemma CategoryColumnIdempotent(x: Column)
    ensures CleanCategoryColumn(CleanCategoryColumn(x)) == CleanCategoryColumn(x)
  {
    CorrectionTablesAreCanonical();
    var t := CorrectionsFor(x.name);
    assert Canonical(t);
    forall j | 0 <= j < |x.cells|
      ensures Correct(t, LowerCell(Correct(t, LowerCell(x.cells[j])))) == Correct(t, LowerCell(x.cells[j]))
    {
      CategoryCellIdempotent(t, x.cells[j]);
    }
  }

  /** A cleaned categorical column holds no number, so the `.str` accessor accepts it again. */
  lemma CategoryColumnHasNoNumber(x: Column)
    ensures !HasNumber(CleanCategoryColumn(x).cells)
  {
    var y := CleanCategoryColumn(x);
    forall j | 0 <= j < |y.cells| ensures !y.cells[j].Num? {
      assert y.cells[j] == Correct(CorrectionsFor(x.name), LowerCell(x.cells[j]));
    }
  }

  /** Running the step on its own output changes nothing. */
  lemma CategoricalCleaningIdempotent(a: seq<Column>, b: seq<Column>, c: seq<Column>)
    requires Rewrites(a, b, CategoricalColumns, CleanCategoryColumn) && Rewrites(b, c, CategoricalColumns, CleanCategoryColumn)
    ensures FirstError(a, CategoricalColumns, TextValues).None? ==> FirstError(b, CategoricalColumns, TextValues).None?
    ensures c == b
  {
    if FirstError(a, CategoricalColumns, TextValues).None? {
      forall x: Column | x.name in CategoricalColumns && CellsPass(x.cells, TextValues)
        ensures CellsPass(CleanCategoryColumn(x).cells, TextValues)
      {
        CategoryColumnHasNoNumber(x);
      }
      RewritesKeepPassing(a, b, CategoricalColumns, TextValues, CleanCategoryColumn);
    }
    forall x: Column | x.name in CategoricalColumns
      ensures CleanCategoryColumn(CleanCategoryColumn(x)) == CleanCategoryColumn(x)
    {
      CategoryColumnIdempotent(x);
    }
    RewritesTwice(a, b, c, CategoricalColumns, CleanCategoryColumn);
  }

  // ---------------------------------------------------------------------------
  // Step 5, handle_missing_values.
  // ---------------------------------------------------------------------------

  /** The numbers of a column in row order; NaN is skipped, as median() skips it. */
  function Numbers(cells: seq<Cell>): (xs: seq<real>)
    ensures forall x :: x in xs <==> Num(x) in cells
  {
    if cells == [] then []
    else (if cells[0].Num? then [cells[0].value] else []) + Numbers(cells[1..])
  }

  /** Numbers keeps every number as often as it occurs, in row order: it distributes over concatenation. */
  lemma {:induction false} NumbersConcat(a: seq<Cell>, b: seq<Cell>)
    ensures Numbers(a + b) == Numbers(a) + Numbers(b)
  {
    if a != [] {
      assert (a + b)[1..] == a[1..] + b;
      NumbersConcat(a[1..], b);
    } else {
      assert a + b == b;
    }
  }

  /** A single cell contributes its number, or nothing when it holds none. */
  lemma NumbersOfOneCell(c: Cell)
    ensures Numbers([c]) == if c.Num? then [c.value] else []
  {
    assert [c][1..] == [];
  }

  /** df[col].fillna(df[col].median()): NaN cells get the median of the column's numbers, if it has any. */
  function FillWithMedian(col: Column): Column
  {
    var xs := Numbers(col.cells);
    if xs == [] then col
    else
      var m := Median(xs);
      Column(col.name, seq(|col.cells|, j requires 0 <= j < |col.cells| => if col.cells[j].Missing? then Num(m) else col.cells[j]))
  }

  /**
   * The fill touches only NaN cells; each one gets the median of the numbers
   * the column held before the fill, which lies between their least and
   * their greatest; and no NaN is left in a column that held a number.
   */
  lemma FillWithMedianSpec(col: Column)
    ensures FillWithMedian(col).name == col.name && |FillWithMedian(col).cells| == |col.cells|
    ensures forall j :: 0 <= j < |col.cells| && !col.cells[j].Missing? ==> FillWithMedian(col).cells[j] == col.cells[j]
    ensures HasNumber(col.cells) ==> forall j :: 0 <= j < |col.cells| ==> !FillWithMedian(col).cells[j].Missing?
    ensures forall j :: 0 <= j < |col.cells| && FillWithMedian(col).cells[j] != col.cells[j] ==>
              var xs := Numbers(col.cells);
              && col.cells[j].Missing? && xs != []
              && FillWithMedian(col).cells[j] == Num(Median(xs))
              && Min(xs) <= Median(xs) <= Max(xs)
  {
    var xs := Numbers(col.cells);
    if HasNumber(col.cells) {
      var j :| 0 <= j < |col.cells| && col.cells[j].Num?;
      assert col.cells[j].value in xs;
    }
    if xs != [] {
      MedianWithinRange(xs);
    }
  }

  lemma FillWithMedianIdempotent(col: Column)
    ensures FillWithMedian(FillWithMedian(col)) == FillWithMedian(col)
  {
    var once := FillWithMedian(col);
    FillWithMedianSpec(col);
    if Numbers(col.cells) != [] {
      var x := Numbers(col.cells)[0];
      assert HasNumber(col.cells) by {
        var j :| 0 <= j < |col.cells| && col.cells[j] == Num(x);
      }
      assert Numbers(once.cells) != [] by {
        var j :| 0 <= j < |col.cells| && col.cells[j] == Num(x);
        assert once.cells[j] == Num(x);
      }
      assert once.cells == FillWithMedian(once).cells;
    }
  }

  /** The error handle_missing_values raises, if any: the drop comes first, then the fill loop. */
  function MissingValuesError(cols: seq<Column>): Option<Error>
  {
    if Count(cols, SparseColumn) == 0 then Some(KeyError(SparseColumn))
    else FirstError(DropLabel(cols, SparseColumn), FillColumns, NumberValues)
  }

  /**
   * handle_missing_values: on a copy, conversion_rate is dropped, then the
   * six numeric columns are filled in turn with their medians.
   */
  method HandleMissingValues(df: Frame) returns (r: Result<Frame, Error>)
    requires df.Valid()
    ensures unchanged(df)
    ensures r.Failure? <==> MissingValuesError(df.cols).Some?
    ensures r.Failure? ==> Some(r.error) == MissingValuesError(df.cols)
    ensures r.Success? ==> fresh(r.value) && r.value.Valid() && r.value.rows == df.rows
    ensures r.Success? ==> Rewrites(DropLabel(df.cols, SparseColumn), r.value.cols, FillColumns, FillWithMedian)
  {
    var clean := df.Copy();
    var e := clean.Drop(SparseColumn);
    if e.Some? {
      return Failure(e.value);
    }
    e := RewriteColumns(clean, FillColumns, NumberValues, FillWithMedian);
    if e.Some? {
      return Failure(e.value);
    }
    r := Success(clean);
  }

  /** After the step conversion_rate is gone and every other column is still there. */
  lemma MissingValuesDropsOnlySparse(before: seq<Column>, after: seq<Column>)
    requires Count(before, SparseColumn) > 0
    requires Rewrites(DropLabel(before, SparseColumn), after, FillColumns, FillWithMedian)
    ensures Count(after, SparseColumn) == 0
    ensures forall other :: other != SparseColumn ==> Count(after, other) == Count(before, other)
  {
    var kept := DropLabel(before, SparseColumn);
    assert forall i :: 0 <= i < |after| ==> after[i].name == kept[i].name;
    CountReadsLabelsOnly(kept, after, SparseColumn);
    forall other | other != SparseColumn ensures Count(after, other) == Count(before, other) {
      CountReadsLabelsOnly(kept, after, other);
      DropLabelKeepsCounts(before, SparseColumn, other);
    }
  }

  /** The fill brings no string into a column, so median() accepts the column again. */
  lemma FillAddsNoText(x: Column)
    requires !HasText(x.cells)
    ensures !HasText(FillWithMedian(x).cells)
  {
    FillWithMedianSpec(x);
    var y := FillWithMedian(x);
    forall j | 0 <= j < |y.cells| ensures !y.cells[j].Str? {
      assert !x.cells[j].Str?;
    }
  }

  /** Running the fill on its own output changes nothing. */
  lemma FillIdempotent(a: seq<Column>, b: seq<Column>, c: seq<Column>)
    requires Rewrites(a, b, FillColumns, FillWithMedian) && Rewrites(b, c, FillColumns, FillWithMedian)
    ensures FirstError(a, FillColumns, NumberValues).None? ==> FirstError(b, FillColumns, NumberValues).None?
    ensures c == b
  {
    if FirstError(a, FillColumns, NumberValues).None? {
      forall x: Column | x.name in FillColumns && CellsPass(x.cells, NumberValues)
        ensures CellsPass(FillWithMedian(x).cells, NumberValues)
      {
        FillAddsNoText(x);
      }
      RewritesKeepPassing(a, b, FillColumns, NumberValues, FillWithMedian);
    }
    forall x: Column ensures FillWithMedian(FillWithMedian(x)) == FillWithMedian(x) {
      FillWithMedianIdempotent(x);
    }
    RewritesTwice(a, b, c, FillColumns, FillWithMedian);
  }
}
