# Ad-campaign data cleaning, modelled in Dafny

This project models the cleaning steps of `src/data_processing.py`, which
prepare a table of ad-campaign records for training a sales model:

1. the column labels of the loaded table are standardised (stripped, lowercased,
   spaces turned into underscores);
2. `cost` and `sale_amount` lose their currency marks `$`, `,` and `₹` and are
   read as numbers, text that is not a number becoming NaN;
3. `ad_date` is converted to dates (kept abstract here);
4. `campaign_name`, `location`, `device` and `keyword` are lowercased and three
   of them go through fixed tables of spelling corrections;
5. `conversion_rate` is dropped and the missing cells of six numeric columns are
   filled with the median of their column.

A pandas DataFrame is `Frames.Frame`, a class holding an ordered sequence of
labelled columns of equal length. The first step relabels the loaded frame in
place, all at once. Each of the other steps copies the frame and then
overwrites columns of the copy one label at a time, as the source does; the
loop over a list of labels is `DataProcessing.RewriteColumns`. Selecting a
label finds no column (KeyError), one column, or several; the model treats
several as a failure of the step (see "Left out"). A step that raises in
pandas returns a `Failure` here. A cell is NaN (`Missing`), a string, or an exact
rational number.

Files: `wrappers.dfy` (Option, Result), `strings.dfy` (strip, lower, replace),
`numeric.dfy` (currency removal and decimal reading), `statistics.dfy`
(sorting and the median), `frames.dfy` (the table), `data_processing.dfy`
(the five steps).

## Model

| member | source | states |
|---|---|---|
| Strings.StripIsTrimmedInfix | src/data_processing.py:20 | strip() keeps exactly the text between the leading and trailing whitespace runs, and the result starts and ends with no whitespace |
| Strings.StripTrimmed | src/data_processing.py:20 | strip() leaves text without surrounding whitespace unchanged |
| Strings.LowerProperties | src/data_processing.py:20 | lower() keeps the length, leaves no upper-case letter, keeps trimmed and space-free text so, and is the identity on text without upper case |
| Strings.ReplaceSpacesProperties | src/data_processing.py:20 | replace(' ', '_') keeps the length, leaves no space, keeps the other shape properties, and is the identity on space-free text |
| DataProcessing.StandardLabelShape | src/data_processing.py:20 | a standardised label has no surrounding whitespace, no upper-case letter and no space, and is no longer than the original |
| DataProcessing.StandardLabelIdempotent | src/data_processing.py:20 | standardising a standardised label changes nothing |
| DataProcessing.StandardLabelExamples | src/data_processing.py:20 | "Campaign_Name" becomes "campaign_name" and " Sale Amount " becomes "sale_amount" |
| DataProcessing.LoadAndStandardizeColumns | src/data_processing.py:20 | the frame keeps its number of columns, their order, their cells and its row count; column i gets the standardised label of its old label |
| Frames.Frame.Relabel | src/data_processing.py:20 | assigning a list of labels relabels column i with the i-th label and keeps every column's cells |
| Frames.Frame.constructor | src/data_processing.py:37 | a frame holds the given columns and row count and is rectangular |
| Frames.Frame.Copy | src/data_processing.py:37 | copy() gives a fresh frame with the same columns and rows |
| Frames.Lookup | src/data_processing.py:41 | df[key] selects the unique column with that label; it is a KeyError exactly when no column has the label and a duplicate-label failure exactly when two columns have it |
| Frames.LookupReadsLabelsOnly | src/data_processing.py:41 | which column a key selects depends on the labels alone, so rewriting cells never moves a later lookup |
| Frames.Frame.Assign | src/data_processing.py:41 | df[key] = cells replaces the cells of the selected column and nothing else |
| DataProcessing.FirstError | src/data_processing.py:40-42 | a loop over labels raises nothing exactly when every label passes its check |
| DataProcessing.FirstErrorIsFirst | src/data_processing.py:40-42 | the error a loop raises is the one of a label all of whose predecessors passed |
| DataProcessing.AbsentKeyFails | src/data_processing.py:40-42 | a loop whose label list names an absent label fails, with KeyError of that label when every earlier label passed |
| DataProcessing.RewriteColumns | src/data_processing.py:40-42 | the loop over labels on the copy either stops with the first label's error, or rewrites exactly the labelled columns with the column rewrite, keeping all other columns, their order and the row count |
| Numeric.StripCurrency | src/data_processing.py:41 | removing the character class [$,₹] leaves no currency mark and never lengthens the text |
| Numeric.StripCurrencyKeepsPlainText | src/data_processing.py:41 | text without a currency mark is left unchanged, so the removal is idempotent |
| Numeric.StripCurrencyConcat | src/data_processing.py:41 | the removal works character by character: it distributes over concatenation |
| Numeric.StripLeadingMark | src/data_processing.py:41 | a currency mark in front of plain text is all that is removed |
| Numeric.ReadLiteral | src/data_processing.py:42 | whatever is accepted as a number is a well-formed decimal literal |
| Numeric.ReadRender | src/data_processing.py:42 | reading the text of any decimal literal gives back that literal |
| Numeric.RenderRead | src/data_processing.py:42 | text that is read as a literal is exactly that literal's text |
| Numeric.ToNumericAccepts | src/data_processing.py:42 | to_numeric reads the text of every decimal literal as the literal's exact value |
| Numeric.ToNumericRejects | src/data_processing.py:42 | text that is the text of no decimal literal becomes NaN |
| Numeric.ToNumericRejectsLeadingText | src/data_processing.py:42 | text starting with anything but a sign, a digit or a point becomes NaN |
| DataProcessing.CleanMoneyCell | src/data_processing.py:41-42 | a cleaned monetary cell is never a string; NaN stays NaN and a number stays the same number |
| DataProcessing.MoneyCellReadsLiteral | src/data_processing.py:41-42 | a string that is a decimal literal once the currency marks are gone becomes that literal's value |
| DataProcessing.MoneyCellCoercesToMissing | src/data_processing.py:41-42 | any other string becomes NaN, never an error |
| DataProcessing.MoneyCellIdempotent | src/data_processing.py:41-42 | cleaning a cleaned monetary cell changes nothing |
| DataProcessing.MoneyCellExampleDollars | tests/test_data_processing.py:21 | "$200" becomes the number 200 |
| DataProcessing.MoneyCellExampleThousands | src/data_processing.py:41-42 | "$1,000.00" becomes the number 1000 |
| DataProcessing.MoneyCellExampleRupees | src/data_processing.py:41-42 | "₹50" becomes the number 50 |
| DataProcessing.MoneyCellExampleInvalid | src/data_processing.py:41-42 | "invalid" becomes NaN |
| DataProcessing.CleanMonetaryColumns | src/data_processing.py:37-42 | the input frame is unchanged; the step fails exactly when cost or sale_amount cannot be selected, with the error of the first that cannot; otherwise the new frame has cost and sale_amount cleaned cell by cell and every other column, the column order and the row count as they were |
| DataProcessing.MonetaryNeedsBothColumns | src/data_processing.py:38-41 | without a cost column the step raises KeyError('cost'); without sale_amount it fails, with KeyError('sale_amount') when cost is found |
| DataProcessing.MonetaryCellsAreNumbers | src/data_processing.py:40-42 | after the step every cell of cost and sale_amount is a number or NaN |
| DataProcessing.RewritesKeepPassing | src/data_processing.py:40-42 | when every label passed on a frame and the column rewrite keeps a column's values acceptable, every label passes again on the rewritten frame |
| DataProcessing.MonetaryCleaningIdempotent | src/data_processing.py:37-42 | running the step on its own output succeeds when the first run did, and changes nothing |
| DataProcessing.StandardizeDateColumn | src/data_processing.py:59-60 | the input frame is unchanged; the step fails exactly when ad_date cannot be selected; otherwise only ad_date changes, cell by cell through the given date conversion |
| DataProcessing.CampaignTableIsCanonical | src/data_processing.py:83-88 | every campaign correction maps lower-case text to "data analytics course", which is not itself corrected |
| DataProcessing.LocationTableIsCanonical | src/data_processing.py:89 | every location correction maps lower-case text to "hyderabad", which is not itself corrected |
| DataProcessing.KeywordTableIsCanonical | src/data_processing.py:90-94 | every keyword correction maps lower-case text to lower-case text that is not itself corrected |
| DataProcessing.CorrectionTablesAreCanonical | src/data_processing.py:83-94 | the three tables together are canonical |
| DataProcessing.CategoryColumnIsCanonical | src/data_processing.py:80-98 | every string of a cleaned categorical column is lower-case text that its column's correction table no longer corrects; every other cell becomes NaN |
| DataProcessing.CategoryCellIdempotent | src/data_processing.py:80-98 | with a canonical table, cleaning a cleaned categorical cell changes nothing |
| DataProcessing.CategoryColumnIdempotent | src/data_processing.py:80-98 | cleaning a cleaned categorical column changes nothing |
| DataProcessing.CategoryExampleCampaign | tests/test_data_processing.py:18 | "Data Analytcis Course" in campaign_name becomes "data analytics course" |
| DataProcessing.CategoryExampleLocation | tests/test_data_processing.py:25 | "hydrebad" in location becomes "hyderabad" |
| DataProcessing.CategoryExampleDevice | tests/test_data_processing.py:26 | "DESKTOP" in device becomes "desktop" |
| DataProcessing.CategoryExampleKeyword | tests/test_data_processing.py:27 | "data analitics online" in keyword becomes "data analytics online" |
| DataProcessing.ReplaceValues | src/data_processing.py:96-98 | replace(table) on the selected column corrects that column and nothing else |
| DataProcessing.CorrectionsFinishCleaning | src/data_processing.py:78-98 | lowercasing the four columns and then correcting campaign_name, location and keyword cleans all four columns and leaves the rest alone |
| DataProcessing.CleanCategoricalColumns | src/data_processing.py:76-98 | the input frame is unchanged; the step fails exactly when one of the four columns cannot be selected or holds numbers and no text, with the first such error; otherwise the four columns are cleaned and every other column, the column order and the row count are as they were |
| DataProcessing.CategoryColumnHasNoNumber | src/data_processing.py:80 | a cleaned categorical column holds no number, so the `.str` accessor accepts it again |
| DataProcessing.CategoricalCleaningIdempotent | src/data_processing.py:76-98 | running the step on its own output succeeds when the first run did, and changes nothing |
| Frames.DropLabel | src/data_processing.py:118 | dropping a label leaves no column with it, only columns of the original, and removes as many columns as carried the label |
| Frames.DropLabelConcat | src/data_processing.py:118 | the drop keeps the other columns in their order: it distributes over concatenation |
| Frames.DropLabelKeepsOthers | src/data_processing.py:118 | every column with another label survives the drop |
| Frames.DropLabelKeepsCounts | src/data_processing.py:118 | the drop keeps the number of columns with any other label |
| Frames.DropAbsentLabel | src/data_processing.py:118 | dropping an absent label would change nothing |
| Frames.Frame.Drop | src/data_processing.py:118 | drop(columns=[key]) raises KeyError exactly when no column has the key, and otherwise removes exactly the columns with that key |
| Statistics.SortIsSortedPermutation | src/data_processing.py:123 | sorting yields the same values in ascending order |
| Statistics.SortedPermutationsEqual | src/data_processing.py:123 | two ascending sequences of the same values are equal |
| Statistics.MedianWithinRange | src/data_processing.py:123 | the median lies between the least and the greatest value |
| Statistics.MedianIgnoresOrder | src/data_processing.py:123 | the median depends only on the values, not on their row order |
| DataProcessing.Numbers | src/data_processing.py:123 | a value is among those median() reads exactly when some cell of the column holds it |
| DataProcessing.NumbersConcat | src/data_processing.py:123 | median() reads every number as often as it occurs, in row order: the values distribute over concatenation of cells |
| DataProcessing.NumbersOfOneCell | src/data_processing.py:123 | one cell contributes its number, or nothing when it is NaN or a string |
| DataProcessing.FillWithMedianSpec | src/data_processing.py:123-124 | the fill keeps label and length, changes only NaN cells, gives each the median of the column's numbers before the fill, which lies between their least and greatest, and leaves no NaN in a column that held a number |
| DataProcessing.FillWithMedianIdempotent | src/data_processing.py:123-124 | filling a filled column changes nothing |
| DataProcessing.HandleMissingValues | src/data_processing.py:115-124 | the input frame is unchanged; the step fails with KeyError when conversion_rate is absent, then with the first error of the fill loop; otherwise the result is the frame without conversion_rate, with the six numeric columns filled and every other column as it was |
| DataProcessing.MissingValuesDropsOnlySparse | src/data_processing.py:118-124 | after the step no column is labelled conversion_rate and every other label labels as many columns as before |
| DataProcessing.FillAddsNoText | src/data_processing.py:123-124 | the fill brings no string into a column, so median() accepts the column again |
| DataProcessing.FillIdempotent | src/data_processing.py:122-124 | running the fill on its own output succeeds when the first run did, and changes nothing |

## Left out

- Reading the CSV file, the progress messages and the command-line driver are I/O and are not modelled; `LoadAndStandardizeColumns` starts from the frame already loaded.
- `run_full_pipeline` and `DataProcessingPipeline` (one-hot encoding, alignment to the training columns) are not defined in `src/data_processing.py` and are not part of this model; nor are training, model saving, the web API and the browser UI.
- StandardizeDateColumn: `pd.to_datetime(format='mixed', errors='coerce')` is a parameter applied cell by cell; date formats are not modelled, only that ad_date alone changes.
- CleanMoneyCell: to_numeric is modelled on the plain decimal grammar (optional sign, digits, optional point and digits, at least one digit) with exact rationals; exponents, `inf`, `nan` spelled out, surrounding whitespace and float64 rounding are not modelled.
- CleanMoneyCell: `astype(str)` followed by to_numeric is taken to give back every number unchanged and NaN as NaN, which holds for float64 values whose text Python prints in round-trip form.
- Strings.LowerChar: only the ASCII letters are lowercased; Unicode case mapping is not modelled.
- ColumnError: pandas dtypes are not modelled. The `.str` accessor failure is taken to happen when the column holds numbers and no string; a column that is entirely NaN passes in the model, although pandas refuses `.str` on a float64 column.
- ColumnError: median() on a column holding any string is modelled as an error; numeric strings that numpy might still convert are not modelled.
- Frames.Lookup: selecting a duplicated label is modelled as a failure of the step. pandas does fail there for `.str`, `astype(str).str.replace` and `to_datetime`, but in the fill loop `median()` of several numeric columns returns one median per column and `fillna` fills them, so for a duplicated fill label the model fails where pandas fills the duplicated columns. pandas' exact exceptions and messages are not modelled.
- Frames.Cell: the cell kinds are NaN, string and exact number; booleans, timestamps and float infinities are not modelled.
