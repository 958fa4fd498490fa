/**
 * Alignment of the combined input record with the trained schema
 * (app.py, lines 46-57): one-hot encoding of the three categorical fields,
 * zero-filling of the schema columns still missing, and selection of the
 * schema columns in schema order.
 */
module Alignment {
  import opened Wrappers
  import opened Schema
  import opened Inputs

  /** A one-row DataFrame: each column name mapped to its single cell. */
  type Frame = map<string, real>

  /** A row in a fixed column order, as handed to the classifier. */
  type Row = seq<(string, real)>

  const CategoricalFields: set<string> := set cat | cat in CategoricalBaseFeatures

  /**
   * What the encoding at line 49 is applied to: a selection under each of the
   * three categorical fields, and a number under every other key, none of
   * which is a one-hot column name (so no indicator column collides with it).
   */
  predicate Encodable(record: map<string, Value>) {
    (forall cat | cat in CategoricalBaseFeatures :: cat in record && record[cat].Choice?) &&
    (forall k | k in record && k !in CategoricalBaseFeatures :: record[k].Number? && IsNumericColumn(k))
  }

  /** The indicator columns `get_dummies` creates for the record's three selections. */
  function DummyColumns(record: map<string, Value>): set<string>
    requires Encodable(record)
  {
    set cat | cat in CategoricalBaseFeatures :: DummyName(cat, record[cat].option)
  }

  /** The schema columns the three selections switch on. */
  function SelectedColumns(sel: Selection): set<string> {
    {DummyName("season", sel.season),
     DummyName("item_category", sel.itemCategory),
     DummyName("supplier_reliability", sel.supplierReliability)}
  }

  /** Every indicator column is a one-hot column, hence never a numeric column. */
  lemma DummyColumnsAreOneHot(record: map<string, Value>)
    requires Encodable(record)
    ensures forall d :: d in DummyColumns(record) ==> !IsNumericColumn(d)
  {
    forall d | d in DummyColumns(record)
      ensures !IsNumericColumn(d)
    {
      var cat :| cat in CategoricalBaseFeatures && d == DummyName(cat, record[cat].option);
      DummyBelongsToField(cat, record[cat].option);
    }
  }

  /**
   * Line 49, `pd.get_dummies(df, columns=categorical_base_features)` on a
   * one-row frame: each categorical column is dropped and replaced by the
   * single indicator column "<field>_<selected>", set to 1; the numeric
   * columns are kept as they are.
   */
  function GetDummies(record: map<string, Value>): (frame: Frame)
    requires Encodable(record)
    ensures frame.Keys == (record.Keys - CategoricalFields) + DummyColumns(record)
    ensures forall k :: k in record && k !in CategoricalFields ==> frame[k] == record[k].x
    ensures forall d :: d in DummyColumns(record) ==> frame[d] == 1.0
  {
    DummyColumnsAreOneHot(record);
    var kept := map k | k in record && k !in CategoricalFields :: record[k].x;
    kept + map d | d in DummyColumns(record) :: 1.0
  }

  /**
   * The frame after the loop of lines 52-54 has run over `featureNames`: each
   * schema column not yet present is added with the value 0, in order.
   */
  function ZeroFilled(frame: Frame, featureNames: seq<string>): (filled: Frame)
    ensures forall k :: k in filled <==> k in frame || k in featureNames
    ensures forall k :: k in frame ==> filled[k] == frame[k]
    ensures forall k :: k in filled && k !in frame ==> filled[k] == 0.0
  {
    if featureNames == [] then frame
    else
      var init, last := featureNames[..|featureNames| - 1], featureNames[|featureNames| - 1];
      assert featureNames == init + [last];
      var before := ZeroFilled(frame, init);
      if last in before then before else before[last := 0.0]
  }

  /**
   * Lines 52-54: each schema column the frame lacks is added with the value 0;
   * columns already present keep their values.
   */
  method AddMissingColumns(frame: Frame, featureNames: seq<string>) returns (filled: Frame)
    ensures forall k :: k in filled <==> k in frame || k in featureNames
    ensures forall k :: k in frame ==> filled[k] == frame[k]
    ensures forall k :: k in filled && k !in frame ==> filled[k] == 0.0
    ensures filled == ZeroFilled(frame, featureNames)
  {
    filled := frame;
    for i := 0 to |featureNames|
      invariant filled == ZeroFilled(frame, featureNames[..i])
    {
      assert featureNames[..i + 1][..i] == featureNames[..i];
      if featureNames[i] !in filled {
        filled := filled[featureNames[i] := 0.0];
      }
    }
    assert featureNames[..|featureNames|] == featureNames;
  }

  /**
   * Line 57, `df[feature_names]`: the named columns in the given order, or
   * None where pandas raises KeyError because one of them is missing.
   */
  function Select(frame: Frame, featureNames: seq<string>): (r: Option<Row>)
    ensures r.Some? <==> forall col :: col in featureNames ==> col in frame
    ensures r.Some? ==> (|r.value| == |featureNames| &&
              forall i :: 0 <= i < |featureNames| ==> r.value[i] == (featureNames[i], frame[featureNames[i]]))
  {
    if forall col :: col in featureNames ==> col in frame then
      Some(seq(|featureNames|, i requires 0 <= i < |featureNames| => (featureNames[i], frame[featureNames[i]])))
    else
      None
  }

  /** The record merged at line 43 is what the encoding at line 49 expects. */
  lemma {:induction false} CombinedRecordIsEncodable(featureNames: seq<string>, entered: string -> real, sel: Selection)
    ensures Encodable(Merge(NumericInput(NumericalFeatures(featureNames), entered), CategoricalInput(sel)))
  {
    var numeric := NumericInput(NumericalFeatures(featureNames), entered);
    var combined := Merge(numeric, CategoricalInput(sel));
    forall k | k in combined && k !in CategoricalBaseFeatures
      ensures combined[k].Number? && IsNumericColumn(k)
    {
      assert k in numeric && k !in CategoricalInput(sel);
    }
  }

  /** A record whose categorical cells hold the selections gives the selected columns. */
  lemma DummiesOfSelection(record: map<string, Value>, sel: Selection)
    requires Encodable(record)
    requires forall cat | cat in CategoricalBaseFeatures :: record[cat] == Choice(CategoricalInput(sel)[cat])
    ensures DummyColumns(record) == SelectedColumns(sel)
  {
    var dummies := DummyColumns(record);
    assert record["season"] == Choice(sel.season);
    assert record["item_category"] == Choice(sel.itemCategory);
    assert record["supplier_reliability"] == Choice(sel.supplierReliability);
    assert DummyName("season", sel.season) in dummies;
    assert DummyName("item_category", sel.itemCategory) in dummies;
    assert DummyName("supplier_reliability", sel.supplierReliability) in dummies;
    forall d | d in dummies
      ensures d in SelectedColumns(sel)
    {
      var cat :| cat in CategoricalBaseFeatures && d == DummyName(cat, record[cat].option);
    }
  }

  /** The indicator columns of the merged record are the columns of the three selections. */
  lemma {:induction false} CombinedRecordDummies(featureNames: seq<string>, entered: string -> real, sel: Selection)
    ensures Encodable(Merge(NumericInput(NumericalFeatures(featureNames), entered), CategoricalInput(sel)))
    ensures DummyColumns(Merge(NumericInput(NumericalFeatures(featureNames), entered), CategoricalInput(sel)))
            == SelectedColumns(sel)
  {
    CombinedRecordIsEncodable(featureNames, entered, sel);
    var categorical := CategoricalInput(sel);
    var combined := Merge(NumericInput(NumericalFeatures(featureNames), entered), categorical);
    forall cat | cat in CategoricalBaseFeatures
      ensures combined[cat] == Choice(categorical[cat])
    {
      assert cat in categorical;
    }
    DummiesOfSelection(combined, sel);
  }

  /**
   * The row lines 42-57 hand to the classifier, as a function of the form's
   * inputs. Selecting the schema never fails after the zero-fill, and the row
   * has exactly the schema's columns, in schema order.
   */
  function AlignedRow(featureNames: seq<string>, entered: string -> real, sel: Selection): (row: Row)
    ensures |row| == |featureNames|
    ensures forall i :: 0 <= i < |featureNames| ==> row[i].0 == featureNames[i]
  {
    var combined := Merge(NumericInput(NumericalFeatures(featureNames), entered), CategoricalInput(sel));
    CombinedRecordIsEncodable(featureNames, entered, sel);
    var filled := ZeroFilled(GetDummies(combined), featureNames);
    Select(filled, featureNames).value
  }

  /**
   * The value a schema column should carry, stated without any of the pandas
   * steps: 1 for the indicator column of a selected option, 0 for every other
   * one-hot column and for a column named like a categorical field (its number
   * is overwritten by the selection at line 43), and otherwise the number typed
   * in for that column.
   */
  function ExpectedCell(col: string, entered: string -> real, sel: Selection): real {
    if col in SelectedColumns(sel) then 1.0
    else if !IsNumericColumn(col) || col in CategoricalBaseFeatures then 0.0
    else entered(col)
  }

  /**
   * The aligned row has exactly the schema's columns, in schema order, and each
   * carries its reference value.
   */
  lemma {:induction false} AlignedRowMatchesReference(featureNames: seq<string>, entered: string -> real, sel: Selection)
    ensures |AlignedRow(featureNames, entered, sel)| == |featureNames|
    ensures forall i :: 0 <= i < |featureNames| ==>
              AlignedRow(featureNames, entered, sel)[i] == (featureNames[i], ExpectedCell(featureNames[i], entered, sel))
  {
    var combined := Merge(NumericInput(NumericalFeatures(featureNames), entered), CategoricalInput(sel));
    CombinedRecordDummies(featureNames, entered, sel);
    MergedNumbers(featureNames, entered, sel);
    FilledMatchesReference(combined, featureNames, entered, sel);
  }

  /**
   * Every schema column of the zero-filled frame carries its reference value,
   * for any record shaped like the merged one.
   */
  lemma FilledMatchesReference(record: map<string, Value>, featureNames: seq<string>, entered: string -> real,
                               sel: Selection)
    requires Encodable(record) && DummyColumns(record) == SelectedColumns(sel)
    requires forall col | col in featureNames && IsNumericColumn(col) && col !in CategoricalBaseFeatures ::
               col in record && record[col] == Number(entered(col))
    ensures forall col | col in featureNames ::
              ZeroFilled(GetDummies(record), featureNames)[col] == ExpectedCell(col, entered, sel)
  {
    forall col | col in featureNames
      ensures ZeroFilled(GetDummies(record), featureNames)[col] == ExpectedCell(col, entered, sel)
    {
      ReferenceCell(record, featureNames, entered, sel, col);
    }
  }

  /** One schema column of the zero-filled frame carries its reference value. */
  lemma ReferenceCell(record: map<string, Value>, featureNames: seq<string>, entered: string -> real,
                      sel: Selection, col: string)
    requires Encodable(record) && DummyColumns(record) == SelectedColumns(sel)
    requires IsNumericColumn(col) && col !in CategoricalBaseFeatures ==>
               col in record && record[col] == Number(entered(col))
    requires col in featureNames
    ensures ZeroFilled(GetDummies(record), featureNames)[col] == ExpectedCell(col, entered, sel)
  {
    var dummies := GetDummies(record);
    DummiesCell(record, entered, sel, col);
    if col in dummies {
      assert ZeroFilled(dummies, featureNames)[col] == dummies[col];
    } else {
      assert ZeroFilled(dummies, featureNames)[col] == 0.0;
    }
  }

  /**
   * A column present after one-hot encoding already carries its reference
   * value; the reference value of an absent column is 0.
   */
  lemma DummiesCell(record: map<string, Value>, entered: string -> real, sel: Selection, col: string)
    requires Encodable(record) && DummyColumns(record) == SelectedColumns(sel)
    requires IsNumericColumn(col) && col !in CategoricalBaseFeatures ==>
               col in record && record[col] == Number(entered(col))
    ensures col in GetDummies(record) ==> GetDummies(record)[col] == ExpectedCell(col, entered, sel)
    ensures col !in GetDummies(record) ==> ExpectedCell(col, entered, sel) == 0.0
  {
    if col in SelectedColumns(sel) {
      HotAfterGetDummies(record, col);
    } else if !IsNumericColumn(col) || col in CategoricalBaseFeatures {
      AbsentAfterGetDummies(record, col);
    } else {
      KeptByGetDummies(record, col);
    }
  }

  /** Every created indicator column is 1 after one-hot encoding. */
  lemma HotAfterGetDummies(record: map<string, Value>, col: string)
    requires Encodable(record) && col in DummyColumns(record)
    ensures col in GetDummies(record) && GetDummies(record)[col] == 1.0
  {
  }

  /**
   * A one-hot column that is not a created indicator column, and a column
   * named like a categorical field, are both missing after one-hot encoding.
   */
  lemma AbsentAfterGetDummies(record: map<string, Value>, col: string)
    requires Encodable(record) && col !in DummyColumns(record)
    requires !IsNumericColumn(col) || col in CategoricalBaseFeatures
    ensures col !in GetDummies(record)
  {
  }

  /** One-hot encoding keeps a number stored under a key that is not a categorical field. */
  lemma KeptByGetDummies(record: map<string, Value>, col: string)
    requires Encodable(record) && col in record && col !in CategoricalBaseFeatures
    ensures col in GetDummies(record) && GetDummies(record)[col] == record[col].x
  {
  }

  /** The merged record holds the typed-in number of every numeric schema column not named like a categorical field. */
  lemma MergedNumbers(featureNames: seq<string>, entered: string -> real, sel: Selection)
    ensures var merged := Merge(NumericInput(NumericalFeatures(featureNames), entered), CategoricalInput(sel));
            forall col | col in featureNames && IsNumericColumn(col) && col !in CategoricalBaseFeatures ::
              col in merged && merged[col] == Number(entered(col))
  {
    var merged := Merge(NumericInput(NumericalFeatures(featureNames), entered), CategoricalInput(sel));
    forall col | col in featureNames && IsNumericColumn(col) && col !in CategoricalBaseFeatures
      ensures col in merged && merged[col] == Number(entered(col))
    {
      TypedInRecorded(featureNames, entered, col);
      NotSelectable(sel, col);
    }
  }

  /** The numeric record holds an entry for every numeric schema column. */
  lemma TypedInRecorded(featureNames: seq<string>, entered: string -> real, col: string)
    requires col in featureNames && IsNumericColumn(col)
    ensures col in NumericInput(NumericalFeatures(featureNames), entered)
  {
    assert col in NumericalFeatures(featureNames);
  }

  /** The categorical record holds nothing under a key that is not a categorical field. */
  lemma NotSelectable(sel: Selection, col: string)
    requires col !in CategoricalBaseFeatures
    ensures col !in CategoricalInput(sel)
  {
  }


  /**
   * Every column that needs no one-hot encoding and is not named like a
   * categorical field carries the number the user typed in for it, unchanged.
   */
  lemma {:induction false} NumericInputsCarriedThrough(featureNames: seq<string>, entered: string -> real, sel: Selection)
    ensures forall i :: (0 <= i < |featureNames| && IsNumericColumn(featureNames[i]) &&
                         featureNames[i] !in CategoricalBaseFeatures) ==>
              AlignedRow(featureNames, entered, sel)[i].1 == entered(featureNames[i])
  {
    AlignedRowMatchesReference(featureNames, entered, sel);
    forall i | 0 <= i < |featureNames| && IsNumericColumn(featureNames[i]) &&
               featureNames[i] !in CategoricalBaseFeatures {
      NumericCell(featureNames[i], entered, sel);
    }
  }

  /** The reference value of a numeric column not named like a categorical field is its input. */
  lemma NumericCell(col: string, entered: string -> real, sel: Selection)
    requires IsNumericColumn(col) && col !in CategoricalBaseFeatures
    ensures ExpectedCell(col, entered, sel) == entered(col)
  {
    DummyBelongsToField("season", sel.season);
    DummyBelongsToField("item_category", sel.itemCategory);
    DummyBelongsToField("supplier_reliability", sel.supplierReliability);
  }

  /**
   * The reference value of a one-hot column of `field`: 1 when it is the
   * column of the field's selected option, 0 otherwise.
   */
  lemma OneHotCell(col: string, entered: string -> real, sel: Selection, field: string)
    requires field in CategoricalBaseFeatures && StartsWith(col, field + "_")
    ensures ExpectedCell(col, entered, sel) ==
              if col == DummyName(field, CategoricalInput(sel)[field]) then 1.0 else 0.0
  {
    if col == DummyName("season", sel.season) {
      DummyBelongsToField("season", sel.season);
      PrefixesExclusive(col, field, "season");
    } else if col == DummyName("item_category", sel.itemCategory) {
      DummyBelongsToField("item_category", sel.itemCategory);
      PrefixesExclusive(col, field, "item_category");
    } else if col == DummyName("supplier_reliability", sel.supplierReliability) {
      DummyBelongsToField("supplier_reliability", sel.supplierReliability);
      PrefixesExclusive(col, field, "supplier_reliability");
    } else {
      assert !IsNumericColumn(col);
    }
  }

  /**
   * Within the one-hot columns of one field, the column of the selected option
   * is 1 and every other is 0, whatever the other two fields selected.
   */
  lemma {:induction false} OneHotColumnsOfField(featureNames: seq<string>, entered: string -> real, sel: Selection, field: string)
    requires field in CategoricalBaseFeatures
    ensures forall i :: 0 <= i < |featureNames| && StartsWith(featureNames[i], field + "_") ==>
              AlignedRow(featureNames, entered, sel)[i].1 ==
                (if featureNames[i] == DummyName(field, CategoricalInput(sel)[field]) then 1.0 else 0.0)
  {
    AlignedRowMatchesReference(featureNames, entered, sel);
    forall i | 0 <= i < |featureNames| && StartsWith(featureNames[i], field + "_") {
      OneHotCell(featureNames[i], entered, sel, field);
    }
  }

  /**
   * Exactly one one-hot column of a field is 1 when the selected option has a
   * schema column: that column, and no other; when it has none (schema drift), alignment still succeeds,
   * no column is made up for it, and all of the field's one-hot columns are 0.
   */
  lemma {:induction false} ExactlyOneHotPerField(featureNames: seq<string>, entered: string -> real, sel: Selection, field: string)
    requires field in CategoricalBaseFeatures
    ensures var row, hot := AlignedRow(featureNames, entered, sel), DummyName(field, CategoricalInput(sel)[field]);
            |row| == |featureNames| &&
            (hot in featureNames ==> exists i :: 0 <= i < |row| && row[i] == (hot, 1.0)) &&
            (forall i :: (0 <= i < |row| && StartsWith(row[i].0, field + "_") && row[i].1 == 1.0) ==>
                           row[i].0 == hot) &&
            (hot !in featureNames ==>
               forall i :: 0 <= i < |row| && StartsWith(row[i].0, field + "_") ==> row[i].1 == 0.0)
  {
    var row, hot := AlignedRow(featureNames, entered, sel), DummyName(field, CategoricalInput(sel)[field]);
    OneHotColumnsOfField(featureNames, entered, sel, field);
    if hot in featureNames {
      var i :| 0 <= i < |featureNames| && featureNames[i] == hot;
      DummyBelongsToField(field, CategoricalInput(sel)[field]);
      assert row[i] == (hot, 1.0);
    }
  }

  /**
   * Lines 46-57 step by step: collect the numbers, merge in the selections,
   * one-hot encode, zero-fill the missing schema columns, select the schema.
   */
  method Align(featureNames: seq<string>, entered: string -> real, sel: Selection) returns (aligned: Row)
    ensures aligned == AlignedRow(featureNames, entered, sel)
    ensures |aligned| == |featureNames|
    ensures forall i :: 0 <= i < |featureNames| ==>
              aligned[i] == (featureNames[i], ExpectedCell(featureNames[i], entered, sel))
  {
    var numericalFeatures := NumericalFeatures(featureNames);
    var userInput := CollectNumericInput(numericalFeatures, entered);
    var combined := Merge(userInput, CategoricalInput(sel));
    CombinedRecordIsEncodable(featureNames, entered, sel);
    var frame := GetDummies(combined);
    frame := AddMissingColumns(frame, featureNames);
    var selected := Select(frame, featureNames);
    aligned := selected.value;
    AlignedRowMatchesReference(featureNames, entered, sel);
  }

  /** Two rows of three cells that agree cell by cell are equal. */
  lemma RowOfThree(row: Row, expected: Row)
    requires |row| == |expected| == 3
    requires row[0] == expected[0] && row[1] == expected[1] && row[2] == expected[2]
    ensures row == expected
  {
  }

  /** Facts about the column names of the worked example below. */
  lemma ExampleColumnNames()
    ensures DummyName("season", "peak") == "season_peak"
    ensures DummyName("season", "peak") != "season_off-peak"
    ensures StartsWith("season_off-peak", "season" + "_")
    ensures IsNumericColumn("qty") && "qty" !in CategoricalBaseFeatures
  {
    assert DummyName("season", "peak")[7] == 'p';
    DifferAt("season_", "qty", 0);
    DifferAt("item_category_", "qty", 0);
    DifferAt("supplier_reliability_", "qty", 0);
  }

  /** One cell of the aligned row, read off the reference theorem. */
  lemma {:induction false} AlignedCell(featureNames: seq<string>, entered: string -> real, sel: Selection, i: nat)
    requires i < |featureNames|
    ensures |AlignedRow(featureNames, entered, sel)| == |featureNames|
    ensures AlignedRow(featureNames, entered, sel)[i] == (featureNames[i], ExpectedCell(featureNames[i], entered, sel))
  {
    AlignedRowMatchesReference(featureNames, entered, sel);
  }

  /** The reference values of the three columns of the worked example below. */
  lemma ExampleCells(entered: string -> real, sel: Selection)
    requires entered("qty") == 10.0 && sel.season == "peak"
    ensures ExpectedCell("qty", entered, sel) == 10.0
    ensures ExpectedCell("season_peak", entered, sel) == 1.0
    ensures ExpectedCell("season_off-peak", entered, sel) == 0.0
  {
    ExampleColumnNames();
    assert "qty" !in SelectedColumns(sel) by {
      DummyBelongsToField("season", sel.season);
      DummyBelongsToField("item_category", sel.itemCategory);
      DummyBelongsToField("supplier_reliability", sel.supplierReliability);
    }
    OneHotCell("season_off-peak", entered, sel, "season");
  }

  /** The worked example: schema [qty, season_peak, season_off-peak], 10 typed in, season "peak". */
  lemma PeakSeasonExample(entered: string -> real, sel: Selection)
    requires entered("qty") == 10.0 && sel.season == "peak"
    ensures AlignedRow(["qty", "season_peak", "season_off-peak"], entered, sel) ==
            [("qty", 10.0), ("season_peak", 1.0), ("season_off-peak", 0.0)]
  {
    var schema := ["qty", "season_peak", "season_off-peak"];
    ExampleCells(entered, sel);
    AlignedCell(schema, entered, sel, 0);
    AlignedCell(schema, entered, sel, 1);
    AlignedCell(schema, entered, sel, 2);
    RowOfThree(AlignedRow(schema, entered, sel), [("qty", 10.0), ("season_peak", 1.0), ("season_off-peak", 0.0)]);
  }
}
