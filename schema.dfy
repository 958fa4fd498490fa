/**
 * The trained feature schema and the rule that splits it into the columns
 * the user types a number for and the one-hot columns of the three
 * categorical fields (app.py, lines 18-22).
 */
module Schema {

  /** The fields that were one-hot encoded before training, in the app's order. */
  const CategoricalBaseFeatures: seq<string> := ["season", "item_category", "supplier_reliability"]

  /** Python's `str.startswith`. */
  predicate StartsWith(s: string, prefix: string) {
    prefix <= s
  }

  /** The name pandas gives the indicator column of `value` in `field` (separator "_"). */
  function DummyName(field: string, value: string): string {
    field + "_" + value
  }

  /** A column gets a numeric input when it starts with no "<field>_" prefix. */
  predicate IsNumericColumn(col: string) {
    forall cat | cat in CategoricalBaseFeatures :: !StartsWith(col, cat + "_")
  }

  /**
   * The list comprehension of line 22: the schema columns that are not one-hot
   * columns, in schema order.
   */
  function NumericalFeatures(featureNames: seq<string>): (r: seq<string>)
    ensures |r| <= |featureNames|
    ensures forall col :: col in r <==> col in featureNames && IsNumericColumn(col)
  {
    if featureNames == [] then []
    else
      var init, last := featureNames[..|featureNames| - 1], featureNames[|featureNames| - 1];
      assert featureNames == init + [last];
      NumericalFeatures(init) + (if IsNumericColumn(last) then [last] else [])
  }

  /** The schema positions whose columns `NumericalFeatures` keeps, in increasing order. */
  ghost function NumericPositions(featureNames: seq<string>): seq<nat>
  {
    if featureNames == [] then []
    else
      var n := |featureNames| - 1;
      NumericPositions(featureNames[..n]) + (if IsNumericColumn(featureNames[n]) then [n] else [])
  }

  /**
   * The positions are strictly increasing schema positions, and a position is
   * listed exactly when its column is numeric.
   */
  lemma {:induction false} NumericPositionsExact(featureNames: seq<string>)
    ensures forall k :: 0 <= k < |NumericPositions(featureNames)| ==>
              NumericPositions(featureNames)[k] < |featureNames|
    ensures forall k, l :: 0 <= k < l < |NumericPositions(featureNames)| ==>
              NumericPositions(featureNames)[k] < NumericPositions(featureNames)[l]
    ensures forall j :: 0 <= j < |featureNames| ==>
              (j in NumericPositions(featureNames) <==> IsNumericColumn(featureNames[j]))
  {
    if featureNames != [] {
      var n := |featureNames| - 1;
      var init := featureNames[..n];
      NumericPositionsExact(init);
      var p := NumericPositions(init);
      var tp := if IsNumericColumn(featureNames[n]) then [n] else [];
      assert NumericPositions(featureNames) == p + tp;
      forall k, l | 0 <= k < l < |p + tp|
        ensures (p + tp)[k] < (p + tp)[l]
      {
        if l < |p| {
          assert (p + tp)[k] == p[k] && (p + tp)[l] == p[l];
        } else {
          assert (p + tp)[k] == p[k] < n;
        }
      }
      forall j | 0 <= j < |featureNames|
        ensures j in p + tp <==> IsNumericColumn(featureNames[j])
      {
        if j < n {
          assert featureNames[j] == init[j];
          assert j !in tp;
        } else {
          assert j !in p;
        }
      }
    }
  }

  /** The k-th kept column is the column at the k-th listed position. */
  lemma {:induction false} NumericalFeaturesAtPositions(featureNames: seq<string>)
    ensures |NumericPositions(featureNames)| == |NumericalFeatures(featureNames)|
    ensures forall k :: 0 <= k < |NumericPositions(featureNames)| ==>
              NumericPositions(featureNames)[k] < |featureNames| &&
              featureNames[NumericPositions(featureNames)[k]] == NumericalFeatures(featureNames)[k]
  {
    if featureNames != [] {
      var n := |featureNames| - 1;
      var init, last := featureNames[..n], featureNames[n];
      NumericalFeaturesAtPositions(init);
      var p, r := NumericPositions(init), NumericalFeatures(init);
      var tp, tr := if IsNumericColumn(last) then [n] else [], if IsNumericColumn(last) then [last] else [];
      assert featureNames == init + [last];
      assert NumericPositions(featureNames) == p + tp;
      assert NumericalFeatures(featureNames) == r + tr;
      forall k | 0 <= k < |p + tp|
        ensures (p + tp)[k] < |featureNames| && featureNames[(p + tp)[k]] == (r + tr)[k]
      {
        if k < |p| {
          assert (p + tp)[k] == p[k] && (r + tr)[k] == r[k];
          assert featureNames[p[k]] == init[p[k]];
        }
      }
    }
  }

  /**
   * `NumericalFeatures` is the order-preserving subsequence of the schema made
   * of exactly its numeric columns: the k-th kept column sits at the k-th
   * position of a strictly increasing list of positions, and a position is on
   * that list exactly when its column is numeric.
   */
  lemma {:induction false} NumericalFeaturesIsOrderedSubsequence(featureNames: seq<string>)
    ensures |NumericPositions(featureNames)| == |NumericalFeatures(featureNames)|
    ensures forall k :: 0 <= k < |NumericPositions(featureNames)| ==>
              NumericPositions(featureNames)[k] < |featureNames| &&
              featureNames[NumericPositions(featureNames)[k]] == NumericalFeatures(featureNames)[k]
    ensures forall k, l :: 0 <= k < l < |NumericPositions(featureNames)| ==>
              NumericPositions(featureNames)[k] < NumericPositions(featureNames)[l]
    ensures forall j :: 0 <= j < |featureNames| ==>
              (j in NumericPositions(featureNames) <==> IsNumericColumn(featureNames[j]))
  {
    NumericPositionsExact(featureNames);
    NumericalFeaturesAtPositions(featureNames);
  }

  /** `p` is not a prefix of `s` when the two differ at a position both have. */
  lemma DifferAt(p: string, s: string, i: nat)
    requires i < |p| && i < |s| && p[i] != s[i]
    ensures !StartsWith(s, p)
  {
  }

  /** The prefix "<a>_" of one categorical field is never a prefix of "<b>_" for another. */
  lemma FieldPrefixesIncomparable(a: string, b: string)
    requires a in CategoricalBaseFeatures && b in CategoricalBaseFeatures && a != b
    ensures !StartsWith(b + "_", a + "_")
  {
    if a == "season" || b == "season" {
      if a == "season" && b == "item_category" { DifferAt(a + "_", b + "_", 0); }
      else if a == "season" { DifferAt(a + "_", b + "_", 1); }
      else if a == "item_category" { DifferAt(a + "_", b + "_", 0); }
      else { DifferAt(a + "_", b + "_", 1); }
    } else {
      DifferAt(a + "_", b + "_", 0);
    }
  }

  /**
   * A column starts with at most one categorical prefix: no field's "<field>_"
   * is a prefix of another's, so the three groups of one-hot columns are disjoint.
   */
  lemma PrefixesExclusive(col: string, a: string, b: string)
    requires a in CategoricalBaseFeatures && b in CategoricalBaseFeatures
    requires StartsWith(col, a + "_") && StartsWith(col, b + "_")
    ensures a == b
  {
    if a != b {
      FieldPrefixesIncomparable(a, b);
      FieldPrefixesIncomparable(b, a);
    }
  }

  /** Every indicator column pandas creates for a categorical field is a one-hot column of that field. */
  lemma DummyBelongsToField(field: string, value: string)
    requires field in CategoricalBaseFeatures
    ensures StartsWith(DummyName(field, value), field + "_")
    ensures !IsNumericColumn(DummyName(field, value))
  {
  }

  /** No categorical field name is itself a one-hot column name. */
  lemma BaseNamesAreNotOneHot(field: string)
    requires field in CategoricalBaseFeatures
    ensures IsNumericColumn(field)
  {
    forall cat | cat in CategoricalBaseFeatures
      ensures !StartsWith(field, cat + "_")
    {
      if cat == field {
        assert |cat + "_"| > |field|;
      } else if field == "season" || cat == "season" {
        if field == "item_category" || cat == "item_category" { DifferAt(cat + "_", field, 0); }
        else { DifferAt(cat + "_", field, 1); }
      } else {
        DifferAt(cat + "_", field, 0);
      }
    }
  }
}
