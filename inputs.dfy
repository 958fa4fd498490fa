/**
 * The raw input record the form collects (app.py, lines 24-43): one number
 * per numeric schema column, one selection per categorical field, and the
 * merge of the two into a single record.
 */
module Inputs {
  import opened Schema

  /** A cell of the combined record: a typed-in number or a selected option. */
  datatype Value = Number(x: real) | Choice(option: string)

  /** The three selectbox results (lines 34-38). */
  datatype Selection = Selection(season: string, itemCategory: string, supplierReliability: string)

  /** `categorical_input_dict`: each categorical field mapped to its selected option. */
  function CategoricalInput(sel: Selection): (d: map<string, string>)
    ensures d.Keys == set cat | cat in CategoricalBaseFeatures
    ensures d["season"] == sel.season && d["item_category"] == sel.itemCategory &&
            d["supplier_reliability"] == sel.supplierReliability
  {
    map["season" := sel.season, "item_category" := sel.itemCategory,
        "supplier_reliability" := sel.supplierReliability]
  }

  /**
   * `user_input_dict` after the loop of lines 26-27 has run over `features`:
   * one assignment `d[f] = entered(f)` per feature, in order.
   */
  function NumericInput(features: seq<string>, entered: string -> real): (d: map<string, real>)
    ensures d.Keys == set f | f in features
    ensures forall f :: f in d ==> d[f] == entered(f)
  {
    if features == [] then map[]
    else
      var init, last := features[..|features| - 1], features[|features| - 1];
      assert features == init + [last];
      NumericInput(init, entered)[last := entered(last)]
  }

  /**
   * The loop of lines 26-27. `entered(f)` is the value of the number widget
   * labelled "Enter f".
   */
  method CollectNumericInput(features: seq<string>, entered: string -> real) returns (d: map<string, real>)
    ensures forall f :: f in d <==> f in features
    ensures forall f :: f in d ==> d[f] == entered(f)
    ensures d == NumericInput(features, entered)
  {
    d := map[];
    for i := 0 to |features|
      invariant d == NumericInput(features[..i], entered)
    {
      assert features[..i + 1][..i] == features[..i];
      d := d[features[i] := entered(features[i])];
    }
    assert features[..|features|] == features;
  }

  /**
   * Lines 42-43: a copy of the numeric record updated with the categorical
   * selections. Dafny's map `+` is `dict.update`: keys of the right operand win.
   */
  function Merge(numeric: map<string, real>, categorical: map<string, string>): (r: map<string, Value>)
    ensures r.Keys == numeric.Keys + categorical.Keys
    ensures forall k :: k in categorical ==> r[k] == Choice(categorical[k])
    ensures forall k :: k in numeric && k !in categorical ==> r[k] == Number(numeric[k])
  {
    var copy := map k | k in numeric :: Number(numeric[k]);
    copy + map k | k in categorical :: Choice(categorical[k])
  }
}
