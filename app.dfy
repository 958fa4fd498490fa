/**
 * One press of "Predict Stock Status" (app.py, lines 40-66): align the form's
 * inputs with the schema, ask the classifier for a class code, and decode it.
 */
module App {
  import opened Wrappers
  import opened Schema
  import opened Inputs
  import opened Alignment
  import opened Labels

  /**
   * `predict` stands for the trained classifier's `predict` (line 60), applied
   * to the aligned one-row frame; `None` is the ValueError of line 63.
   */
  method PredictStockStatus(featureNames: seq<string>, entered: string -> real, sel: Selection,
                            labelMap: LabelMap, predict: Row -> int)
    returns (status: Option<string>)
    ensures status == DecodeLabel(labelMap, predict(AlignedRow(featureNames, entered, sel)))
    ensures status.None? <==> forall i :: 0 <= i < |labelMap| ==>
              labelMap[i].1 != predict(AlignedRow(featureNames, entered, sel))
    ensures status.Some? ==> (status.value, predict(AlignedRow(featureNames, entered, sel))) in labelMap
  {
    var row := Align(featureNames, entered, sel);
    var prediction := predict(row);
    status := DecodeLabel(labelMap, prediction);
  }
}
