/**
 * Decoding the classifier's class code back to a stock status through the
 * label map (app.py, line 63):
 * `list(label_map.keys())[list(label_map.values()).index(code)]`.
 */
module Labels {
  import opened Wrappers

  /**
   * The label map as the Python dict it is: (status, code) entries in
   * insertion order.
   */
  type LabelMap = seq<(string, int)>

  /** A dict holds each key once. */
  predicate DistinctKeys(labelMap: LabelMap) {
    forall i, j :: 0 <= i < j < |labelMap| ==> labelMap[i].0 != labelMap[j].0
  }

  /** No two statuses share a class code. */
  predicate InjectiveCodes(labelMap: LabelMap) {
    forall i, j :: 0 <= i < j < |labelMap| ==> labelMap[i].1 != labelMap[j].1
  }

  /** `list(label_map.keys())`. */
  function Keys(labelMap: LabelMap): (ks: seq<string>)
    ensures |ks| == |labelMap|
    ensures forall i :: 0 <= i < |labelMap| ==> ks[i] == labelMap[i].0
  {
    seq(|labelMap|, i requires 0 <= i < |labelMap| => labelMap[i].0)
  }

  /** `list(label_map.values())`. */
  function Values(labelMap: LabelMap): (vs: seq<int>)
    ensures |vs| == |labelMap|
    ensures forall i :: 0 <= i < |labelMap| ==> vs[i] == labelMap[i].1
  {
    seq(|labelMap|, i requires 0 <= i < |labelMap| => labelMap[i].1)
  }

  /** Python's `list.index`: the first position holding `x`, or None where it raises ValueError. */
  function IndexOf(xs: seq<int>, x: int): (r: Option<nat>)
    ensures r.Some? ==> r.value < |xs| && xs[r.value] == x && forall j :: 0 <= j < r.value ==> xs[j] != x
    ensures r.None? <==> x !in xs
  {
    if xs == [] then None
    else if xs[0] == x then Some(0)
    else match IndexOf(xs[1..], x)
      case None => None
      case Some(i) => Some(i + 1)
  }

  /**
   * Line 63: the status of the first entry whose code is `code`, or None
   * exactly when no entry has that code (where `.index` raises ValueError).
   */
  function DecodeLabel(labelMap: LabelMap, code: int): (r: Option<string>)
    ensures r.None? <==> forall i :: 0 <= i < |labelMap| ==> labelMap[i].1 != code
    ensures r.Some? ==>
              exists i :: 0 <= i < |labelMap| && labelMap[i] == (r.value, code) &&
                          forall j :: 0 <= j < i ==> labelMap[j].1 != code
  {
    var vs := Values(labelMap);
    match IndexOf(vs, code)
    case None =>
      assert forall i :: 0 <= i < |labelMap| ==> vs[i] == labelMap[i].1;
      None
    case Some(i) => Some(Keys(labelMap)[i])
  }

  /** `label_map[status]`: the code of a status, or None where the dict raises KeyError. */
  function EncodeLabel(labelMap: LabelMap, status: string): (r: Option<int>)
    ensures r.Some? <==> exists i :: 0 <= i < |labelMap| && labelMap[i].0 == status
  {
    if labelMap == [] then None
    else if labelMap[|labelMap| - 1].0 == status then Some(labelMap[|labelMap| - 1].1)
    else EncodeLabel(labelMap[..|labelMap| - 1], status)
  }

  /** A found status maps to the decoded code. */
  lemma {:induction false} EncodeFindsEntry(labelMap: LabelMap, i: nat)
    requires DistinctKeys(labelMap) && i < |labelMap|
    ensures EncodeLabel(labelMap, labelMap[i].0) == Some(labelMap[i].1)
  {
    var n := |labelMap| - 1;
    if i < n {
      EncodeFindsEntry(labelMap[..n], i);
    }
  }

  /**
   * With distinct codes, decoding inverts the label map: the code of every
   * status decodes back to that status.
   */
  lemma {:induction false} DecodeInvertsEncode(labelMap: LabelMap, status: string)
    requires DistinctKeys(labelMap) && InjectiveCodes(labelMap)
    requires exists i :: 0 <= i < |labelMap| && labelMap[i].0 == status
    ensures EncodeLabel(labelMap, status).Some?
    ensures DecodeLabel(labelMap, EncodeLabel(labelMap, status).value) == Some(status)
  {
    var i :| 0 <= i < |labelMap| && labelMap[i].0 == status;
    EncodeFindsEntry(labelMap, i);
  }
}
