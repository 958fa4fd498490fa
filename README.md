# Stock risk prediction: feature alignment and label decoding

This project models the one piece of logic in the Stock Risk Prediction form
(`app.py`). The logic turns what the user entered into the exact feature row the
trained classifier expects. It then turns the classifier's class code back into
a stock status ("overstocked" or "stockout").

The steps, each modelled in its own module:

- **Schema** (`schema.dfy`, app.py lines 18-22). The three categorical base
  fields are `season`, `item_category` and `supplier_reliability`. A schema
  column is numeric when it starts with none of `season_`, `item_category_` and
  `supplier_reliability_`. `NumericalFeatures` keeps those columns in schema
  order. It is proved to be the order-preserving subsequence of exactly the
  numeric columns. No column can start with two of the prefixes.
- **Inputs** (`inputs.dfy`, lines 24-43). The loop of lines 26-27 builds the
  numeric record. The three selectbox results form the categorical record. The
  two are merged by copy-and-update (Dafny's map `+`, where the right operand
  wins on a shared key, just as `dict.update` does).
- **Alignment** (`alignment.dfy`, lines 46-57). `pd.get_dummies` on the one-row
  frame drops each categorical column and adds its indicator column
  `"<field>_<selected>"` set to 1. The loop of lines 52-54 adds every missing
  schema column with value 0. `df[feature_names]` then selects the schema's
  columns in schema order; a missing column would be a KeyError. The main
  theorem, `AlignedRowMatchesReference`, says the aligned row has exactly the
  schema's columns, in order. It also says each column holds the value given
  by `ExpectedCell`, a reference definition that does not mention any pandas
  step. The guarantees about numeric inputs and one-hot columns follow from it.
- **Labels** (`labels.dfy`, line 63). The label map is an insertion-ordered
  dict of (status, code) entries. Decoding returns the first status whose code
  matches, or `None` where `.index` raises ValueError. With distinct codes,
  decoding inverts the map.
- **App** (`app.dfy`, lines 40-66). One press of the predict button: align,
  predict, decode.

Inputs the environment supplies become parameters:

- The number widgets become `entered: string -> real`, giving the value typed
  into the widget labelled "Enter <feature>".
- The selectboxes become a `Selection` of three strings.
- The trained classifier becomes `predict: Row -> int`.
- The loaded schema is `featureNames: seq<string>`.
- The label map is `LabelMap`.

### Where the code departs from plain one-hot encoding

The model follows the code in each case.

- Plain one-hot encoding gives every categorical field exactly one 1 among
  its columns. The code gives that only when the schema has a column for the
  selected option. Otherwise all of that field's columns are 0
  (`ExactlyOneHotPerField`).
- A numeric schema column named exactly `season`, `item_category` or
  `supplier_reliability` does not carry the user's number. Line 43 overwrites
  that number with the selection. `get_dummies` then drops the column, and
  line 54 fills it with 0 (`ExpectedCell`, `NumericInputsCarriedThrough`).
- The code reports nothing when a selection has no schema column: it
  zero-fills the missing schema columns and silently drops indicator columns
  the schema does not have.

## Model

| member | source | states |
|---|---|---|
| Schema.NumericalFeatures | app.py:22 | a column is kept exactly when it is a schema column starting with no categorical prefix; never longer than the schema |
| Schema.NumericalFeaturesIsOrderedSubsequence | app.py:19-22 | the kept columns are the schema's numeric columns in schema order: they sit at strictly increasing schema positions, and a position is kept exactly when its column is numeric |
| Schema.PrefixesExclusive | app.py:19-22 | no column starts with the prefixes of two different categorical fields, so the three one-hot groups are disjoint |
| Inputs.CategoricalInput | app.py:34-38 | the categorical record has exactly the three categorical fields as keys, and each field holds the option selected for it |
| Inputs.NumericInput | app.py:24-27 | the numeric record has exactly the given features as keys, each mapped to the number typed into its widget |
| Inputs.CollectNumericInput | app.py:24-27 | the loop builds the same numeric record: exactly the numeric features as keys, each mapped to the number typed into its widget |
| Inputs.Merge | app.py:42-43 | the merged record holds every key of both records; a categorical selection replaces a numeric entry with the same key; every other numeric entry is kept |
| Alignment.CombinedRecordIsEncodable | app.py:42-49 | the merged record holds a selection under each categorical field, and every other key holds a number and is not a one-hot column name |
| Alignment.CombinedRecordDummies | app.py:42-49 | the indicator columns created from the merged record are exactly the columns of the three selected options |
| Alignment.GetDummies | app.py:48-49 | the categorical columns are replaced by one indicator column per field set to 1, and the numeric columns keep their values |
| Alignment.ZeroFilled | app.py:52-54 | the filled frame holds every column it had plus every schema column; columns already present keep their values; each added column is 0 |
| Alignment.AddMissingColumns | app.py:52-54 | afterwards every schema column is present; columns already present keep their values; only absent columns are added, each with value 0 |
| Alignment.Select | app.py:56-57 | succeeds exactly when every schema column is present, and then yields the schema's columns in schema order with their values; extra columns are dropped |
| Alignment.AlignedRow | app.py:42-57 | selecting the schema after the zero-fill never raises KeyError, and the row has exactly the schema's columns, in schema order, with no extra and no missing column |
| Alignment.AlignedRowMatchesReference | app.py:42-57 | the aligned row has exactly the schema's columns, in schema order, and each holds its reference value: 1 for a selected option's column, 0 for other one-hot columns and for columns named like a categorical field, the typed-in number otherwise |
| Alignment.NumericInputsCarriedThrough | app.py:26-57 | every numeric schema column not named like a categorical field carries the user's number unchanged |
| Alignment.OneHotColumnsOfField | app.py:49-57 | among one field's one-hot columns, the selected option's column is 1 and every other is 0 |
| Alignment.ExactlyOneHotPerField | app.py:49-57 | when the selected option has a schema column it is 1 and no other column of that field is 1; when it has none, alignment still succeeds and all of that field's columns are 0 |
| Alignment.Align | app.py:22-57 | the step-by-step alignment yields exactly the schema's columns, in order, each with its reference value |
| Alignment.PeakSeasonExample | app.py:46-57 | with schema [qty, season_peak, season_off-peak], 10 typed in and season "peak", the row is qty 10, season_peak 1, season_off-peak 0 |
| Labels.IndexOf | app.py:63 | returns the first position holding the code, or None exactly when no position holds it |
| Labels.DecodeLabel | app.py:63 | decoding fails exactly when no entry has the code; otherwise it yields the status of the first entry with that code |
| Labels.DecodeInvertsEncode | app.py:63 | with distinct keys and distinct codes, the code of every status decodes back to that status |
| App.PredictStockStatus | app.py:40-66 | the displayed status is the label map's decoding of the classifier's code for the aligned row; it fails exactly when no status has that code, and otherwise the status maps to that code |

## Left out

- Streamlit rendering and widgets (`st.title`, `st.write`, `st.number_input`, `st.selectbox`, `st.button`, `st.success`) are user interface. Their results are parameters, and the message of line 66 is not modelled.
- The option lists of lines 30-32 are not modelled as preconditions. Every proved property holds for any selected string, so the closed option sets are not needed.
- Loading the artifacts with joblib, and the `FileNotFoundError` / `st.stop()` path of lines 6-12, are file I/O. The schema and label map are parameters.
- `model.predict` (line 60) is an externally trained classifier. It is the parameter `predict`, which maps the aligned row to its class code (`prediction[0]`).
- Floating-point behaviour of the number inputs (`step=1.0`) is not modelled. Values are `real` and are only copied. The 0/1 cells are `real` too. pandas dtypes (bool indicators versus int zero-fill) are not modelled.
- The insertion order of the intermediate dicts and frames is not modelled. Line 57 selects columns by name, so no result depends on that order. The label map's order is modelled, because decoding depends on it.
- Alignment.GetDummies: requires the record to be shaped like the one merged at line 43 (`Encodable`, proved by `CombinedRecordIsEncodable`). What pandas does with other frames is not modelled: a KeyError for a missing categorical column, or a duplicate column when an indicator name clashes with an existing column.
- Inputs.CollectNumericInput: the widget value is a function of the feature name. Streamlit's error for two widgets with the same label, which a repeated schema column would cause, is not modelled.
- Alignment.NumericInputsCarriedThrough: this is weaker than "every numeric column carries the user's input". It excludes columns named exactly like a categorical field, because the code replaces their number (see above).
- Alignment.ExactlyOneHotPerField: this is weaker than "exactly one 1 per field". The code sets a 1 only when the schema has the selected option's column.
- Python's `.index` on a list of numpy values is modelled on `int` codes.
