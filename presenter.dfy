/**
 * What one frame of predictions puts on the page: the verdict in the result
 * panel, the panel's colour class, and one bar row per class. The bar rows
 * are kept as values here; `Controller.Page` holds the rows the page shows
 * and updates them with the loops of `buildBars` and `updateBars`.
 */
module Presenter {
  import opened Labels
  import opened Ranking
  import DictionaryVerdicts

  datatype Option<T> = None | Some(value: T)

  /** The colour class of a bar's fill: "fill neutral" or "fill good". */
  datatype Fill = FillNeutral | FillGood

  /**
   * The level a bar shows: `Blank` is the "0%" of a freshly built row, with no
   * width set; `Level(p)` shows `Math.round(p * 100)` percent as text and as
   * the fill width.
   */
  datatype Meter = Blank | Level(probability: real)

  /** One row of the bar chart: the class name, its level and its fill colour. */
  datatype BarRow = BarRow(name: string, meter: Meter, fill: Fill)

  /** The argument of `buildBars`: an array of labels, or any value that is not an array. */
  datatype LabelList = NotAnArray | Array(items: seq<string>)

  /** The labels `buildBars` falls back to when it is given no labels. */
  const DefaultLabels: seq<string> := ["Clase A", "Clase B"]

  /** The labels `buildBars` lays out: the given array when it is a non-empty array, the default pair otherwise. */
  function BarLabels(labels: LabelList): seq<string>
  {
    if labels.Array? && |labels.items| > 0 then labels.items else DefaultLabels
  }

  /** A freshly built row: the mapped label, "0%", a neutral fill. */
  function BlankRow(caption: string): BarRow
  {
    BarRow(MapLabel(caption), Blank, FillNeutral)
  }

  /** The rows `buildBars` leaves in the bar container, which it empties first. */
  function BuildRows(labels: LabelList): seq<BarRow>
  {
    var names := BarLabels(labels);
    seq(|names|, i requires 0 <= i < |names| => BlankRow(names[i]))
  }

  /** Given no labels, or something that is not an array, `buildBars` lays out exactly the rows "Clase A" and "Clase B". */
  lemma BuildRowsDefault(labels: LabelList)
    requires labels.NotAnArray? || labels.items == []
    ensures BuildRows(labels) == [BarRow("Clase A", Blank, FillNeutral), BarRow("Clase B", Blank, FillNeutral)]
  {
  }

  /** Given a non-empty array, `buildBars` lays out one blank row per label, in order, named by `mapLabel`. */
  lemma BuildRowsLabels(items: seq<string>)
    requires items != []
    ensures |BuildRows(Array(items))| == |items|
    ensures forall i :: 0 <= i < |items| ==>
      BuildRows(Array(items))[i] == BarRow(MapLabel(items[i]), Blank, FillNeutral)
  {
  }

  /** The row `updateBars` writes for one entry: mapped name, its level, and a good fill when the name is judged recyclable. */
  function RowFor(p: Prediction): BarRow
  {
    var name := MapLabel(p.className);
    BarRow(name, Level(p.probability), if IsRecyclableClass(Str(name)) then FillGood else FillNeutral)
  }

  /** `prediction.map(p => mapLabel(p.className))`. */
  function DisplayNames(prediction: seq<Prediction>): (r: seq<string>)
    ensures |r| == |prediction|
  {
    seq(|prediction|, i requires 0 <= i < |prediction| => MapLabel(prediction[i].className))
  }

  /** The rows of a chart that shows `prediction` entry by entry. */
  function RowsFor(prediction: seq<Prediction>): (r: seq<BarRow>)
    ensures |r| == |prediction|
  {
    seq(|prediction|, i requires 0 <= i < |prediction| => RowFor(prediction[i]))
  }

  /**
   * `updateBars`: rebuild the rows from the mapped names when their number
   * differs from the number of entries, then overwrite row `i` with entry `i`
   * for every entry that has a row.
   */
  function UpdateRows(rows: seq<BarRow>, prediction: seq<Prediction>): seq<BarRow>
  {
    var base := if |rows| != |prediction| then BuildRows(Array(DisplayNames(prediction))) else rows;
    seq(|base|, i requires 0 <= i < |base| => if i < |prediction| then RowFor(prediction[i]) else base[i])
  }

  /**
   * After `updateBars` with at least one entry there is one row per entry,
   * and row `i` shows entry `i`: its mapped name, its level, and a good fill
   * exactly when that name is judged recyclable. The rows held before do not
   * matter.
   */
  lemma UpdateRowsShowsPrediction(rows: seq<BarRow>, prediction: seq<Prediction>)
    requires prediction != []
    ensures UpdateRows(rows, prediction) == RowsFor(prediction)
    ensures forall i :: 0 <= i < |prediction| ==>
      var r := UpdateRows(rows, prediction)[i];
      r.name == MapLabel(prediction[i].className) && r.meter == Level(prediction[i].probability) &&
      (r.fill == FillGood <==> IsRecyclableClass(Str(MapLabel(prediction[i].className))))
  {
  }

  /**
   * `updateBars` with no entries keeps an empty chart empty, but replaces any
   * other chart by the two default rows: the resync hands `buildBars` an empty
   * array.
   */
  lemma UpdateRowsEmpty(rows: seq<BarRow>)
    ensures rows == [] ==> UpdateRows(rows, []) == []
    ensures rows != [] ==> UpdateRows(rows, []) == BuildRows(NotAnArray)
  {
  }

  /** The state of the result panel's classes "result-good" and "result-bad". */
  datatype Panel = Panel(good: bool, bad: bool)

  /** The text under the verdict: a fixed message, or the top class's confidence and display name. */
  datatype Detail = Message(text: string) | Confidence(probability: real, displayName: string)

  /** Everything `predict` writes for one frame. */
  datatype FrameView = FrameView(verdict: string, detail: Detail, panel: Panel, rows: seq<BarRow>)

  /**
   * `predict` after the classifier has answered: sort, take the first entry as
   * the top class, and derive the verdict, the detail, the panel classes and
   * the rows from it. With no entries `prediction[0]` is `undefined` and
   * reading its class name throws, so there is no view. `shown` is the chart
   * on the page before the frame.
   */
  function Present(shown: seq<BarRow>, prediction: seq<Prediction>): Option<FrameView>
  {
    if prediction == [] then None
    else
      var sorted := SortDesc(prediction);
      var top := sorted[0];
      var name := MapLabel(top.className);
      var recyclable := IsRecyclableClass(Str(name));
      Some(FrameView(
        if recyclable then "RECICLABLE" else "NO RECICLABLE",
        Confidence(top.probability, name),
        Panel(recyclable, !recyclable),
        UpdateRows(shown, sorted)))
  }

  /** `predict` produces a view exactly when the classifier returned at least one entry. */
  lemma PresentDefined(shown: seq<BarRow>, prediction: seq<Prediction>)
    ensures Present(shown, prediction).Some? <==> prediction != []
  {
  }

  /**
   * The verdict is that of the earliest entry of maximal probability: the
   * detail names its mapped class and probability, the label is "RECICLABLE"
   * exactly when that name is judged recyclable and "NO RECICLABLE" otherwise,
   * and the panel then carries exactly one of "result-good" and "result-bad".
   */
  lemma PresentVerdict(shown: seq<BarRow>, prediction: seq<Prediction>)
    requires prediction != []
    ensures Present(shown, prediction).Some?
    ensures
      var v := Present(shown, prediction).value;
      var top := prediction[EarliestMax(prediction)];
      var recyclable := IsRecyclableClass(Str(MapLabel(top.className)));
      v.detail == Confidence(top.probability, MapLabel(top.className)) &&
      (v.verdict == "RECICLABLE" <==> recyclable) &&
      (v.verdict == "NO RECICLABLE" <==> !recyclable) &&
      v.panel.good == recyclable && v.panel.bad == !recyclable
  {
    TopIsEarliestMax(prediction);
  }

  /**
   * The bar chart of a frame shows every entry once, in the sorted order:
   * highest level first, tied entries in the order the classifier gave them,
   * whatever the chart showed before.
   */
  lemma PresentRows(shown: seq<BarRow>, prediction: seq<Prediction>)
    requires prediction != []
    ensures Present(shown, prediction).Some?
    ensures Present(shown, prediction).value.rows == RowsFor(SortDesc(prediction))
    ensures multiset(SortDesc(prediction)) == multiset(prediction)
    ensures NonIncreasing(SortDesc(prediction))
    ensures forall p :: WithProbability(SortDesc(prediction), p) == WithProbability(prediction, p)
  {
    UpdateRowsShowsPrediction(shown, SortDesc(prediction));
    SortDescPermutation(prediction);
    SortDescOrdered(prediction);
    forall p {
      SortDescStable(prediction, p);
    }
  }

  /** The raw names of the two classes, as a two-class classifier reports them. */
  const Class1: string := "Class 1"
  const Class2: string := "Class 2"

  /**
   * A frame where "Class 2" leads with 0.8 against 0.2: the verdict is
   * "RECICLABLE" for the display name "Reciclable", and the chart lists
   * "Reciclable" before "No Reciclable" — both with a good fill, since the
   * heuristic judges "No Reciclable" recyclable as well.
   */
  lemma TwoClassFrame(shown: seq<BarRow>)
    ensures
      var v := Present(shown, [Prediction(Class1, 0.2), Prediction(Class2, 0.8)]);
      v.Some? &&
      v.value.verdict == "RECICLABLE" &&
      v.value.detail == Confidence(0.8, "Reciclable") &&
      v.value.panel == Panel(true, false) &&
      v.value.rows == [BarRow("Reciclable", Level(0.8), FillGood), BarRow("No Reciclable", Level(0.2), FillGood)]
  {
    var x, y := Prediction(Class1, 0.2), Prediction(Class2, 0.8);
    var v := Present(shown, [x, y]);
    assert SortDesc([x, y]) == [y, x] by {
      SortSwapsTwo(x, y);
    }
    assert RowFor(y) == BarRow("Reciclable", Level(0.8), FillGood) by {
      assert MapLabel(Class2) == "Reciclable";
      DictionaryVerdicts.RecyclableClassJudgedRecyclable();
    }
    assert RowFor(x) == BarRow("No Reciclable", Level(0.2), FillGood) by {
      assert MapLabel(Class1) == "No Reciclable";
      DictionaryVerdicts.NonRecyclableClassJudgedRecyclable();
    }
    assert v.value.rows == [RowFor(y), RowFor(x)] by {
      PresentRows(shown, [x, y]);
      RowsForTwo(y, x);
    }
  }

  lemma RowsForTwo(a: Prediction, b: Prediction)
    ensures RowsFor([a, b]) == [RowFor(a), RowFor(b)]
  {
  }

  /** Two entries in increasing order of probability come out swapped. */
  lemma SortSwapsTwo(x: Prediction, y: Prediction)
    requires x.probability < y.probability
    ensures SortDesc([x, y]) == [y, x]
  {
    assert [x, y][..1] == [x] && [x][..0] == [];
    assert SortDesc([x]) == [x];
    assert InsertDesc([x], y) == InsertDesc([], y) + [x];
  }
}
