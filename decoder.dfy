/** The result decoder of `performInference` and the label table of
    `loadLabels`: pick the highest-scoring output position and name it. */
module Decoder {
  import opened Shape

  /** Index i holds a maximum score and every earlier index a strictly
      smaller one: the first maximum. */
  ghost predicate IsFirstMax(scores: seq<real>, i: int)
  {
    && 0 <= i < |scores|
    && (forall j :: 0 <= j < |scores| ==> scores[j] <= scores[i])
    && (forall j :: 0 <= j < i ==> scores[j] < scores[i])
  }

  /** The loop inside Kotlin's `maxByOrNull`: `best` is the running maximum's
      index and `k` the next index to compare; a later index replaces it only
      when its score is strictly greater. */
  function ScanMax(scores: seq<real>, best: nat, k: nat): (r: nat)
    requires best < k <= |scores|
    requires forall j :: 0 <= j < k ==> scores[j] <= scores[best]
    requires forall j :: 0 <= j < best ==> scores[j] < scores[best]
    ensures best <= r < |scores|
    ensures IsFirstMax(scores, r)
    decreases |scores| - k
  {
    if k == |scores| then best
    else if scores[best] < scores[k] then ScanMax(scores, k, k + 1)
    else ScanMax(scores, best, k + 1)
  }

  /** `scores.indices.maxByOrNull { scores[it] }`: no index for an empty
      buffer, otherwise the first index of a maximum score. */
  function MaxByOrNull(scores: seq<real>): (r: Option<nat>)
    ensures r.None? <==> scores == []
    ensures r.Some? ==> IsFirstMax(scores, r.value)
  {
    if scores == [] then None else Some(ScanMax(scores, 0, 1))
  }

  /** `... ?: -1`: the class index the activity goes on with. */
  function MaxProbIndex(result: seq<real>): (index: int)
    ensures index == -1 <==> result == []
    ensures result != [] ==> IsFirstMax(result, index)
  {
    match MaxByOrNull(result)
    case None => -1
    case Some(i) => i
  }

  /** There is only one first maximum, so the selected class is determined
      by the scores alone. */
  lemma FirstMaxUnique(scores: seq<real>, i: int, j: int)
    requires IsFirstMax(scores, i) && IsFirstMax(scores, j)
    ensures i == j
  {
    // both are maxima, so their scores are equal; neither can precede the other
    assert scores[i] == scores[j];
  }

  /** The selected index is exactly the first maximum, in both directions. */
  lemma MaxProbIndexIsFirstMax(result: seq<real>, i: int)
    ensures MaxProbIndex(result) == i <==> (IsFirstMax(result, i) || (result == [] && i == -1))
  {
    if IsFirstMax(result, i) {
      FirstMaxUnique(result, i, MaxProbIndex(result));
    }
  }

  /** When every score is equal the first class wins. */
  lemma AllEqualSelectsFirst(result: seq<real>)
    requires result != []
    requires forall j :: 0 <= j < |result| ==> result[j] == result[0]
    ensures MaxProbIndex(result) == 0
  {
    MaxProbIndexIsFirstMax(result, 0);
  }

  /** The sentinel shown when no label exists for the selected index. */
  const UnknownObject: string := "Objeto Desconhecido"

  /** Kotlin's `List.getOrNull`. */
  function GetOrNull(labels: seq<string>, index: int): (r: Option<string>)
    ensures r.Some? <==> 0 <= index < |labels|
    ensures r.Some? ==> r.value == labels[index]
  {
    if 0 <= index < |labels| then Some(labels[index]) else None
  }

  /** `labels.getOrNull(maxProbIndex) ?: "Objeto Desconhecido"`: total on
      every index, including `-1` and an empty table. */
  function DetectedObject(labels: seq<string>, index: int): (name: string)
    ensures 0 <= index < |labels| ==> name == labels[index]
    ensures !(0 <= index < |labels|) ==> name == UnknownObject
  {
    match GetOrNull(labels, index)
    case Some(l) => l
    case None => UnknownObject
  }

  /** The detected object is a name from the table or the sentinel; when the
      table does not itself contain the sentinel, seeing the sentinel means
      exactly that the index had no label. */
  lemma DetectedObjectIsLabelOrUnknown(labels: seq<string>, index: int)
    ensures DetectedObject(labels, index) in labels || DetectedObject(labels, index) == UnknownObject
    ensures UnknownObject !in labels ==>
      (DetectedObject(labels, index) == UnknownObject <==> !(0 <= index < |labels|))
  {
  }

  /** The label resource as the model sees it: it cannot be opened, its lines
      can all be read, or reading fails after some lines. */
  datatype LabelFile =
    | Unreadable
    | Lines(lines: seq<string>)
    | FailsAfter(read: seq<string>)

  /** What `loadLabels` returns for a file: its lines in order, or the empty
      list on any read failure. */
  function LabelsOf(file: LabelFile): seq<string>
  {
    match file
    case Lines(lines) => lines
    case _ => []
  }

  /** `loadLabels`: append each line to a mutable list; an `IOException`
      anywhere discards the list and yields the empty list. */
  method LoadLabels(file: LabelFile) returns (labels: seq<string>)
    ensures labels == LabelsOf(file)
    ensures file.Lines? ==> |labels| == |file.lines| && forall i :: 0 <= i < |labels| ==> labels[i] == file.lines[i]
    ensures !file.Lines? ==> labels == []
  {
    if file.Unreadable? {
      return [];
    }
    var lines := if file.Lines? then file.lines else file.read;
    var list: seq<string> := [];
    for i := 0 to |lines|
      invariant list == lines[..i]
    {
      list := list + [lines[i]];
    }
    if file.FailsAfter? {
      return [];
    }
    assert lines[..|lines|] == lines;
    labels := list;
  }

  /** With the label list of a failed load every index resolves to the sentinel. */
  lemma FailedLoadGivesUnknown(file: LabelFile, index: int)
    requires !file.Lines?
    ensures DetectedObject(LabelsOf(file), index) == UnknownObject
  {
  }
}
