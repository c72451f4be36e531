/**
 * The bookkeeping of the single-subject trainer `ML/train_200.py`: the
 * recordings are cut into labelled windows, gathered into one dataset whose
 * labels stay aligned with the windows, split 80/20 along a random
 * permutation, and scored epoch by epoch, keeping the predictions of the best
 * test epoch. The network, the optimiser, the filters, the spectra and the
 * normalisation are floating-point numerics and are given or left out; the
 * random permutation is given.
 */
module TrainSingleSubject {
  import opened Wrappers
  import opened EmgPreprocessing

  /** `LABELS`: the class index of a gesture name. */
  function LabelOf(name: string): (l: Option<nat>)
    ensures l.Some? <==> name == "rest" || name == "pinch"
    ensures l == Some(0) <==> name == "rest"
    ensures l == Some(1) <==> name == "pinch"
  {
    if name == "rest" then Some(0) else if name == "pinch" then Some(1) else None
  }

  /** The EMG column names `emg1` … `emg8` the trainer keeps. */
  const EmgColumns: seq<string> := ["emg1", "emg2", "emg3", "emg4", "emg5", "emg6", "emg7", "emg8"]

  /** Every EMG column is named in the header. */
  predicate HasEmgColumns(f: Recording)
  {
    forall n :: n in EmgColumns ==> n in f.header
  }

  /** A CSV recording as `pd.read_csv` reads it: the header names (pandas keeps them distinct) and the rows. */
  datatype Recording = Recording(header: seq<string>, rows: seq<seq<real>>)

  predicate WellFormed(f: Recording)
  {
    (forall i, j :: 0 <= i < j < |f.header| ==> f.header[i] != f.header[j])
    && Rectangular(f.rows, |f.header|)
  }

  /** The position of `name` in the header. */
  function ColumnIndex(header: seq<string>, name: string): (r: Option<nat>)
    ensures r.Some? <==> name in header
    ensures r.Some? ==> r.value < |header| && header[r.value] == name
    decreases |header|
  {
    if |header| == 0 then None
    else if header[|header| - 1] == name then Some(|header| - 1)
    else ColumnIndex(header[..|header| - 1], name)
  }

  /** `df[emg_cols]`: the named columns in the order named, or the `KeyError` (`None`) when one is missing. */
  function SelectColumns(f: Recording, names: seq<string>): (r: Option<seq<seq<real>>>)
    requires WellFormed(f)
    ensures r.Some? <==> forall n :: n in names ==> n in f.header
    ensures r.Some? ==> |r.value| == |f.rows| && Rectangular(r.value, |names|)
    ensures r.Some? ==> forall i, c :: 0 <= i < |f.rows| && 0 <= c < |names| ==>
              names[c] in f.header && r.value[i][c] == f.rows[i][ColumnIndex(f.header, names[c]).value]
  {
    if exists n :: n in names && n !in f.header then None
    else
      Some(seq(|f.rows|, i requires 0 <= i < |f.rows| =>
        seq(|names|, c requires 0 <= c < |names| => f.rows[i][ColumnIndex(f.header, names[c]).value])))
  }

  /**
   * The outcome of the trainer's `preprocess`: the spectra of every window, the
   * `KeyError` of a missing EMG column, or the `ValueError` of `filtfilt` on a
   * recording of at most `FilterPadLength` rows.
   */
  datatype Processed<S> = Windows(specs: seq<seq<S>>) | KeyError | ValueError

  /**
   * `preprocess(path)` of the trainer: keep the eight EMG columns by name
   * (a missing one raises), condition them (the filters raise for too few
   * rows), and give the spectra of the 8 channels of every window of 256
   * rows every 50 rows.
   */
  method Preprocess<S>(f: Recording, condition: seq<seq<real>> -> seq<seq<real>>, spectrum: seq<real> -> S)
    returns (x: Processed<S>)
    requires WellFormed(f) && KeepsShape(condition)
    ensures x.KeyError? <==> SelectColumns(f, EmgColumns).None?
    ensures x.ValueError? <==> SelectColumns(f, EmgColumns).Some? && |f.rows| <= FilterPadLength
    ensures x.Windows? ==>
      var data := condition(SelectColumns(f, EmgColumns).value);
      |data| == |f.rows| && Rectangular(data, Channels)
      && |x.specs| == WindowCount(|f.rows|)
      && forall k :: 0 <= k < |x.specs| ==>
           k * Stride + WindowSize <= |data| && x.specs[k] == WindowSpectra(data, Channels, k, spectrum)
  {
    var selected := SelectColumns(f, EmgColumns);
    if selected.None? {
      return KeyError;
    }
    if |f.rows| <= FilterPadLength {
      return ValueError;
    }
    var data := condition(selected.value);
    var windows := SlidingWindows(data);
    var specs: seq<seq<S>> := [];
    for i := 0 to |windows|
      invariant |specs| == i
      invariant forall k :: 0 <= k < i ==> k * Stride + WindowSize <= |data| && specs[k] == WindowSpectra(data, Channels, k, spectrum)
    {
      var w := windows[i];
      assert w == Window(data, i * Stride);
      var chSpecs: seq<S> := [];
      for ch := 0 to Channels
        invariant |chSpecs| == ch
        invariant forall c :: 0 <= c < ch ==> chSpecs[c] == spectrum(Column(w, c))
      {
        chSpecs := chSpecs + [spectrum(Column(w, ch))];
      }
      assert chSpecs == WindowSpectra(data, Channels, i, spectrum);
      specs := specs + [chSpecs];
    }
    x := Windows(specs);
  }

  // ----------------------------------------------------------------------
  // Gathering the recordings

  /** `np.full(n, label)`. */
  function Full(n: nat, value: int): (r: seq<int>)
    ensures |r| == n && forall i :: 0 <= i < n ==> r[i] == value
  {
    seq(n, _ => value)
  }

  /** `np.concatenate` of a list of arrays, read along the first axis. */
  function Flatten<T>(parts: seq<seq<T>>): seq<T>
    decreases |parts|
  {
    if |parts| == 0 then [] else Flatten(parts[..|parts| - 1]) + parts[|parts| - 1]
  }

  /** The number of windows before file `j`. */
  function Offset<T>(parts: seq<seq<T>>, j: nat): nat
    requires j <= |parts|
  {
    |Flatten(parts[..j])|
  }

  /** Each file's labels: one label per window of that file. */
  function LabelParts<S>(windows: seq<seq<S>>, labels: seq<int>): (r: seq<seq<int>>)
    requires |windows| == |labels|
    ensures |r| == |windows| && forall j :: 0 <= j < |r| ==> r[j] == Full(|windows[j]|, labels[j])
  {
    seq(|windows|, j requires 0 <= j < |windows| => Full(|windows[j]|, labels[j]))
  }

  /** Element `t` of part `j` sits at `Offset(parts, j) + t` of the flattened parts. */
  lemma {:induction false} FlattenIndex<T>(parts: seq<seq<T>>, j: nat, t: nat)
    requires j < |parts| && t < |parts[j]|
    ensures Offset(parts, j) + t < |Flatten(parts)|
    ensures Flatten(parts)[Offset(parts, j) + t] == parts[j][t]
    decreases |parts|
  {
    var n := |parts| - 1;
    assert parts[..|parts|][..n] == parts[..n];
    if j == n {
      assert parts[..n] == parts[..|parts| - 1];
    } else {
      assert parts[..n][..j] == parts[..j];
      FlattenIndex(parts[..n], j, t);
    }
    assert parts[..|parts|] == parts;
  }

  /** Parts of the same lengths flatten to sequences of the same length. */
  lemma {:induction false} FlattenSameLength<A, B>(a: seq<seq<A>>, b: seq<seq<B>>)
    requires |a| == |b| && forall j :: 0 <= j < |a| ==> |a[j]| == |b[j]|
    ensures |Flatten(a)| == |Flatten(b)|
    decreases |a|
  {
    if |a| > 0 {
      FlattenSameLength(a[..|a| - 1], b[..|b| - 1]);
    }
  }

  /**
   * Why gathering the recordings fails: a missing EMG column, a recording too
   * short to filter, or `np.concatenate` of a 1-D empty array with 4-D ones.
   */
  datatype Gathered<S> = Data(x: seq<seq<S>>, y: seq<int>) | MissingColumn | RecordingTooShort | MixedDimensions

  /** A recording the trainer cannot preprocess: an EMG column is missing or it is too short to filter. */
  predicate Unusable(f: Recording)
  {
    !HasEmgColumns(f) || |f.rows| <= FilterPadLength
  }

  /** One file of the loop: its windows (`X_proc`) and its labels, one per window, or the exception `preprocess` raised. */
  method LoadFile<S>(f: Recording, fileLabel: int, condition: seq<seq<real>> -> seq<seq<real>>, spectrum: seq<real> -> S)
    returns (x: Processed<S>, y: seq<int>)
    requires WellFormed(f) && KeepsShape(condition)
    ensures x.KeyError? <==> !HasEmgColumns(f)
    ensures x.ValueError? <==> HasEmgColumns(f) && |f.rows| <= FilterPadLength
    ensures x.Windows? ==> |x.specs| == WindowCount(|f.rows|) && y == Full(|x.specs|, fileLabel)
  {
    x := Preprocess(f, condition, spectrum);
    y := if x.Windows? then Full(|x.specs|, fileLabel) else [];
  }

  /**
   * The loop over `DATA_FILES` and the two concatenations. Every file gives
   * its windows and as many copies of its label; a file without windows gives
   * a 1-D empty array, which `np.concatenate` refuses beside 4-D arrays.
   */
  method Gather<S>(files: seq<Recording>, labels: seq<int>, condition: seq<seq<real>> -> seq<seq<real>>, spectrum: seq<real> -> S)
    returns (g: Gathered<S>, ghost perFile: seq<seq<seq<S>>>)
    requires |files| == |labels| && KeepsShape(condition)
    requires forall j :: 0 <= j < |files| ==> WellFormed(files[j])
    ensures g.MissingColumn? || g.RecordingTooShort? <==> exists j :: 0 <= j < |files| && Unusable(files[j])
    ensures g.MissingColumn? ==>
      exists j :: 0 <= j < |files| && !HasEmgColumns(files[j]) && forall i :: 0 <= i < j ==> !Unusable(files[i])
    ensures g.RecordingTooShort? ==>
      exists j :: 0 <= j < |files| && HasEmgColumns(files[j]) && |files[j].rows| <= FilterPadLength
                  && forall i :: 0 <= i < j ==> !Unusable(files[i])
    ensures !g.MissingColumn? && !g.RecordingTooShort? ==>
      |perFile| == |files|
      && (forall j :: 0 <= j < |files| ==> |perFile[j]| == WindowCount(|files[j].rows|))
      && (g.MixedDimensions? <==>
            (exists j :: 0 <= j < |files| && |perFile[j]| == 0) && (exists j :: 0 <= j < |files| && |perFile[j]| > 0))
      && (g.Data? ==> g.x == Flatten(perFile) && g.y == Flatten(LabelParts(perFile, labels)) && |g.x| == |g.y|)
  {
    var xs: seq<seq<seq<S>>> := [];
    var ys: seq<seq<int>> := [];
    for j := 0 to |files|
      invariant |xs| == |ys| == j
      invariant forall i :: 0 <= i < j ==> !Unusable(files[i])
      invariant forall i :: 0 <= i < j ==> |xs[i]| == WindowCount(|files[i].rows|)
      invariant forall i :: 0 <= i < j ==> ys[i] == Full(|xs[i]|, labels[i])
    {
      var xProc, yProc := LoadFile(files[j], labels[j], condition, spectrum);
      if xProc.KeyError? {
        return MissingColumn, xs;
      } else if xProc.ValueError? {
        return RecordingTooShort, xs;
      }
      xs := xs + [xProc.specs];
      ys := ys + [yProc];
    }
    perFile := xs;
    assert ys == LabelParts(xs, labels);
    if (exists j :: 0 <= j < |xs| && |xs[j]| == 0) && (exists j :: 0 <= j < |xs| && |xs[j]| > 0) {
      return MixedDimensions, perFile;
    }
    FlattenSameLength(xs, ys);
    g := Data(Flatten(xs), Flatten(ys));
  }

  /**
   * Labels stay aligned with windows: window `t` of file `j` and its label
   * sit at the same index of the gathered data, and that label is file `j`'s.
   */
  lemma LabelsAligned<S>(perFile: seq<seq<seq<S>>>, labels: seq<int>, j: nat, t: nat)
    requires |perFile| == |labels| && j < |perFile| && t < |perFile[j]|
    ensures var ys := LabelParts(perFile, labels);
      Offset(perFile, j) == Offset(ys, j)
      && Offset(perFile, j) + t < |Flatten(perFile)| && Offset(perFile, j) + t < |Flatten(ys)|
      && Flatten(perFile)[Offset(perFile, j) + t] == perFile[j][t]
      && Flatten(ys)[Offset(perFile, j) + t] == labels[j]
  {
    var ys := LabelParts(perFile, labels);
    FlattenIndex(perFile, j, t);
    FlattenIndex(ys, j, t);
    FlattenSameLength(perFile[..j], ys[..j]);
  }

  // ----------------------------------------------------------------------
  // The 80/20 split

  /** `int(0.8 * N)`: the number of training windows. */
  function TrainCount(n: nat): (c: nat)
    ensures c <= n && 5 * c <= 4 * n < 5 * (c + 1)
  {
    (4 * n) / 5
  }

  /** `0, 1, …, n - 1`. */
  function Iota(n: nat): (r: seq<nat>)
    ensures |r| == n && forall i :: 0 <= i < n ==> r[i] == i
  {
    seq(n, i => i)
  }

  /** `perm` is a permutation of `0 … n - 1`, as `np.random.permutation(n)` returns. */
  predicate IsPermutation(perm: seq<nat>, n: nat)
  {
    multiset(perm) == multiset(Iota(n))
  }

  lemma {:induction false} IotaCounts(n: nat, v: nat)
    ensures multiset(Iota(n))[v] == if v < n then 1 else 0
  {
    if n > 0 {
      assert Iota(n) == Iota(n - 1) + [n - 1];
      IotaCounts(n - 1, v);
    }
  }

  /** `train_idx, test_idx = idx[:int(0.8*N)], idx[int(0.8*N):]`. */
  function Split(perm: seq<nat>): (seq<nat>, seq<nat>)
  {
    var c := TrainCount(|perm|);
    (perm[..c], perm[c..])
  }

  /**
   * The split of a permutation of `0 … n - 1` is a partition: no index is in
   * both parts, every index is in one of them, and the training part has
   * `int(0.8 * n)` indices.
   */
  lemma SplitPartition(perm: seq<nat>, n: nat)
    requires IsPermutation(perm, n)
    ensures var (train, test) := Split(perm);
      |train| == TrainCount(n) && |train| + |test| == n
      && (forall v :: v in train ==> v !in test)
      && (forall v: nat :: v < n <==> v in train || v in test)
  {
    var (train, test) := Split(perm);
    assert perm == train + test;
    assert |perm| == |multiset(perm)| == |multiset(Iota(n))| == n;
    assert multiset(perm) == multiset(train) + multiset(test);
    forall v ensures v in train ==> v !in test {
      IotaCounts(n, v);
      assert multiset(perm)[v] == multiset(train)[v] + multiset(test)[v];
    }
    forall v: nat ensures v < n <==> v in train || v in test {
      IotaCounts(n, v);
      assert v in perm <==> multiset(perm)[v] > 0;
    }
  }

  /** `X[idx]`: the rows picked by `idx`, in its order. */
  function Pick<T>(xs: seq<T>, idx: seq<nat>): (r: seq<T>)
    requires forall i :: 0 <= i < |idx| ==> idx[i] < |xs|
    ensures |r| == |idx| && forall i :: 0 <= i < |idx| ==> r[i] == xs[idx[i]]
  {
    seq(|idx|, i requires 0 <= i < |idx| => xs[idx[i]])
  }

  // ----------------------------------------------------------------------
  // Scoring

  /** How many of the `(prediction, label)` pairs agree. */
  function Agreeing(pairs: seq<(int, int)>): (n: nat)
    ensures n <= |pairs|
    decreases |pairs|
  {
    if |pairs| == 0 then 0
    else Agreeing(pairs[..|pairs| - 1]) + (if pairs[|pairs| - 1].0 == pairs[|pairs| - 1].1 then 1 else 0)
  }

  /**
   * The counting loop of one epoch over its batches of `(prediction, label)`
   * pairs: `correct` counts the agreeing pairs, `total` all pairs, and the
   * predictions and labels are collected in batch order.
   */
  method Score(batches: seq<seq<(int, int)>>) returns (correct: nat, total: nat, preds: seq<int>, truth: seq<int>)
    ensures total == |Flatten(batches)| && |preds| == |truth| == total
    ensures correct == Agreeing(Flatten(batches)) && correct <= total
    ensures forall i :: 0 <= i < total ==> (preds[i], truth[i]) == Flatten(batches)[i]
  {
    correct, total, preds, truth := 0, 0, [], [];
    for b := 0 to |batches|
      invariant total == |Flatten(batches[..b])| && |preds| == |truth| == total
      invariant correct == Agreeing(Flatten(batches[..b]))
      invariant forall i :: 0 <= i < total ==> (preds[i], truth[i]) == Flatten(batches[..b])[i]
    {
      var batch := batches[b];
      ghost var done := Flatten(batches[..b]);
      assert batches[..b + 1][..b] == batches[..b];
      assert Flatten(batches[..b + 1]) == done + batch;
      assert done + batch[..0] == done;
      for k := 0 to |batch|
        invariant total == |done| + k && |preds| == |truth| == total
        invariant correct == Agreeing(done + batch[..k])
        invariant forall i :: 0 <= i < total ==> (preds[i], truth[i]) == (done + batch[..k])[i]
      {
        assert (done + batch[..k + 1])[..|done| + k] == done + batch[..k];
        if batch[k].0 == batch[k].1 {
          correct := correct + 1;
        }
        preds, truth := preds + [batch[k].0], truth + [batch[k].1];
        total := total + 1;
      }
      assert batch[..|batch|] == batch;
    }
    assert batches[..|batches|] == batches;
  }

  /** `correct / total`, or the `ZeroDivisionError` (`None`) of an empty loader. */
  function Accuracy(correct: nat, total: nat): (a: Option<real>)
    requires correct <= total
    ensures a.Some? <==> total > 0
    ensures a.Some? ==> 0.0 <= a.value <= 1.0 && a.value * total as real == correct as real
  {
    if total == 0 then None else Some(correct as real / total as real)
  }

  /**
   * The best-epoch bookkeeping: starting from 0, the best accuracy and its
   * predictions are replaced only when an epoch's test accuracy is strictly
   * higher. The result is the highest accuracy (or 0) and the predictions of
   * the first epoch that reached it, if any epoch beat 0.
   */
  method TrackBest<P>(accs: seq<real>, preds: seq<P>) returns (best: real, bestPreds: Option<P>)
    requires |accs| == |preds|
    ensures best >= 0.0 && forall e :: 0 <= e < |accs| ==> accs[e] <= best
    ensures bestPreds.None? <==> best == 0.0
    ensures bestPreds.Some? ==>
      exists e :: 0 <= e < |accs| && accs[e] == best && bestPreds.value == preds[e]
                  && forall e' :: 0 <= e' < e ==> accs[e'] < best
  {
    best, bestPreds := 0.0, None;
    for e := 0 to |accs|
      invariant best >= 0.0 && forall i :: 0 <= i < e ==> accs[i] <= best
      invariant bestPreds.None? <==> best == 0.0
      invariant bestPreds.Some? ==>
        exists i :: 0 <= i < e && accs[i] == best && bestPreds.value == preds[i]
                    && forall i' :: 0 <= i' < i ==> accs[i'] < best
    {
      if accs[e] > best {
        best, bestPreds := accs[e], Some(preds[e]);
      }
    }
  }
}
