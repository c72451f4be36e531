/**
 * The offline feature builder of `ML/emg_preprocessing.py`: a recording (a CSV
 * table) loses its first column, is conditioned as a whole, and is cut into
 * overlapping windows of 256 rows every 50 rows; each window becomes one
 * spectrum per channel. The conditioning (detrend, notch and bandpass
 * filtering) and the spectrum (STFT magnitude, `float32`, `log1p`) are
 * floating-point numerics and are given as functions.
 */
module EmgPreprocessing {
  import opened Wrappers

  const WindowSize: nat := 256
  const Stride: nat := 50
  const Channels: nat := 8

  /**
   * `filtfilt` pads the signal by three times the length of its longer
   * coefficient vector and raises `ValueError` unless the signal is longer
   * than that. The notch has 3 coefficients (padding 9) and the order-4
   * bandpass 9 (padding 27), so a recording needs more than 27 rows.
   */
  const FilterPadLength: nat := 27

  /** Python's `range(start, stop, Stride)`. */
  function Range(start: int, stop: int): seq<int>
    decreases stop - start
  {
    if start >= stop then [] else [start] + Range(start + Stride, stop)
  }

  /** The elements of a range: `start`, `start + Stride`, ... while below `stop`. */
  lemma {:induction false} RangeShape(start: int, stop: int)
    ensures |Range(start, stop)| == if start >= stop then 0 else (stop - start - 1) / Stride + 1
    ensures forall k :: 0 <= k < |Range(start, stop)| ==> Range(start, stop)[k] == start + k * Stride
    decreases stop - start
  {
    if start < stop {
      RangeShape(start + Stride, stop);
      var r := Range(start + Stride, stop);
      forall k | 0 < k < |Range(start, stop)| ensures Range(start, stop)[k] == start + k * Stride {
        assert Range(start, stop)[k] == r[k - 1];
      }
    }
  }

  /** How many windows a recording of `n` rows yields. */
  function WindowCount(n: nat): nat
  {
    if n < WindowSize then 0 else (n - WindowSize) / Stride + 1
  }

  /** The window starts of the source, `range(0, n - WindowSize + 1, Stride)`. */
  function WindowStarts(n: nat): seq<int>
  {
    Range(0, n - WindowSize + 1)
  }

  /**
   * The window starts are 0, 50, 100, ... and there are `WindowCount(n)` of
   * them: exactly the multiples of 50 whose window fits in the recording.
   */
  lemma WindowStartsLaw(n: nat)
    ensures |WindowStarts(n)| == WindowCount(n)
    ensures forall k :: 0 <= k < WindowCount(n) ==> WindowStarts(n)[k] == k * Stride
    ensures forall k: nat :: k < WindowCount(n) <==> k * Stride + WindowSize <= n
  {
    RangeShape(0, n - WindowSize + 1);
    forall k: nat ensures k < WindowCount(n) <==> k * Stride + WindowSize <= n {
      if n >= WindowSize {
        var c := (n - WindowSize) / Stride;
        assert c * Stride <= n - WindowSize < (c + 1) * Stride;
        if k <= c { assert k * Stride <= c * Stride; }
        if k > c { assert k * Stride >= (c + 1) * Stride; }
      }
    }
  }

  /** The rows `[start, start + WindowSize)` of `data`. */
  function Window<T>(data: seq<T>, start: nat): seq<T>
    requires start + WindowSize <= |data|
  {
    data[start..start + WindowSize]
  }

  /**
   * The sliding-window loop: every window of `WindowSize` consecutive rows
   * starting at a multiple of `Stride`, in order.
   */
  method SlidingWindows<T>(data: seq<T>) returns (windows: seq<seq<T>>)
    ensures |windows| == WindowCount(|data|)
    ensures forall k :: 0 <= k < |windows| ==>
              k * Stride + WindowSize <= |data| && windows[k] == data[k * Stride..k * Stride + WindowSize]
  {
    WindowStartsLaw(|data|);
    windows := [];
    var start := 0;
    while start + WindowSize <= |data|
      invariant start == |windows| * Stride
      invariant |windows| <= WindowCount(|data|)
      invariant forall k :: 0 <= k < |windows| ==>
                  k * Stride + WindowSize <= |data| && windows[k] == data[k * Stride..k * Stride + WindowSize]
      decreases |data| - start
    {
      windows := windows + [data[start..start + WindowSize]];
      start := start + Stride;
    }
  }

  /** Column `c` of a table: `window[:, c]`. */
  function Column(rows: seq<seq<real>>, c: nat): (col: seq<real>)
    requires forall r :: 0 <= r < |rows| ==> c < |rows[r]|
    ensures |col| == |rows| && forall r :: 0 <= r < |rows| ==> col[r] == rows[r][c]
  {
    seq(|rows|, r requires 0 <= r < |rows| => rows[r][c])
  }

  /** Every row of `rows` has exactly `width` columns (a pandas table is rectangular). */
  predicate Rectangular(rows: seq<seq<real>>, width: nat)
  {
    forall r :: 0 <= r < |rows| ==> |rows[r]| == width
  }

  /** `df.iloc[:, 1:]`: every column but the first. */
  function DropFirstColumn(rows: seq<seq<real>>, width: nat): (r: seq<seq<real>>)
    requires width > 0 && Rectangular(rows, width)
    ensures |r| == |rows| && Rectangular(r, width - 1)
    ensures forall i, j :: 0 <= i < |rows| && 0 <= j < width - 1 ==> r[i][j] == rows[i][j + 1]
  {
    seq(|rows|, i requires 0 <= i < |rows| => rows[i][1..])
  }

  /** What `pd.read_csv` gave: no file, another read error, or a table of `width` columns. */
  datatype Loaded = NotFound | ReadError | Table(width: nat, rows: seq<seq<real>>)

  /**
   * The result of `preprocess`: the spectra per window and channel, the
   * `IndexError` raised when a window has fewer than 8 columns, or the
   * `ValueError` `filtfilt` raises for a recording of too few rows.
   */
  datatype Features<S> = Spectra(windows: seq<seq<S>>) | TooFewColumns | TooFewRows

  /** The conditioning keeps the shape of the table (filtering runs along the rows of each column). */
  ghost predicate KeepsShape(condition: seq<seq<real>> -> seq<seq<real>>)
  {
    forall d: seq<seq<real>>, w: nat :: Rectangular(d, w) ==> |condition(d)| == |d| && Rectangular(condition(d), w)
  }

  /** The conditioned data of a table: its columns after the first, detrended and filtered. */
  function Conditioned(t: Loaded, condition: seq<seq<real>> -> seq<seq<real>>): (data: seq<seq<real>>)
    requires t.Table? && t.width > 0 && Rectangular(t.rows, t.width) && KeepsShape(condition)
    ensures |data| == |t.rows| && Rectangular(data, t.width - 1)
  {
    condition(DropFirstColumn(t.rows, t.width))
  }

  /** The spectra of the first `Channels` columns of window `k`, in channel order. */
  function WindowSpectra<S>(data: seq<seq<real>>, width: nat, k: nat, spectrum: seq<real> -> S): (specs: seq<S>)
    requires Rectangular(data, width) && width >= Channels && k * Stride + WindowSize <= |data|
    ensures |specs| == Channels
  {
    seq(Channels, c requires 0 <= c < Channels => spectrum(Column(Window(data, k * Stride), c)))
  }

  /**
   * `preprocess(path)`. A missing file or a read error gives no windows. The
   * first column (the timestamp) is dropped and `condition` (detrend, mean
   * removal, notch and bandpass, which keep the table's shape) is applied;
   * the filters raise for a table of at most `FilterPadLength` rows. Then each window of 256 rows every 50 rows gives the spectra of its
   * first 8 columns, in channel order. A table with no window gives none.
   */
  method Preprocess<S>(file: Loaded, condition: seq<seq<real>> -> seq<seq<real>>, spectrum: seq<real> -> S)
    returns (x: Features<S>)
    requires file.Table? ==> file.width > 0 && Rectangular(file.rows, file.width)
    requires KeepsShape(condition)
    ensures !file.Table? ==> x == Spectra([])
    ensures x.TooFewRows? <==> file.Table? && |file.rows| <= FilterPadLength
    ensures file.Table? ==>
      var data := Conditioned(file, condition);
      (x.TooFewColumns? <==> WindowCount(|data|) > 0 && file.width - 1 < Channels)
      && (x.Spectra? ==>
           |x.windows| == WindowCount(|data|)
           && (|x.windows| > 0 ==> file.width - 1 >= Channels)
           && forall k :: 0 <= k < |x.windows| ==>
                k * Stride + WindowSize <= |data| && x.windows[k] == WindowSpectra(data, file.width - 1, k, spectrum))
  {
    if !file.Table? {
      return Spectra([]);
    }
    if |file.rows| <= FilterPadLength {
      // `filtfilt` raises before any window is cut.
      return TooFewRows;
    }
    var data := Conditioned(file, condition);
    var width := file.width - 1;
    var windows := SlidingWindows(data);
    if |windows| > 0 && width < Channels {
      // `window[:, ch]` raises on the first window.
      return TooFewColumns;
    }
    var all: seq<seq<S>> := [];
    for i := 0 to |windows|
      invariant |all| == i
      invariant forall k :: 0 <= k < i ==>
                  k * Stride + WindowSize <= |data| && all[k] == WindowSpectra(data, width, k, spectrum)
    {
      var window := windows[i];
      assert window == Window(data, i * Stride);
      var specs: seq<S> := [];
      for c := 0 to Channels
        invariant |specs| == c
        invariant forall c' :: 0 <= c' < c ==> specs[c'] == spectrum(Column(window, c'))
      {
        specs := specs + [spectrum(Column(window, c))];
      }
      assert specs == WindowSpectra(data, width, i, spectrum);
      all := all + [specs];
    }
    x := Spectra(all);
  }

  /** The dataset: features and labels, indexed together. */
  datatype Dataset<X> = Dataset(x: seq<X>, y: seq<int>)

  /** `__len__`: the number of labels. */
  function Length<X>(d: Dataset<X>): (n: nat)
    ensures n == |d.y|
  {
    |d.y|
  }

  /** `__getitem__(idx)`: the pair `(X[idx], Y[idx])`, or the `IndexError` (`None`) when one of them is too short. */
  function Item<X>(d: Dataset<X>, idx: nat): (r: Option<(X, int)>)
    ensures r.Some? <==> idx < |d.x| && idx < |d.y|
    ensures r.Some? ==> r.value == (d.x[idx], d.y[idx])
  {
    if idx < |d.x| && idx < |d.y| then Some((d.x[idx], d.y[idx])) else None
  }

  /** With one label per feature, every index below the length gives its feature and label. */
  lemma AlignedItems<X>(d: Dataset<X>)
    requires |d.x| == |d.y|
    ensures forall i: nat :: i < Length(d) ==> Item(d, i) == Some((d.x[i], d.y[i]))
    ensures forall i: nat :: i >= Length(d) ==> Item(d, i).None?
  {
  }
}
