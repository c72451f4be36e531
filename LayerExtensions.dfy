/**
 * The state-change plumbing shared by layer data and layer extensions
 * (`LayerData`, `CompositionLayerExtension`), the blend-type fallback of
 * `LayerData`, and the property setters of `TexturesExtension`.
 *
 * A C# reference that may be null is an `Option`; a value type is always
 * `Some`.  The `ReportStateChange` callback is modelled by whether it is set
 * and by how many times it has been invoked.
 */
module LayerExtensions {
  import opened Wrappers
  import opened LayerManager

  // ----------------------------------------------------------------------
  // LayerData

  datatype BlendType = Alpha | Premultiply | Additive

  /** The serialized default of `m_BlendType`. */
  const DefaultBlendType := Alpha

  /**
   * The `BlendType` getter: the stored value unless the active platform
   * lists its supported blend types and the stored one is not among them,
   * in which case the first supported one.
   */
  function EffectiveBlendType(stored: BlendType, supported: Option<seq<BlendType>>): (b: BlendType)
    ensures supported.None? || |supported.value| == 0 ==> b == stored
    ensures supported.Some? && |supported.value| > 0 ==> b in supported.value
    ensures supported.Some? && stored in supported.value ==> b == stored
    ensures supported.Some? && |supported.value| > 0 && stored !in supported.value ==> b == supported.value[0]
  {
    if supported.Some? && |supported.value| > 0 && stored !in supported.value then supported.value[0] else stored
  }

  /**
   * `UpdateValue`: a null old value, or one not equal to the new value,
   * counts as a change; the answer is then the new value, and otherwise
   * the old one, which equals it.
   */
  function UpdateValue<T(==)>(oldValue: Option<T>, newValue: Option<T>): (r: (Option<T>, bool))
  {
    if oldValue.Some? && oldValue == newValue then (oldValue, false) else (newValue, true)
  }

  /**
   * What `UpdateValue` promises: the stored value afterwards is always the
   * new one, a change is reported exactly when the values differ or the old
   * one was null, and storing the result again reports nothing.
   */
  lemma UpdateValueLaw<T>(oldValue: Option<T>, newValue: Option<T>)
    ensures UpdateValue(oldValue, newValue).0 == newValue
    ensures UpdateValue(oldValue, newValue).1 <==> oldValue.None? || oldValue != newValue
    ensures newValue.Some? ==> !UpdateValue(UpdateValue(oldValue, newValue).0, newValue).1
  {
  }

  /**
   * The texture sequence the package's tests drive through `LeftTexture`:
   * white (a change), white again (none), black (a change), null (a change).
   */
  lemma TextureSequenceReports(white: nat, black: nat)
    requires white != black
    ensures UpdateValue(None, Some(white)) == (Some(white), true)
    ensures UpdateValue(Some(white), Some(white)) == (Some(white), false)
    ensures UpdateValue(Some(white), Some(black)) == (Some(black), true)
    ensures UpdateValue(Some(black), None) == (None, true)
  {
  }

  /** `LayerData` with its blend type; `BlendTypeDirectly` is `blendType`. */
  datatype LayerData = LayerData(blendType: BlendType, reportStateChange: bool)
  {
    /** The blend-type setter: the new value, and whether the callback ran. */
    function SetBlendType(value: BlendType): (r: (LayerData, bool))
      ensures r.0.blendType == value && r.0.reportStateChange == reportStateChange
      ensures r.1 <==> reportStateChange && value != blendType
    {
      var (v, changed) := UpdateValue(Some(blendType), Some(value));
      (this.(blendType := v.value), changed && reportStateChange)
    }
  }

  // ----------------------------------------------------------------------
  // CompositionLayerExtension

  /** The extensions list of a `CompositionLayer`. */
  class CompositionLayer {
    var extensions: seq<CompositionLayerExtension>

    constructor ()
      ensures extensions == []
    {
      extensions := [];
    }
  }

  /** `Extensions.Contains(x) ? list : list.Add(x)`. */
  function Enlisted<T(==)>(list: seq<T>, x: T): seq<T>
  {
    if x in list then list else list + [x]
  }

  /**
   * Enabling puts the extension in the list, and a duplicate-free list
   * stays so; disabling takes it out again, and disabling right after
   * enabling gives the list back as it was.
   */
  lemma EnlistLaw<T>(list: seq<T>, x: T)
    requires NoDup(list)
    ensures x in Enlisted(list, x) && NoDup(Enlisted(list, x))
    ensures multiset(Enlisted(list, x))[x] == 1
    ensures x !in Without(Enlisted(list, x), x) && NoDup(Without(Enlisted(list, x), x))
    ensures x !in list ==> Without(Enlisted(list, x), x) == list
  {
    var e := Enlisted(list, x);
    assert multiset(list)[x] <= 1 by {
      if x in list {
        var i :| 0 <= i < |list| && list[i] == x;
        assert list == list[..i] + [x] + list[i + 1..];
        assert x !in list[..i] && x !in list[i + 1..];
        assert multiset(list[..i])[x] == 0 && multiset(list[i + 1..])[x] == 0;
      }
    }
    WithoutNoDup(e, x);
    if x !in list {
      WithoutAppended(list, x);
    }
  }

  /** Removing an element appended to a list without it restores the list. */
  lemma {:induction false} WithoutAppended<T>(list: seq<T>, x: T)
    requires x !in list
    ensures Without(list + [x], x) == list
  {
    if list != [] {
      assert (list + [x])[1..] == list[1..] + [x];
      WithoutAppended(list[1..], x);
    }
  }

  class CompositionLayerExtension {
    /** The `CompositionLayer` on the same game object, if any. */
    const compositionLayer: CompositionLayer?
    /** Whether `ReportStateChange` is set. */
    var reportStateChange: bool
    /** How many times `ReportStateChange` has been invoked. */
    var stateChanges: nat

    /** `Awake`: the callback is the layer's, and unset without a layer. */
    constructor (compositionLayer: CompositionLayer?)
      ensures this.compositionLayer == compositionLayer
      ensures reportStateChange == (compositionLayer != null) && stateChanges == 0
    {
      this.compositionLayer := compositionLayer;
      reportStateChange := compositionLayer != null;
      stateChanges := 0;
    }

    /** `ReportStateChange?.Invoke()`. */
    method Report()
      modifies this
      ensures reportStateChange == old(reportStateChange)
      ensures stateChanges == old(stateChanges) + if reportStateChange then 1 else 0
    {
      if reportStateChange {
        stateChanges := stateChanges + 1;
      }
    }

    method OnEnable()
      requires compositionLayer != null
      modifies compositionLayer, this
      ensures compositionLayer.extensions == Enlisted(old(compositionLayer.extensions), this)
      ensures reportStateChange == old(reportStateChange)
      ensures stateChanges == old(stateChanges) + if reportStateChange then 1 else 0
    {
      if this !in compositionLayer.extensions {
        compositionLayer.extensions := compositionLayer.extensions + [this];
      }
      Report();
    }

    method OnDisable()
      modifies compositionLayer, this
      ensures compositionLayer != null ==> compositionLayer.extensions == Without(old(compositionLayer.extensions), this)
      ensures reportStateChange == old(reportStateChange)
      ensures stateChanges == old(stateChanges) + if reportStateChange then 1 else 0
    {
      if compositionLayer != null {
        compositionLayer.extensions := Without(compositionLayer.extensions, this);
      }
      Report();
    }

    /** `OnDestroy`: a last report, then the callback is dropped. */
    method OnDestroy()
      modifies this
      ensures !reportStateChange
      ensures stateChanges == old(stateChanges) + if old(reportStateChange) then 1 else 0
    {
      Report();
      reportStateChange := false;
    }
  }

  // ----------------------------------------------------------------------
  // TexturesExtension

  datatype SourceTexture = LocalTexture | AndroidSurface
  datatype TargetEye = Both | Individual
  datatype Rect = Rect(x: real, y: real, width: real, height: real)

  /** `k_DefaultRect`: the whole texture. */
  const DefaultRect := Rect(0.0, 0.0, 1.0, 1.0)

  /** What the rect getters answer for a stored rect. */
  function RectGetter(customRects: bool, stored: Rect): (r: Rect)
    ensures !customRects ==> r == DefaultRect
    ensures customRects ==> r == stored
  {
    if customRects then stored else DefaultRect
  }

  /**
   * A texture is "added" by a setter exactly when the old texture was null
   * and the new one is not.
   */
  predicate AddsTexture(oldTexture: Option<nat>, newTexture: Option<nat>)
  {
    oldTexture.None? && newTexture.Some?
  }

  /**
   * The `TextureAdded` flag over a run of texture assignments: once a
   * texture has been added it stays set, whatever follows.
   */
  function TextureAddedAfter(flag: bool, current: Option<nat>, values: seq<Option<nat>>): bool
    decreases |values|
  {
    if values == [] then flag
    else TextureAddedAfter(flag || AddsTexture(current, values[0]), values[0], values[1..])
  }

  /** Whether the `i`-th assignment of the run, made while `current` held before the run, adds a texture. */
  predicate AddedAt(current: Option<nat>, values: seq<Option<nat>>, i: nat)
    requires i < |values|
  {
    AddsTexture(if i == 0 then current else values[i - 1], values[i])
  }

  /**
   * The flag is never cleared by a setter, and it ends up set exactly when
   * it was set already or some assignment moved the texture from null to a
   * texture.
   */
  lemma {:induction false} TextureAddedLaw(flag: bool, current: Option<nat>, values: seq<Option<nat>>)
    ensures flag ==> TextureAddedAfter(flag, current, values)
    ensures TextureAddedAfter(flag, current, values) <==> flag || exists i :: 0 <= i < |values| && AddedAt(current, values, i)
    decreases |values|
  {
    if values != [] {
      var rest := values[1..];
      var f := flag || AddsTexture(current, values[0]);
      TextureAddedLaw(f, values[0], rest);
      forall i | 0 <= i < |rest|
        ensures AddedAt(values[0], rest, i) == AddedAt(current, values, i + 1)
      {
      }
      if !flag && AddsTexture(current, values[0]) {
        assert AddedAt(current, values, 0);
      }
      if TextureAddedAfter(flag, current, values) && !f {
        var i :| 0 <= i < |rest| && AddedAt(values[0], rest, i);
        assert AddedAt(current, values, i + 1);
      }
      if !TextureAddedAfter(flag, current, values) {
        forall i | 0 <= i < |values|
          ensures !AddedAt(current, values, i)
        {
          if i > 0 {
            assert !AddedAt(values[0], rest, i - 1);
          }
        }
      }
    }
  }

  class TexturesExtension {
    const extension: CompositionLayerExtension
    var sourceTexture: SourceTexture
    var targetEye: TargetEye
    var leftTexture: Option<nat>
    var rightTexture: Option<nat>
    var inEditorEmulation: int
    var customRects: bool
    var resolution: (real, real)
    var leftEyeSourceRect: Rect
    var rightEyeSourceRect: Rect
    var leftEyeDestinationRect: Rect
    var rightEyeDestinationRect: Rect
    var cropToAspect: bool
    var textureAdded: bool

    /** A fresh component with the serialized defaults. */
    constructor (extension: CompositionLayerExtension)
      ensures this.extension == extension
      ensures sourceTexture == LocalTexture && targetEye == Both && leftTexture.None? && rightTexture.None?
      ensures inEditorEmulation == 0 && !customRects && resolution == (0.0, 0.0) && !cropToAspect && !textureAdded
      ensures leftEyeSourceRect == DefaultRect && rightEyeSourceRect == DefaultRect
      ensures leftEyeDestinationRect == DefaultRect && rightEyeDestinationRect == DefaultRect
    {
      this.extension := extension;
      sourceTexture := LocalTexture;
      targetEye := Both;
      leftTexture := None;
      rightTexture := None;
      inEditorEmulation := 0;
      customRects := false;
      resolution := (0.0, 0.0);
      leftEyeSourceRect := DefaultRect;
      rightEyeSourceRect := DefaultRect;
      leftEyeDestinationRect := DefaultRect;
      rightEyeDestinationRect := DefaultRect;
      cropToAspect := false;
      textureAdded := false;
    }

    /** Reports the change when `changed`, through the extension's callback. */
    method ReportIf(changed: bool)
      modifies extension
      ensures extension.reportStateChange == old(extension.reportStateChange)
      ensures extension.stateChanges == old(extension.stateChanges) + if changed && extension.reportStateChange then 1 else 0
    {
      if changed {
        extension.Report();
      }
    }

    method SetTargetEye(value: TargetEye)
      modifies this, extension
      ensures targetEye == value && extension.reportStateChange == old(extension.reportStateChange)
      ensures extension.stateChanges == old(extension.stateChanges) + if value != old(targetEye) && extension.reportStateChange then 1 else 0
      ensures leftTexture == old(leftTexture) && rightTexture == old(rightTexture) && textureAdded == old(textureAdded)
    {
      var (v, changed) := UpdateValue(Some(targetEye), Some(value));
      ReportIf(changed);
      targetEye := v.value;
    }

    method SetLeftTexture(value: Option<nat>)
      modifies this, extension
      ensures leftTexture == value && rightTexture == old(rightTexture)
      ensures textureAdded == (old(textureAdded) || AddsTexture(old(leftTexture), value))
      ensures extension.reportStateChange == old(extension.reportStateChange)
      ensures extension.stateChanges == old(extension.stateChanges)
        + if UpdateValue(old(leftTexture), value).1 && extension.reportStateChange then 1 else 0
    {
      if leftTexture.None? && value.Some? {
        textureAdded := true;
      }
      var (v, changed) := UpdateValue(leftTexture, value);
      ReportIf(changed);
      leftTexture := v;
    }

    method SetRightTexture(value: Option<nat>)
      modifies this, extension
      ensures rightTexture == value && leftTexture == old(leftTexture)
      ensures textureAdded == (old(textureAdded) || AddsTexture(old(rightTexture), value))
      ensures extension.reportStateChange == old(extension.reportStateChange)
      ensures extension.stateChanges == old(extension.stateChanges)
        + if UpdateValue(old(rightTexture), value).1 && extension.reportStateChange then 1 else 0
    {
      if rightTexture.None? && value.Some? {
        textureAdded := true;
      }
      var (v, changed) := UpdateValue(rightTexture, value);
      ReportIf(changed);
      rightTexture := v;
    }

    method SetInEditorEmulation(value: int)
      modifies this, extension
      ensures inEditorEmulation == value && extension.reportStateChange == old(extension.reportStateChange)
      ensures extension.stateChanges == old(extension.stateChanges) + if value != old(inEditorEmulation) && extension.reportStateChange then 1 else 0
    {
      var (v, changed) := UpdateValue(Some(inEditorEmulation), Some(value));
      ReportIf(changed);
      inEditorEmulation := v.value;
    }

    method SetCustomRects(value: bool)
      modifies this, extension
      ensures customRects == value && extension.reportStateChange == old(extension.reportStateChange)
      ensures extension.stateChanges == old(extension.stateChanges) + if value != old(customRects) && extension.reportStateChange then 1 else 0
      ensures leftEyeSourceRect == old(leftEyeSourceRect) && rightEyeSourceRect == old(rightEyeSourceRect)
      ensures leftEyeDestinationRect == old(leftEyeDestinationRect) && rightEyeDestinationRect == old(rightEyeDestinationRect)
    {
      var (v, changed) := UpdateValue(Some(customRects), Some(value));
      ReportIf(changed);
      customRects := v.value;
    }

    method SetSourceTexture(value: SourceTexture)
      modifies this, extension
      ensures sourceTexture == value && extension.reportStateChange == old(extension.reportStateChange)
      ensures extension.stateChanges == old(extension.stateChanges) + if value != old(sourceTexture) && extension.reportStateChange then 1 else 0
    {
      var (v, changed) := UpdateValue(Some(sourceTexture), Some(value));
      ReportIf(changed);
      sourceTexture := v.value;
    }

    method SetResolution(value: (real, real))
      modifies this, extension
      ensures resolution == value && extension.reportStateChange == old(extension.reportStateChange)
      ensures extension.stateChanges == old(extension.stateChanges) + if value != old(resolution) && extension.reportStateChange then 1 else 0
    {
      var (v, changed) := UpdateValue(Some(resolution), Some(value));
      ReportIf(changed);
      resolution := v.value;
    }

    method SetCropToAspect(value: bool)
      modifies this, extension
      ensures cropToAspect == value && extension.reportStateChange == old(extension.reportStateChange)
      ensures extension.stateChanges == old(extension.stateChanges) + if value != old(cropToAspect) && extension.reportStateChange then 1 else 0
    {
      var (v, changed) := UpdateValue(Some(cropToAspect), Some(value));
      ReportIf(changed);
      cropToAspect := v.value;
    }

    function LeftEyeSourceRect(): Rect
      reads this
    {
      RectGetter(customRects, leftEyeSourceRect)
    }

    function RightEyeSourceRect(): Rect
      reads this
    {
      RectGetter(customRects, rightEyeSourceRect)
    }

    function LeftEyeDestinationRect(): Rect
      reads this
    {
      RectGetter(customRects, leftEyeDestinationRect)
    }

    function RightEyeDestinationRect(): Rect
      reads this
    {
      RectGetter(customRects, rightEyeDestinationRect)
    }

    /** The rect setters store the value even while custom rects are off; the getter shows it once they are on. */
    method SetLeftEyeSourceRect(value: Rect)
      modifies this, extension
      ensures leftEyeSourceRect == value && customRects == old(customRects)
      ensures LeftEyeSourceRect() == if customRects then value else DefaultRect
      ensures extension.reportStateChange == old(extension.reportStateChange)
      ensures extension.stateChanges == old(extension.stateChanges) + if value != old(leftEyeSourceRect) && extension.reportStateChange then 1 else 0
    {
      var (v, changed) := UpdateValue(Some(leftEyeSourceRect), Some(value));
      ReportIf(changed);
      leftEyeSourceRect := v.value;
    }

    method SetRightEyeSourceRect(value: Rect)
      modifies this, extension
      ensures rightEyeSourceRect == value && customRects == old(customRects)
      ensures RightEyeSourceRect() == if customRects then value else DefaultRect
      ensures extension.reportStateChange == old(extension.reportStateChange)
      ensures extension.stateChanges == old(extension.stateChanges) + if value != old(rightEyeSourceRect) && extension.reportStateChange then 1 else 0
    {
      var (v, changed) := UpdateValue(Some(rightEyeSourceRect), Some(value));
      ReportIf(changed);
      rightEyeSourceRect := v.value;
    }

    method SetLeftEyeDestinationRect(value: Rect)
      modifies this, extension
      ensures leftEyeDestinationRect == value && customRects == old(customRects)
      ensures LeftEyeDestinationRect() == if customRects then value else DefaultRect
      ensures extension.reportStateChange == old(extension.reportStateChange)
      ensures extension.stateChanges == old(extension.stateChanges) + if value != old(leftEyeDestinationRect) && extension.reportStateChange then 1 else 0
    {
      var (v, changed) := UpdateValue(Some(leftEyeDestinationRect), Some(value));
      ReportIf(changed);
      leftEyeDestinationRect := v.value;
    }

    method SetRightEyeDestinationRect(value: Rect)
      modifies this, extension
      ensures rightEyeDestinationRect == value && customRects == old(customRects)
      ensures RightEyeDestinationRect() == if customRects then value else DefaultRect
      ensures extension.reportStateChange == old(extension.reportStateChange)
      ensures extension.stateChanges == old(extension.stateChanges) + if value != old(rightEyeDestinationRect) && extension.reportStateChange then 1 else 0
    {
      var (v, changed) := UpdateValue(Some(rightEyeDestinationRect), Some(value));
      ReportIf(changed);
      rightEyeDestinationRect := v.value;
    }
  }
}
