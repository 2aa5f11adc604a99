/**
 * The PBR material record of engine/render/material.h and material.cpp:
 * six scalar/vector factors, six texture slots each with a "has map" flag,
 * the setters that fill a slot, and the uniform writes and texture-unit
 * binds that `activate`/`deactivate` issue.
 */
module Render {
  import opened Glm
  import opened Wrappers

  /**
   * A texture handle: its OpenGL name (0 when creation failed) and the file
   * it was loaded from (empty for images decoded from memory).
   */
  datatype Texture = Texture(id: nat, filePath: string) {
    /** `Texture::isLoaded`: a texture is loaded exactly when its name is non-zero. */
    predicate IsLoaded() { id != 0 }

    /** `Texture::bind(unit)`: an unloaded texture binds nothing. */
    function Bind(unit: nat): (calls: seq<GlCall>)
      ensures calls == [] <==> !IsLoaded()
      ensures forall c | c in calls :: c == BindTexture(unit, id)
    {
      if IsLoaded() then [BindTexture(unit, id)] else []
    }
  }

  /** The six texture slots, in the order `activate` handles them. */
  datatype Slot = BaseColor | Normal | Roughness | Metallic | Occlusion | Emissive

  const Slots: seq<Slot> := [BaseColor, Normal, Roughness, Metallic, Occlusion, Emissive]

  /** The texture unit `activate` binds a slot to (and names in its sampler uniform). */
  function Unit(s: Slot): (u: nat)
    ensures u < 6 && Slots[u] == s
  {
    match s
    case BaseColor => 0
    case Normal => 1
    case Roughness => 2
    case Metallic => 3
    case Occlusion => 4
    case Emissive => 5
  }

  /** The uniform that tells the shader whether a slot holds a map. */
  function HasUniform(s: Slot): string
  {
    match s
    case BaseColor => "uMaterial.hasBaseColorMap"
    case Normal => "uMaterial.hasNormalMap"
    case Roughness => "uMaterial.hasRoughnessMap"
    case Metallic => "uMaterial.hasMetallicMap"
    case Occlusion => "uMaterial.hasOcclusionMap"
    case Emissive => "uMaterial.hasEmissiveMap"
  }

  /** The sampler uniform of a slot. */
  function SamplerUniform(s: Slot): string
  {
    match s
    case BaseColor => "uMaterial.baseColorMap"
    case Normal => "uMaterial.normalMap"
    case Roughness => "uMaterial.roughnessMap"
    case Metallic => "uMaterial.metallicMap"
    case Occlusion => "uMaterial.occlusionMap"
    case Emissive => "uMaterial.emissiveMap"
  }

  datatype UniformValue = IntValue(i: int) | FloatValue(f: real) | Vec3Value(v3: Vec3) | Vec4Value(v4: Vec4)

  /** The OpenGL and shader calls the render path issues, as an ordered trace. */
  datatype GlCall =
    | SetUniform(name: string, value: UniformValue)
    | BindTexture(unit: nat, id: nat)
    | UnbindUnit(unit: nat)
    | DrawElements(count: nat)

  /** The uniform writes of a trace, in order. */
  function Uniforms(calls: seq<GlCall>): (r: seq<GlCall>)
    ensures |r| <= |calls|
  {
    if calls == [] then []
    else Uniforms(calls[..|calls| - 1]) + (if calls[|calls| - 1].SetUniform? then [calls[|calls| - 1]] else [])
  }

  lemma {:induction false} UniformsAppend(a: seq<GlCall>, b: seq<GlCall>)
    ensures Uniforms(a + b) == Uniforms(a) + Uniforms(b)
    decreases |b|
  {
    if b == [] {
      assert a + b == a;
    } else {
      var b' := b[..|b| - 1];
      assert (a + b)[..|a + b| - 1] == a + b';
      UniformsAppend(a, b');
    }
  }

  /** The six scalar and vector factors of a material. */
  datatype Factors = Factors(
    baseColorFactor: Vec4,
    metallicFactor: real,
    roughnessFactor: real,
    emissiveFactor: Vec3,
    normalScale: real,
    occlusionStrength: real)

  /** The whole state of a `Material` object, as a value. */
  datatype MaterialState = MaterialState(
    factors: Factors,
    baseColorMap: Option<Texture>,
    normalMap: Option<Texture>,
    roughnessMap: Option<Texture>,
    metallicMap: Option<Texture>,
    ambientOcclusionMap: Option<Texture>,
    emissiveMap: Option<Texture>,
    hasBaseColorMap: bool,
    hasNormalMap: bool,
    hasRoughnessMap: bool,
    hasMetallicMap: bool,
    hasAmbientOcclusionMap: bool,
    hasEmissiveMap: bool)
  {
    /** The texture stored in a slot. */
    function Map(s: Slot): Option<Texture>
    {
      match s
      case BaseColor => baseColorMap
      case Normal => normalMap
      case Roughness => roughnessMap
      case Metallic => metallicMap
      case Occlusion => ambientOcclusionMap
      case Emissive => emissiveMap
    }

    /** The "has map" flag of a slot. */
    predicate Has(s: Slot)
    {
      match s
      case BaseColor => hasBaseColorMap
      case Normal => hasNormalMap
      case Roughness => hasRoughnessMap
      case Metallic => hasMetallicMap
      case Occlusion => hasAmbientOcclusionMap
      case Emissive => hasEmissiveMap
    }

    /**
     * The effect of a `set*Map` setter: the slot keeps the texture it is
     * given, even an unloaded one, its flag becomes "non-null and loaded",
     * and nothing else changes (`WithMapFrame`).
     */
    function WithMap(s: Slot, t: Option<Texture>): (r: MaterialState)
      ensures r.Map(s) == t
      ensures r.Has(s) <==> t.Some? && t.value.IsLoaded()
      ensures r.factors == factors
    {
      var loaded := t.Some? && t.value.IsLoaded();
      MaterialState(
        factors,
        if s == BaseColor then t else baseColorMap,
        if s == Normal then t else normalMap,
        if s == Roughness then t else roughnessMap,
        if s == Metallic then t else metallicMap,
        if s == Occlusion then t else ambientOcclusionMap,
        if s == Emissive then t else emissiveMap,
        if s == BaseColor then loaded else hasBaseColorMap,
        if s == Normal then loaded else hasNormalMap,
        if s == Roughness then loaded else hasRoughnessMap,
        if s == Metallic then loaded else hasMetallicMap,
        if s == Occlusion then loaded else hasAmbientOcclusionMap,
        if s == Emissive then loaded else hasEmissiveMap)
    }

    /** A slot whose texture `activate` binds: flag set and slot non-null. */
    predicate Bound(s: Slot)
    {
      Has(s) && Map(s).Some?
    }

    /**
     * What the setters maintain: a slot's flag is set exactly when the
     * slot holds a loaded texture.
     */
    predicate Consistent()
    {
      forall s: Slot :: Has(s) <==> Map(s).Some? && Map(s).value.IsLoaded()
    }

    /** The six factor uniforms, written unchanged. */
    function FactorUniforms(): (calls: seq<GlCall>)
    {
      [ SetUniform("uMaterial.baseColorFactor", Vec4Value(factors.baseColorFactor)),
        SetUniform("uMaterial.metallicFactor", FloatValue(factors.metallicFactor)),
        SetUniform("uMaterial.roughnessFactor", FloatValue(factors.roughnessFactor)),
        SetUniform("uMaterial.emissiveFactor", Vec3Value(factors.emissiveFactor)),
        SetUniform("uMaterial.normalScale", FloatValue(factors.normalScale)),
        SetUniform("uMaterial.occlusionStrength", FloatValue(factors.occlusionStrength)) ]
    }

    /** The two uniform writes `activate` issues for one slot: flag, then sampler unit. */
    function SlotUniforms(s: Slot): (calls: seq<GlCall>)
    {
      [ SetUniform(HasUniform(s), IntValue(if Has(s) then 1 else 0)),
        SetUniform(SamplerUniform(s), IntValue(if Bound(s) then Unit(s) else 0)) ]
    }

    /** The calls `activate` issues for one slot. */
    function SlotCalls(s: Slot): (calls: seq<GlCall>)
      ensures Uniforms(calls) == SlotUniforms(s)
      ensures forall c | c in calls && !c.SetUniform? :: Bound(s) && c == BindTexture(Unit(s), Map(s).value.id)
      ensures Bound(s) && Map(s).value.IsLoaded() ==> BindTexture(Unit(s), Map(s).value.id) in calls
    {
      var hasCall := SetUniform(HasUniform(s), IntValue(if Has(s) then 1 else 0));
      if Bound(s) then
        var bind := Map(s).value.Bind(Unit(s));
        var sampler := SetUniform(SamplerUniform(s), IntValue(Unit(s)));
        UniformsAppend([hasCall] + bind, [sampler]);
        UniformsAppend([hasCall], bind);
        NoUniforms(bind);
        UniformsOfWrites([hasCall]);
        UniformsOfWrites([sampler]);
        [hasCall] + bind + [sampler]
      else
        var sampler := SetUniform(SamplerUniform(s), IntValue(0));
        UniformsOfWrites([hasCall, sampler]);
        [hasCall, sampler]
    }

    /** The calls for a run of slots, one slot after the other. */
    function SlotsCalls(ss: seq<Slot>): (calls: seq<GlCall>)
    {
      if ss == [] then [] else SlotsCalls(ss[..|ss| - 1]) + SlotCalls(ss[|ss| - 1])
    }

    /** The pairs of uniform writes of a run of slots, one slot after the other. */
    function SlotsUniforms(ss: seq<Slot>): (calls: seq<GlCall>)
    {
      if ss == [] then [] else SlotsUniforms(ss[..|ss| - 1]) + SlotUniforms(ss[|ss| - 1])
    }

    /**
     * `Material::activate`: the six factors, then each slot in unit order
     * (its flag uniform, a bind of its texture when the slot is bound, its
     * sampler uniform).
     */
    function Activate(): (calls: seq<GlCall>)
    {
      FactorUniforms() + SlotsCalls(Slots)
    }
  }

  /** The uniform writes of a run of slots are the slots' pairs of writes, in order. */
  lemma {:induction false} SlotsCallsUniforms(m: MaterialState, ss: seq<Slot>)
    ensures Uniforms(m.SlotsCalls(ss)) == m.SlotsUniforms(ss)
    decreases |ss|
  {
    if ss != [] {
      var ss' := ss[..|ss| - 1];
      SlotsCallsUniforms(m, ss');
      UniformsAppend(m.SlotsCalls(ss'), m.SlotCalls(ss[|ss| - 1]));
    }
  }

  /** Every non-uniform call of a run of slots binds the texture of one of its bound slots, and every loaded bound slot is bound. */
  lemma {:induction false} SlotsCallsBinds(m: MaterialState, ss: seq<Slot>)
    ensures forall c | c in m.SlotsCalls(ss) && !c.SetUniform? ::
      exists s: Slot :: s in ss && m.Bound(s) && c == BindTexture(Unit(s), m.Map(s).value.id)
    ensures forall s: Slot | s in ss && m.Bound(s) && m.Map(s).value.IsLoaded() ::
      BindTexture(Unit(s), m.Map(s).value.id) in m.SlotsCalls(ss)
    decreases |ss|
  {
    if ss != [] {
      var ss' := ss[..|ss| - 1];
      var last := ss[|ss| - 1];
      SlotsCallsBinds(m, ss');
      assert ss == ss' + [last];
      forall c | c in m.SlotsCalls(ss) && !c.SetUniform?
        ensures exists s: Slot :: s in ss && m.Bound(s) && c == BindTexture(Unit(s), m.Map(s).value.id)
      {
        if c in m.SlotCalls(last) {
          assert last in ss;
        } else {
          var s: Slot :| s in ss' && m.Bound(s) && c == BindTexture(Unit(s), m.Map(s).value.id);
          assert s in ss;
        }
      }
    }
  }

  /**
   * `activate` writes the six factors unchanged, then for slot s (unit
   * `Unit(s)`) its flag at position 6 + 2 Unit(s) and its sampler at the
   * next position: the slot's unit when the slot is bound, 0 otherwise.
   */
  lemma ActivateWrites(m: MaterialState, s: Slot)
    ensures |Uniforms(m.Activate())| == 18
    ensures Uniforms(m.Activate())[..6] == m.FactorUniforms()
    ensures Uniforms(m.Activate())[6 + 2 * Unit(s)] == SetUniform(HasUniform(s), IntValue(if m.Has(s) then 1 else 0))
    ensures Uniforms(m.Activate())[7 + 2 * Unit(s)] ==
      SetUniform(SamplerUniform(s), IntValue(if m.Has(s) && m.Map(s).Some? then Unit(s) else 0))
  {
    ActivateUniforms(m);
    var u := m.SlotsUniforms(Slots);
    SlotsUniformsAt(m, Slots, Unit(s));
    assert (m.FactorUniforms() + u)[6 + 2 * Unit(s)] == u[2 * Unit(s)];
    assert (m.FactorUniforms() + u)[7 + 2 * Unit(s)] == u[2 * Unit(s) + 1];
  }

  /** The uniform writes of `activate`: the factors, then each slot's pair. */
  lemma ActivateUniforms(m: MaterialState)
    ensures Uniforms(m.Activate()) == m.FactorUniforms() + m.SlotsUniforms(Slots)
  {
    FactorsThenSlots(m, Slots);
  }

  lemma FactorsThenSlots(m: MaterialState, ss: seq<Slot>)
    ensures Uniforms(m.FactorUniforms() + m.SlotsCalls(ss)) == m.FactorUniforms() + m.SlotsUniforms(ss)
  {
    var f := m.FactorUniforms();
    UniformsOfWrites(f);
    UniformsAppend(f, m.SlotsCalls(ss));
    SlotsCallsUniforms(m, ss);
  }

  /** Slot i of a run owns positions 2i and 2i + 1 of its uniform writes. */
  lemma {:induction false} SlotsUniformsAt(m: MaterialState, ss: seq<Slot>, i: nat)
    requires i < |ss|
    ensures |m.SlotsUniforms(ss)| == 2 * |ss|
    ensures m.SlotsUniforms(ss)[2 * i] == m.SlotUniforms(ss[i])[0]
    ensures m.SlotsUniforms(ss)[2 * i + 1] == m.SlotUniforms(ss[i])[1]
    decreases |ss|
  {
    var ss' := ss[..|ss| - 1];
    if i < |ss'| {
      SlotsUniformsAt(m, ss', i);
    } else if ss' != [] {
      SlotsUniformsAt(m, ss', 0);
    }
  }

  /**
   * `activate` binds exactly the loaded textures of bound slots, each to
   * its slot's unit, and issues no call other than uniform writes and binds.
   */
  lemma ActivateBinds(m: MaterialState)
    ensures forall c | c in m.Activate() :: c.SetUniform? || exists s: Slot :: m.Bound(s) && c == BindTexture(Unit(s), m.Map(s).value.id)
    ensures forall s: Slot | m.Bound(s) && m.Map(s).value.IsLoaded() :: BindTexture(Unit(s), m.Map(s).value.id) in m.Activate()
  {
    SlotsCallsBinds(m, Slots);
    forall s: Slot ensures s in Slots { assert Slots[Unit(s)] == s; }
  }

  /** A trace without uniform writes has none to list. */
  lemma {:induction false} NoUniforms(calls: seq<GlCall>)
    requires forall c | c in calls :: !c.SetUniform?
    ensures Uniforms(calls) == []
    decreases |calls|
  {
    if calls != [] {
      NoUniforms(calls[..|calls| - 1]);
    }
  }

  /** A trace made only of uniform writes is its own list of uniform writes. */
  lemma {:induction false} UniformsOfWrites(calls: seq<GlCall>)
    requires forall c | c in calls :: c.SetUniform?
    ensures Uniforms(calls) == calls
    decreases |calls|
  {
    if calls != [] {
      UniformsOfWrites(calls[..|calls| - 1]);
      assert calls[..|calls| - 1] + [calls[|calls| - 1]] == calls;
    }
  }

  /** The state of a default-constructed `Material`. */
  const Default := MaterialState(
    Factors(One4, 0.0, 1.0, Zero3, 1.0, 1.0),
    None, None, None, None, None, None,
    false, false, false, false, false, false)

  /** A fresh material has the documented factors, no maps and every flag down. */
  lemma DefaultIsEmpty()
    ensures Default.factors.baseColorFactor == Vec4(1.0, 1.0, 1.0, 1.0)
    ensures Default.factors.metallicFactor == 0.0 && Default.factors.roughnessFactor == 1.0
    ensures Default.factors.emissiveFactor == Vec3(0.0, 0.0, 0.0)
    ensures Default.factors.normalScale == 1.0 && Default.factors.occlusionStrength == 1.0
    ensures forall s: Slot :: Default.Map(s) == None && !Default.Has(s)
    ensures Default.Consistent()
  {
  }

  /** A setter leaves every other slot and its flag as they were. */
  lemma WithMapFrame(m: MaterialState, s: Slot, t: Option<Texture>, o: Slot)
    requires o != s
    ensures m.WithMap(s, t).Map(o) == m.Map(o)
    ensures m.WithMap(s, t).Has(o) == m.Has(o)
  {
  }

  /** A setter keeps a consistent material consistent, whatever texture it is given. */
  lemma WithMapConsistent(m: MaterialState, s: Slot, t: Option<Texture>)
    requires m.Consistent()
    ensures m.WithMap(s, t).Consistent()
  {
    forall o: Slot | o != s {
      WithMapFrame(m, s, t, o);
    }
  }

  /**
   * On a consistent material the flags decide the binds: `activate` binds
   * the texture of every slot whose flag is set, and binds nothing else.
   */
  lemma ActivateBindsFlagged(m: MaterialState)
    requires m.Consistent()
    ensures forall s: Slot | m.Has(s) :: BindTexture(Unit(s), m.Map(s).value.id) in m.Activate()
    ensures forall c | c in m.Activate() :: c.SetUniform? || exists s: Slot :: m.Has(s) && c == BindTexture(Unit(s), m.Map(s).value.id)
  {
    ActivateBinds(m);
  }

  /** Setting a slot twice keeps only the second texture and its flag. */
  lemma SetterReplaces(m: MaterialState, s: Slot, t1: Option<Texture>, t2: Option<Texture>)
    ensures m.WithMap(s, t1).WithMap(s, t2) == m.WithMap(s, t2)
  {
  }

  /**
   * `Material::deactivate` as written: it activates `GL_TEXTUREk + 1` for
   * k = 5 down to 0, so it unbinds units 6, 5, 4, 3, 2 and 1, in that
   * order; unit 0 is never unbound.
   */
  function DeactivateAsWritten(): (calls: seq<GlCall>)
    ensures |calls| == 6
    ensures forall k | 0 <= k < 6 :: calls[k] == UnbindUnit(6 - k)
    ensures UnbindUnit(0) !in calls
    ensures Uniforms(calls) == []
  {
    var calls := seq(6, k requires 0 <= k < 6 => UnbindUnit(6 - k));
    NoUniforms(calls);
    calls
  }

  /**
   * The input that shows it: a material with a loaded base color map has
   * that map bound to unit 0 by `activate`, and `deactivate` as written
   * leaves unit 0 bound while it unbinds unit 6, which no slot uses.
   */
  lemma DeactivateAsWrittenLeavesUnitZero(m: MaterialState)
    requires m.Bound(BaseColor) && m.Map(BaseColor).value.IsLoaded()
    ensures BindTexture(0, m.Map(BaseColor).value.id) in m.Activate()
    ensures UnbindUnit(0) !in DeactivateAsWritten()
    ensures UnbindUnit(6) in DeactivateAsWritten() && forall s: Slot :: Unit(s) != 6
  {
    ActivateBinds(m);
    assert DeactivateAsWritten()[0] == UnbindUnit(6);
  }

  /**
   * `Material::deactivate` as its comments intend: unbind the six units
   * `activate` uses, from unit 5 down to unit 0.
   */
  function Deactivate(): (calls: seq<GlCall>)
    ensures |calls| == 6
    ensures Uniforms(calls) == []
  {
    var calls := seq(6, k requires 0 <= k < 6 => UnbindUnit(5 - k));
    NoUniforms(calls);
    calls
  }

  /** Slot i of `Slots` uses unit i. */
  lemma UnitOfSlot(i: nat)
    requires i < 6
    ensures Unit(Slots[i]) == i
  {
  }

  /** `deactivate` unbinds exactly the units of the six slots, from the last to the first. */
  lemma DeactivateUnbindsSlotUnits()
    ensures forall k | 0 <= k < 6 :: Deactivate()[k] == UnbindUnit(Unit(Slots[5 - k]))
    ensures forall s: Slot :: UnbindUnit(Unit(s)) in Deactivate()
    ensures forall c | c in Deactivate() :: exists s: Slot :: c == UnbindUnit(Unit(s))
  {
    forall k | 0 <= k < 6 ensures Deactivate()[k] == UnbindUnit(Unit(Slots[5 - k])) {
      UnitOfSlot(5 - k);
    }
    forall s: Slot ensures UnbindUnit(Unit(s)) in Deactivate() {
      assert Deactivate()[5 - Unit(s)] == UnbindUnit(Unit(s));
    }
  }

  /** Every unit `activate` binds a texture to is unbound again by `deactivate`. */
  lemma DeactivateUndoesActivate(m: MaterialState)
    ensures forall c | c in m.Activate() && c.BindTexture? :: UnbindUnit(c.unit) in Deactivate()
  {
    ActivateBinds(m);
    DeactivateUnbindsSlotUnits();
  }

  /** `Engine::Render::Material`: public factor fields and private slots and flags. */
  class Material {
    var baseColorFactor: Vec4
    var metallicFactor: real
    var roughnessFactor: real
    var emissiveFactor: Vec3
    var normalScale: real
    var occlusionStrength: real

    var baseColorMap: Option<Texture>
    var normalMap: Option<Texture>
    var roughnessMap: Option<Texture>
    var metallicMap: Option<Texture>
    var ambientOcclusionMap: Option<Texture>
    var emissiveMap: Option<Texture>

    var hasBaseColorMap: bool
    var hasNormalMap: bool
    var hasRoughnessMap: bool
    var hasMetallicMap: bool
    var hasAmbientOcclusionMap: bool
    var hasEmissiveMap: bool

    /** The object's fields as one value. */
    function State(): MaterialState
      reads this
    {
      MaterialState(
        Factors(baseColorFactor, metallicFactor, roughnessFactor, emissiveFactor, normalScale, occlusionStrength),
        baseColorMap, normalMap, roughnessMap, metallicMap, ambientOcclusionMap, emissiveMap,
        hasBaseColorMap, hasNormalMap, hasRoughnessMap, hasMetallicMap, hasAmbientOcclusionMap, hasEmissiveMap)
    }

    /** The flags agree with the maps. */
    ghost predicate Valid()
      reads this
    {
      State().Consistent()
    }

    /** `Material()`: the default initialisers of material.h. */
    constructor ()
      ensures State() == Default
      ensures Valid()
    {
      baseColorFactor, metallicFactor, roughnessFactor := One4, 0.0, 1.0;
      emissiveFactor, normalScale, occlusionStrength := Zero3, 1.0, 1.0;
      baseColorMap, normalMap, roughnessMap := None, None, None;
      metallicMap, ambientOcclusionMap, emissiveMap := None, None, None;
      hasBaseColorMap, hasNormalMap, hasRoughnessMap := false, false, false;
      hasMetallicMap, hasAmbientOcclusionMap, hasEmissiveMap := false, false, false;
      new;
      DefaultIsEmpty();
    }

    method SetBaseColorMap(texture: Option<Texture>)
      modifies this
      ensures State() == old(State()).WithMap(BaseColor, texture)
      ensures old(Valid()) ==> Valid()
    {
      if Valid() { WithMapConsistent(State(), BaseColor, texture); }
      hasBaseColorMap := texture.Some? && texture.value.IsLoaded();
      baseColorMap := texture;
    }

    method SetNormalMap(texture: Option<Texture>)
      modifies this
      ensures State() == old(State()).WithMap(Normal, texture)
      ensures old(Valid()) ==> Valid()
    {
      if Valid() { WithMapConsistent(State(), Normal, texture); }
      hasNormalMap := texture.Some? && texture.value.IsLoaded();
      normalMap := texture;
    }

    method SetRoughnessMap(texture: Option<Texture>)
      modifies this
      ensures State() == old(State()).WithMap(Roughness, texture)
      ensures old(Valid()) ==> Valid()
    {
      if Valid() { WithMapConsistent(State(), Roughness, texture); }
      hasRoughnessMap := texture.Some? && texture.value.IsLoaded();
      roughnessMap := texture;
    }

    method SetMetallicMap(texture: Option<Texture>)
      modifies this
      ensures State() == old(State()).WithMap(Metallic, texture)
      ensures old(Valid()) ==> Valid()
    {
      if Valid() { WithMapConsistent(State(), Metallic, texture); }
      hasMetallicMap := texture.Some? && texture.value.IsLoaded();
      metallicMap := texture;
    }

    method SetAmbientOcclusionMap(texture: Option<Texture>)
      modifies this
      ensures State() == old(State()).WithMap(Occlusion, texture)
      ensures old(Valid()) ==> Valid()
    {
      if Valid() { WithMapConsistent(State(), Occlusion, texture); }
      hasAmbientOcclusionMap := texture.Some? && texture.value.IsLoaded();
      ambientOcclusionMap := texture;
    }

    method SetEmissiveMap(texture: Option<Texture>)
      modifies this
      ensures State() == old(State()).WithMap(Emissive, texture)
      ensures old(Valid()) ==> Valid()
    {
      if Valid() { WithMapConsistent(State(), Emissive, texture); }
      hasEmissiveMap := texture.Some? && texture.value.IsLoaded();
      emissiveMap := texture;
    }

    function GetBaseColorMap(): (t: Option<Texture>)
      reads this
      ensures t == State().Map(BaseColor)
    {
      baseColorMap
    }

    function GetNormalMap(): (t: Option<Texture>)
      reads this
      ensures t == State().Map(Normal)
    {
      normalMap
    }

    function GetRoughnessMap(): (t: Option<Texture>)
      reads this
      ensures t == State().Map(Roughness)
    {
      roughnessMap
    }

    function GetMetallicMap(): (t: Option<Texture>)
      reads this
      ensures t == State().Map(Metallic)
    {
      metallicMap
    }

    function GetAmbientOcclusionMap(): (t: Option<Texture>)
      reads this
      ensures t == State().Map(Occlusion)
    {
      ambientOcclusionMap
    }

    function GetEmissiveMap(): (t: Option<Texture>)
      reads this
      ensures t == State().Map(Emissive)
    {
      emissiveMap
    }
  }
}
