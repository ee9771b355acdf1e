/** The single-slot response cache of `model_fields`: the last ten inputs and
    the five results computed from them, re-used while the inputs repeat.
    The mesh, the logarithm, the trigonometric functions, the polygon test and
    the simulation engine are injected as an `Env`. */
module ResponseCache {
  import opened Wrappers
  import opened Geometry
  import opened ModelBuilder

  /** The `B` argument: `[]` for a pole source, or an electrode position. */
  datatype ElectrodeB = NoElectrode | At(x: real)

  /** A solution object of the simulation engine (simpeg's `Fields`), known to the
      cache only by identity: the cache stores and returns it, and never reads it. */
  datatype FieldObject = FieldObject(id: nat)

  /** The ten arguments of `model_fields`, in order. */
  datatype Params = Params(a: real, b: ElectrodeB, zcLayer: real, dzLayer: real, xc: real, zc: real,
                           r: real, sigLayer: real, sigTarget: real, sigHalf: real)

  /** The current source handed to the survey: a pole at A or a dipole A-B, on the surface. */
  datatype Source = Pole(a: Point) | Dipole(a: Point, b: Point)

  /** The tuple `(mtrue, mhalf, src, primary_field, total_field)`. */
  datatype Response = Response(mtrue: seq<real>, mhalf: seq<real>, src: Source, primaryField: FieldObject, totalField: FieldObject)

  /** Everything `model_fields` uses but does not define. `solve` is the simulation
      engine's `fields(m)` for the survey of a source; `None` is a failure it raises. */
  datatype Env = Env(centers: seq<Point>, ln: real -> real, cos: real -> real, sin: real -> real,
                        inside: (Path, Point) -> bool, solve: (seq<real>, Source) -> Option<FieldObject>)

  /** The ten key slots of `_cache`; `None` is the initial Python `None`. */
  datatype Slots = Slots(a: Option<real>, b: Option<ElectrodeB>, zcLayer: Option<real>, dzLayer: Option<real>,
                         xc: Option<real>, zc: Option<real>, r: Option<real>, sigLayer: Option<real>,
                         sigTarget: Option<real>, sigHalf: Option<real>)

  const EmptySlots := Slots(None, None, None, None, None, None, None, None, None, None)

  /** The key slots after storing `p`. */
  function SlotsOf(p: Params): Slots
  {
    Slots(Some(p.a), Some(p.b), Some(p.zcLayer), Some(p.dzLayer), Some(p.xc), Some(p.zc), Some(p.r),
          Some(p.sigLayer), Some(p.sigTarget), Some(p.sigHalf))
  }

  /** The arguments the slots hold, once every one of them is filled. */
  function KeyParams(s: Slots): (p: Option<Params>)
    ensures p.Some? ==> s == SlotsOf(p.value)
  {
    if s.a.Some? && s.b.Some? && s.zcLayer.Some? && s.dzLayer.Some? && s.xc.Some? && s.zc.Some?
       && s.r.Some? && s.sigLayer.Some? && s.sigTarget.Some? && s.sigHalf.Some?
    then Some(Params(s.a.value, s.b.value, s.zcLayer.value, s.dzLayer.value, s.xc.value, s.zc.value,
                     s.r.value, s.sigLayer.value, s.sigTarget.value, s.sigHalf.value))
    else None
  }

  lemma KeyParamsOfSlots(p: Params)
    ensures KeyParams(SlotsOf(p)) == Some(p)
  {
  }

  /** `re_run`: some stored key differs from the corresponding argument. */
  predicate Stale(s: Slots, p: Params)
  {
    || s.a != Some(p.a) || s.b != Some(p.b) || s.zcLayer != Some(p.zcLayer) || s.dzLayer != Some(p.dzLayer)
    || s.xc != Some(p.xc) || s.zc != Some(p.zc) || s.r != Some(p.r) || s.sigLayer != Some(p.sigLayer)
    || s.sigTarget != Some(p.sigTarget) || s.sigHalf != Some(p.sigHalf)
  }

  /** The source `model_fields` builds: a pole at (A, 0) when `B == []`, else a dipole (A, 0), (B, 0). */
  function SourceFor(a: real, b: ElectrodeB): (s: Source)
    ensures s.Pole? <==> b.NoElectrode?
    ensures s.a == Point(a, 0.0)
    ensures s.Dipole? ==> s.b == Point(b.x, 0.0)
  {
    if b.NoElectrode? then Pole(Point(a, 0.0)) else Dipole(Point(a, 0.0), Point(b.x, 0.0))
  }

  /** The conductivity of the half-space alone. */
  function HalfModel(env: Env, p: Params): seq<real>
  {
    Uniform(|env.centers|, p.sigHalf)
  }

  /** The conductivity with the layer and then the cylinder painted over the half-space. */
  function FullModel(env: Env, p: Params): seq<real>
  {
    var layered := PaintLayer(HalfModel(env, p), env.centers, p.zcLayer, p.dzLayer, p.sigLayer);
    PaintInside(layered, env.centers, CylinderPath(p.xc, p.zc, p.r, env.cos, env.sin), p.sigTarget, env.inside)
  }

  /** The log-conductivity models and the source a re-run builds before it solves. */
  datatype Models = Models(mtrue: seq<real>, mhalf: seq<real>, src: Source)

  function ModelsFor(env: Env, p: Params): Models
  {
    Models(LogModel(env.ln, FullModel(env, p)), LogModel(env.ln, HalfModel(env, p)), SourceFor(p.a, p.b))
  }

  /** What a re-run of `model_fields` computes for `p`: the full model solved first,
      then the half-space; a failure of either solve is passed on. */
  function Simulate(env: Env, p: Params): Option<Response>
  {
    SolveBoth(env, ModelsFor(env, p))
  }

  /** The two solves of a re-run, full model first; the first failure is passed on. */
  function SolveBoth(env: Env, m: Models): Option<Response>
  {
    match env.solve(m.mtrue, m.src)
    case None => None
    case Some(total) =>
      match env.solve(m.mhalf, m.src)
      case None => None
      case Some(primary) => Some(Response(m.mtrue, m.mhalf, m.src, primary, total))
  }

  /** How many solves a re-run makes: the second is never reached when the first fails. */
  function SolvesFor(env: Env, p: Params): nat
  {
    if env.solve(ModelsFor(env, p).mtrue, ModelsFor(env, p).src).None? then 1 else 2
  }

  /** The module-level `_cache` dict as an object: the ten key entries, the five
      result entries (absent until the first successful re-run), and a count of
      the simulation engine's invocations. */
  class FieldCache {
    const env: Env
    var keys: Slots
    var stored: Option<Response>
    var solverCalls: nat

    /** Either nothing is stored yet, or every key slot is filled and the results
        are exactly what a re-run on those keys computes: never stale. */
    ghost predicate Valid()
      reads this`keys, this`stored
    {
      || (keys == EmptySlots && stored.None?)
      || (KeyParams(keys).Some? && stored.Some? && stored == Simulate(env, KeyParams(keys).value))
    }

    /** The cache as the module starts it: every key `None`, no result. */
    constructor (env: Env)
      ensures Valid() && this.env == env
      ensures keys == EmptySlots && stored == None && solverCalls == 0
    {
      this.env := env;
      keys := EmptySlots;
      stored := None;
      solverCalls := 0;
    }

    /** `model_fields`: re-runs when any argument differs from its stored key,
        otherwise returns the stored results. `None` is a solver failure, which
        leaves the cache as it was. */
    method ModelFields(A: real, B: ElectrodeB, zcLayer: real, dzLayer: real, xc: real, zc: real, r: real,
                       sigLayer: real, sigTarget: real, sigHalf: real)
      returns (res: Option<Response>)
      requires Valid()
      modifies this
      ensures Valid()
      ensures var p := Params(A, B, zcLayer, dzLayer, xc, zc, r, sigLayer, sigTarget, sigHalf);
        && res == Simulate(env, p)
        && solverCalls == old(solverCalls) + (if Stale(old(keys), p) then SolvesFor(env, p) else 0)
        && (!Stale(old(keys), p) ==> res == old(stored))
        && (res.Some? ==> keys == SlotsOf(p) && stored == res)
        && (res.None? || !Stale(old(keys), p) ==> keys == old(keys) && stored == old(stored))
    {
      var p := Params(A, B, zcLayer, dzLayer, xc, zc, r, sigLayer, sigTarget, sigHalf);
      var reRun := keys.a != Some(A) || keys.b != Some(B) || keys.zcLayer != Some(zcLayer)
        || keys.dzLayer != Some(dzLayer) || keys.xc != Some(xc) || keys.zc != Some(zc) || keys.r != Some(r)
        || keys.sigLayer != Some(sigLayer) || keys.sigTarget != Some(sigTarget) || keys.sigHalf != Some(sigHalf);
      assert reRun == Stale(keys, p);
      if reRun {
        res := Compute(p);
        if res.Some? {
          keys := SlotsOf(p);
          stored := res;
          KeyParamsOfSlots(p);
        }
      } else {
        assert KeyParams(keys) == Some(p);
        res := stored;
      }
    }

    /** The `if re_run:` branch up to the writes: build the models, then solve the
        full model and the half-space, counting each invocation of the engine.
        A failing solve ends it; the cache entries are not touched. */
    method Compute(p: Params) returns (res: Option<Response>)
      modifies this`solverCalls
      ensures res == Simulate(env, p)
      ensures solverCalls == old(solverCalls) + SolvesFor(env, p)
    {
      var models := BuildModels(env, p.a, p.b, p.zcLayer, p.dzLayer, p.xc, p.zc, p.r, p.sigLayer, p.sigTarget, p.sigHalf);
      solverCalls := solverCalls + 1;
      var total := env.solve(models.mtrue, models.src);
      if total.None? {
        return None;
      }
      solverCalls := solverCalls + 1;
      var primary := env.solve(models.mhalf, models.src);
      if primary.None? {
        return None;
      }
      res := Some(Response(models.mtrue, models.mhalf, models.src, primary.value, total.value));
    }
  }

  /** The model building of a re-run: the half-space, its logarithm taken before
      `addLayer2Mod` overwrites the half-space array in place, then the cylinder
      painted on a copy, its logarithm, and the source. */
  method BuildModels(env: Env, A: real, B: ElectrodeB, zcLayer: real, dzLayer: real, xc: real, zc: real,
                     r: real, sigLayer: real, sigTarget: real, sigHalf: real)
    returns (models: Models)
    ensures models == ModelsFor(env, Params(A, B, zcLayer, dzLayer, xc, zc, r, sigLayer, sigTarget, sigHalf))
  {
    ghost var p := Params(A, B, zcLayer, dzLayer, xc, zc, r, sigLayer, sigTarget, sigHalf);
    var halfspaceMod := new real[|env.centers|](_ => sigHalf);
    assert halfspaceMod[..] == HalfModel(env, p);
    var mhalf := LogModel(env.ln, halfspaceMod[..]);
    var layerMod := AddLayer(zcLayer, dzLayer, halfspaceMod, sigLayer, env.centers);
    // halfspaceMod and layerMod are one array, now holding the layered model.
    assert halfspaceMod[..] == PaintLayer(HalfModel(env, p), env.centers, zcLayer, dzLayer, sigLayer);
    var fullMod := AddCylinder(xc, zc, r, layerMod, sigTarget, env.centers, env.cos, env.sin, env.inside);
    var mtrue := LogModel(env.ln, fullMod[..]);
    var src := SourceFor(A, B);
    models := Models(mtrue, mhalf, src);
  }

  /** Two consecutive calls with the same arguments: the second makes no solve
      and returns what the first stored. `afterFirst` is the solve count between them. */
  method RepeatedCallHits(cache: FieldCache, p: Params)
    returns (first: Option<Response>, second: Option<Response>, afterFirst: nat)
    requires cache.Valid()
    modifies cache
    ensures cache.Valid()
    ensures afterFirst <= old(cache.solverCalls) + 2
    ensures first.Some? ==> second == first && cache.solverCalls == afterFirst
  {
    first := cache.ModelFields(p.a, p.b, p.zcLayer, p.dzLayer, p.xc, p.zc, p.r, p.sigLayer, p.sigTarget, p.sigHalf);
    afterFirst := cache.solverCalls;
    second := cache.ModelFields(p.a, p.b, p.zcLayer, p.dzLayer, p.xc, p.zc, p.r, p.sigLayer, p.sigTarget, p.sigHalf);
  }

  /** Before the first call every key is `None`, so the first call always re-runs. */
  lemma FirstCallMisses(p: Params)
    ensures Stale(EmptySlots, p)
  {
  }

  /** After storing `p`, a call re-runs exactly when its arguments differ from `p`
      in at least one of the ten places. */
  lemma StaleIffArgumentsDiffer(p: Params, q: Params)
    ensures Stale(SlotsOf(p), q) <==> p != q
  {
  }

  /** Whatever the layer, `mhalf` is the logarithm of `sigHalf` in every cell. */
  lemma HalfSpaceLogUniform(env: Env, p: Params)
    requires Simulate(env, p).Some?
    ensures var m := Simulate(env, p).value.mhalf;
      |m| == |env.centers| && forall i :: 0 <= i < |m| ==> m[i] == env.ln(p.sigHalf)
  {
  }

  /** Taking the logarithm after `addLayer2Mod` had overwritten `halfspaceMod` would
      give a different `mhalf` as soon as one cell lies in the band and the logarithm
      tells the two conductivities apart. */
  lemma LogBeforeLayerMatters(env: Env, p: Params, i: nat)
    requires i < |env.centers| && InLayer(env.centers[i].z, p.zcLayer, p.dzLayer)
    requires env.ln(p.sigLayer) != env.ln(p.sigHalf)
    ensures LogModel(env.ln, PaintLayer(HalfModel(env, p), env.centers, p.zcLayer, p.dzLayer, p.sigLayer))
         != LogModel(env.ln, HalfModel(env, p))
  {
    var late := LogModel(env.ln, PaintLayer(HalfModel(env, p), env.centers, p.zcLayer, p.dzLayer, p.sigLayer));
    assert late[i] == env.ln(p.sigLayer);
  }

  /** The full model cell by cell: the cylinder conductivity inside the outline,
      the layer conductivity in the band outside it, the half-space elsewhere. */
  lemma FullModelCells(env: Env, p: Params, i: nat)
    requires i < |env.centers|
    ensures FullModel(env, p)[i]
         == if env.inside(CylinderPath(p.xc, p.zc, p.r, env.cos, env.sin), env.centers[i]) then p.sigTarget
            else if InLayer(env.centers[i].z, p.zcLayer, p.dzLayer) then p.sigLayer
            else p.sigHalf
  {
    AnomalyOverridesLayer(HalfModel(env, p), env.centers, p.zcLayer, p.dzLayer, p.sigLayer,
                          CylinderPath(p.xc, p.zc, p.r, env.cos, env.sin), p.sigTarget, env.inside, i);
  }
}
